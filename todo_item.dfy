/**
 * One rendered item (`TodoItem` in src/component/TodoItem.jsx): an inline
 * edit mode, an edit buffer, and a confirmation modal that gates the edit
 * and the delete before they reach `updateTodo` and `deleteTodo`.
 *
 * Each handler is specified by a step function on the four state fields that
 * also lists the calls it makes, recorded as the actions those calls build.
 * The item being rendered (the `todo` prop) is passed to the handlers that
 * read it.
 */
module TodoItemView {
  import opened Text
  import opened Keyboard
  import opened App

  /** The `mode` the edit flow opens the modal with. */
  const EditMode: string := "edit"

  /** The `mode` the delete button opens the modal with. */
  const DeleteMode: string := "delete"

  /** The component's four `useState` fields. */
  datatype ItemState = ItemState(isEditing: bool, editText: string, isModalOpen: bool, mode: string)

  /** The outcome of one handler: the new state and the actions dispatched meanwhile. */
  datatype ItemStep = ItemStep(next: ItemState, dispatched: seq<Action>)

  /** The state a freshly mounted item starts in: viewing, buffer seeded with the item's text, modal closed, no mode. */
  function Initial(todo: Todo): ItemState {
    ItemState(false, todo.text, false, "")
  }

  /** `showModal(m)`: opens the modal in mode `m`; the edit flag and the buffer are untouched. */
  function ShowModalStep(st: ItemState, m: string): (r: ItemState)
    ensures r.isModalOpen && r.mode == m
    ensures r.isEditing == st.isEditing && r.editText == st.editText
  {
    st.(mode := m, isModalOpen := true)
  }

  /**
   * `handleEdit`: always negates `isEditing`, also when it opens the modal.
   * It opens the modal in edit mode exactly when the item was being edited and
   * the buffer is not blank; otherwise the modal and its mode are unchanged.
   * It never dispatches.
   */
  function EditStep(st: ItemState): (r: ItemStep)
    ensures r.next.isEditing == !st.isEditing
    ensures r.next.editText == st.editText
    ensures r.dispatched == []
    ensures st.isEditing && !IsBlank(st.editText) ==> r.next.isModalOpen && r.next.mode == EditMode
    ensures !(st.isEditing && !IsBlank(st.editText)) ==>
              r.next.isModalOpen == st.isModalOpen && r.next.mode == st.mode
  {
    var shown := if st.isEditing && Trim(st.editText) != "" then ShowModalStep(st, EditMode) else st;
    ItemStep(shown.(isEditing := !st.isEditing), [])
  }

  /** `handleKeyDown(e)`: ignores a composing keydown, acts as `handleEdit` on Enter, ignores every other key. */
  function KeyDownStep(st: ItemState, e: KeyEvent): (r: ItemStep)
    ensures IsComposing(e) ==> r == ItemStep(st, [])
    ensures IsSubmit(e) ==> r == EditStep(st)
    ensures !IsComposing(e) && e.key != EnterKey ==> r == ItemStep(st, [])
  {
    if e.keyCode == ImeProcessKeyCode then ItemStep(st, [])
    else if e.key == EnterKey then EditStep(st)
    else ItemStep(st, [])
  }

  /**
   * `handleOk`: closes the modal, dispatching `deleteTodo(todo.id)` in delete
   * mode, `updateTodo(todo.id, editText)` in edit mode and nothing in any other
   * mode. The edit flag, the buffer and the mode are untouched.
   */
  function OkStep(st: ItemState, todo: Todo): (r: ItemStep)
    ensures !r.next.isModalOpen
    ensures r.next.isEditing == st.isEditing && r.next.editText == st.editText && r.next.mode == st.mode
    ensures st.mode == DeleteMode ==> r.dispatched == [DeleteTodo(todo.id)]
    ensures st.mode == EditMode ==> r.dispatched == [UpdateTodo(todo.id, st.editText)]
    ensures st.mode != DeleteMode && st.mode != EditMode ==> r.dispatched == []
  {
    var calls :=
      if st.mode == DeleteMode then [DeleteTodo(todo.id)]
      else if st.mode == EditMode then [UpdateTodo(todo.id, st.editText)]
      else [];
    ItemStep(st.(isModalOpen := false), calls)
  }

  /**
   * `handleCancel`: closes the modal without dispatching; in edit mode the
   * buffer goes back to the item's current text, otherwise it is kept.
   */
  function CancelStep(st: ItemState, todo: Todo): (r: ItemState)
    ensures !r.isModalOpen && r.isEditing == st.isEditing && r.mode == st.mode
    ensures st.mode == EditMode ==> r.editText == todo.text
    ensures st.mode != EditMode ==> r.editText == st.editText
  {
    var reset := if st.mode == EditMode then st.(editText := todo.text) else st;
    reset.(isModalOpen := false)
  }

  /** The edit field's `onChange`: the buffer becomes the field's value, and nothing else changes. */
  function TextChangeStep(st: ItemState, value: string): (r: ItemState)
    ensures r.editText == value
    ensures r.isEditing == st.isEditing && r.isModalOpen == st.isModalOpen && r.mode == st.mode
  {
    st.(editText := value)
  }

  /** The checkbox's `onChange`: calls `toggleComplete(todo.id)` at once and changes no field. */
  function CheckboxStep(st: ItemState, todo: Todo): (r: ItemStep)
    ensures r.next == st
    ensures r.dispatched == [ToggleComplete(todo.id)]
  {
    ItemStep(st, [ToggleComplete(todo.id)])
  }

  // ---------------------------------------------------------------------------
  // The component as a whole: the events it can receive, and what holds of
  // every state it reaches.

  /** The user events the item reacts to; those whose handler reads the `todo` prop carry it. */
  datatype ItemEvent =
    | EditClick                 // the edit / done button
    | KeyDown(e: KeyEvent)      // a keydown in the edit field
    | TextChange(value: string) // the edit field's onChange
    | DeleteClick               // the delete button
    | Ok(todo: Todo)            // the modal's OK button
    | Cancel(todo: Todo)        // the modal's Cancel button
    | CheckboxChange(todo: Todo)

  /**
   * The handler each event runs, as the rendered elements bind them. Only the
   * modal's OK button and the checkbox reach `App`'s callbacks, one call at a
   * time, and never `addTodo`; the delete button opens the modal in delete
   * mode, and either modal button closes it.
   */
  function Handle(st: ItemState, ev: ItemEvent): (r: ItemStep)
    ensures |r.dispatched| <= 1
    ensures r.dispatched != [] ==> ev.Ok? || ev.CheckboxChange?
    ensures forall a :: a in r.dispatched ==> !a.Add? && !a.Other?
    ensures ev.DeleteClick? ==> r.next.isModalOpen && r.next.mode == DeleteMode
    ensures ev.Ok? || ev.Cancel? ==> !r.next.isModalOpen
  {
    match ev
    case EditClick => EditStep(st)
    case KeyDown(e) => KeyDownStep(st, e)
    case TextChange(value) => ItemStep(TextChangeStep(st, value), [])
    case DeleteClick => ItemStep(ShowModalStep(st, DeleteMode), [])
    case Ok(todo) => OkStep(st, todo)
    case Cancel(todo) => ItemStep(CancelStep(st, todo), [])
    case CheckboxChange(todo) => CheckboxStep(st, todo)
  }

  /**
   * The events the rendered page lets through: the edit field exists only in
   * edit mode, the OK and Cancel buttons only while the modal is open, and an
   * open modal keeps every other control of the page from being used.
   */
  predicate Enabled(st: ItemState, ev: ItemEvent) {
    && (st.isModalOpen <==> ev.Ok? || ev.Cancel?)
    && (ev.KeyDown? || ev.TextChange? ==> st.isEditing)
  }

  /**
   * What the rendered page's gating means for the item: while the modal is
   * open, the event that gets through closes it and leaves the edit flag and
   * the mode alone; while the item is not in edit mode, only Cancel can change
   * the buffer, since the edit field is not on the page.
   */
  lemma EnabledEventsRespectPage(st: ItemState, ev: ItemEvent)
    requires Enabled(st, ev)
    ensures var r := Handle(st, ev);
      st.isModalOpen ==> !r.next.isModalOpen && r.next.isEditing == st.isEditing && r.next.mode == st.mode
    ensures !st.isEditing && !ev.Cancel? ==> Handle(st, ev).next.editText == st.editText
  {
  }

  /**
   * The states the item can be in: an open modal has one of the two modes, and
   * while an edit is awaiting confirmation the item has left edit mode and the
   * buffer it will dispatch is not blank.
   */
  predicate Consistent(st: ItemState) {
    && (st.isModalOpen ==> st.mode == EditMode || st.mode == DeleteMode)
    && (st.isModalOpen && st.mode == EditMode ==> !st.isEditing && !IsBlank(st.editText))
  }

  /** Every event the page lets through keeps the item's state consistent. */
  lemma HandlePreservesConsistent(st: ItemState, ev: ItemEvent)
    requires Consistent(st) && Enabled(st, ev)
    ensures Consistent(Handle(st, ev).next)
  {
  }

  /** The handlers run for a series of events, and everything they dispatched, in order. */
  function Run(st: ItemState, events: seq<ItemEvent>): ItemStep
    decreases |events|
  {
    if events == [] then ItemStep(st, [])
    else
      var first := Handle(st, events[0]);
      var rest := Run(first.next, events[1..]);
      ItemStep(rest.next, first.dispatched + rest.dispatched)
  }

  /** A series runs its first event's handler, then the rest of the series from the state that handler left. */
  lemma RunStep(st: ItemState, events: seq<ItemEvent>)
    requires events != []
    ensures var first := Handle(st, events[0]);
      var rest := Run(first.next, events[1..]);
      Run(st, events) == ItemStep(rest.next, first.dispatched + rest.dispatched)
  {
  }

  /** Every event of the series is one the page lets through when it arrives. */
  predicate EnabledRun(st: ItemState, events: seq<ItemEvent>)
    decreases |events|
  {
    events == [] || (Enabled(st, events[0]) && EnabledRun(Handle(st, events[0]).next, events[1..]))
  }

  /**
   * Along any series of events the page lets through, starting from a
   * consistent state (a freshly mounted item is one), every UPDATE_TODO the
   * item dispatches carries text that is not blank, and it never dispatches an
   * ADD_TODO or an action of an unknown type.
   */
  lemma {:induction false} RunDispatchesNoBlankUpdate(st: ItemState, events: seq<ItemEvent>)
    requires Consistent(st) && EnabledRun(st, events)
    ensures Consistent(Run(st, events).next)
    ensures forall a :: a in Run(st, events).dispatched ==> !a.Add? && !a.Other?
    ensures forall a :: a in Run(st, events).dispatched && a.Update? ==> !IsBlank(a.text)
    decreases |events|
  {
    if events != [] {
      var first := Handle(st, events[0]);
      HandlePreservesConsistent(st, events[0]);
      RunDispatchesNoBlankUpdate(first.next, events[1..]);
    }
  }

  /**
   * The same guarantee fails once the open modal no longer shields the page:
   * pressing the edit button again while an edit awaits confirmation re-enters
   * edit mode, the buffer can be blanked, and OK dispatches it.
   */
  lemma UnshieldedModalDispatchesBlankUpdate(todo: Todo)
    requires !IsBlank(todo.text)
    ensures var events := [EditClick, EditClick, EditClick, TextChange(" "), Ok(todo)];
      Run(Initial(todo), events).dispatched == [UpdateTodo(todo.id, " ")]
  {
    var blank := [UpdateTodo(todo.id, " ")];
    // The states the five events go through, one after the other.
    var s0 := ItemState(false, todo.text, false, "");
    var s1 := ItemState(true, todo.text, false, "");
    var s2 := ItemState(false, todo.text, true, EditMode);   // the modal opens, edit mode is left
    var s3 := ItemState(true, todo.text, true, EditMode);    // edit mode again, modal still open
    var s4 := ItemState(true, " ", true, EditMode);
    var s5 := ItemState(true, " ", false, EditMode);
    assert Handle(s0, EditClick) == ItemStep(s1, []);
    assert Handle(s1, EditClick) == ItemStep(s2, []);
    assert Handle(s2, EditClick) == ItemStep(s3, []);
    assert Handle(s3, TextChange(" ")) == ItemStep(s4, []);
    assert Handle(s4, Ok(todo)) == ItemStep(s5, blank);

    var e4 := [Ok(todo)];
    var e3 := [TextChange(" ")] + e4;
    var e2 := [EditClick] + e3;
    var e1 := [EditClick] + e2;
    var e0 := [EditClick] + e1;
    RunStep(s4, e4);
    assert e4[1..] == [];
    assert Run(s4, e4) == ItemStep(s5, blank);
    RunStep(s3, e3);
    assert e3[1..] == e4;
    RunStep(s2, e2);
    assert e2[1..] == e3;
    RunStep(s1, e1);
    assert e1[1..] == e2;
    RunStep(s0, e0);
    assert e0[1..] == e1;
    assert Run(s0, e0) == ItemStep(s5, blank);
    assert e0 == [EditClick, EditClick, EditClick, TextChange(" "), Ok(todo)];
  }

  /**
   * Confirming an edit updates the text of exactly the rendered item: the
   * action OK dispatches in edit mode, once reduced, gives every item carrying
   * the item's id the buffer's text and leaves the other items alone.
   */
  lemma ConfirmedEditRetextsItem(st: ItemState, todo: Todo, todos: seq<Todo>, now: int)
    requires st.mode == EditMode
    ensures var r := Reduce(todos, OkStep(st, todo).dispatched[0], now);
      && |r| == |todos|
      && forall i :: 0 <= i < |todos| ==>
           (todos[i].id == todo.id ==> r[i] == todos[i].(text := st.editText))
           && (todos[i].id != todo.id ==> r[i] == todos[i])
  {
  }

  /** The `TodoItem` component's state, and a log of what it dispatched. */
  class TodoItem {
    var isEditing: bool
    var editText: string
    var isModalOpen: bool
    var mode: string
    ghost var dispatched: seq<Action>

    /** The four fields as one value. */
    function State(): ItemState
      reads this
    {
      ItemState(isEditing, editText, isModalOpen, mode)
    }

    /** Mounting the item for `todo`. */
    constructor (todo: Todo)
      ensures State() == Initial(todo) && dispatched == []
    {
      isEditing := false;
      editText := todo.text;
      isModalOpen := false;
      mode := "";
      dispatched := [];
    }

    /** `showModal(selectedMode)`. */
    method ShowModal(selectedMode: string)
      modifies this
      ensures State() == ShowModalStep(old(State()), selectedMode)
      ensures dispatched == old(dispatched)
    {
      mode := selectedMode;
      isModalOpen := true;
    }

    /** `handleEdit`, the edit button's `onClick`. */
    method HandleEdit()
      modifies this
      ensures State() == EditStep(old(State())).next
      ensures dispatched == old(dispatched)
    {
      var wasEditing := isEditing;
      if isEditing && Trim(editText) != "" {
        ShowModal(EditMode);
      }
      isEditing := !wasEditing;
    }

    /** `handleKeyDown(e)`, the edit field's `onKeyDown`. */
    method HandleKeyDown(e: KeyEvent)
      modifies this
      ensures State() == KeyDownStep(old(State()), e).next
      ensures dispatched == old(dispatched)
    {
      if e.keyCode == ImeProcessKeyCode {
        return;
      }
      if e.key == EnterKey {
        HandleEdit();
      }
    }

    /** `handleOk`, the modal's OK button. */
    method HandleOk(todo: Todo)
      modifies this
      ensures State() == OkStep(old(State()), todo).next
      ensures dispatched == old(dispatched) + OkStep(old(State()), todo).dispatched
    {
      if mode == DeleteMode {
        dispatched := dispatched + [DeleteTodo(todo.id)];
      } else if mode == EditMode {
        dispatched := dispatched + [UpdateTodo(todo.id, editText)];
      }
      isModalOpen := false;
    }

    /** `handleCancel`, the modal's Cancel button. */
    method HandleCancel(todo: Todo)
      modifies this
      ensures State() == CancelStep(old(State()), todo)
      ensures dispatched == old(dispatched)
    {
      if mode == EditMode {
        editText := todo.text;
      }
      isModalOpen := false;
    }

    /** The checkbox's `onChange`: dispatches `toggleComplete(todo.id)` at once and changes no field. */
    method OnCheckboxChange(todo: Todo)
      modifies this
      ensures State() == CheckboxStep(old(State()), todo).next
      ensures dispatched == old(dispatched) + CheckboxStep(old(State()), todo).dispatched
    {
      dispatched := dispatched + [ToggleComplete(todo.id)];
    }

    /** The delete button's `onClick`: `showModal('delete')`. */
    method OnDeleteClick()
      modifies this
      ensures State() == ShowModalStep(old(State()), DeleteMode)
      ensures dispatched == old(dispatched)
    {
      ShowModal(DeleteMode);
    }

    /** The edit field's `onChange`: the buffer becomes the field's value and nothing else changes. */
    method OnTextChange(value: string)
      modifies this
      ensures State() == TextChangeStep(old(State()), value)
      ensures dispatched == old(dispatched)
    {
      editText := value;
    }
  }
}
