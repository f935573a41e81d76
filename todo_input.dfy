/**
 * The new-item input (`TodoInput` in src/component/TodoInput.jsx): one text
 * buffer, and a submit that hands the text to `addTodo` when it is not blank.
 *
 * Each handler is specified by a step function giving the new buffer and the
 * calls made to `addTodo`, recorded as the actions those calls build.
 */
module TodoInputView {
  import opened Text
  import opened Keyboard
  import opened App

  /** The outcome of one handler: the new `input` and the actions dispatched meanwhile. */
  datatype InputStep = InputStep(input: string, dispatched: seq<Action>)

  /**
   * `handleAdd`: a buffer with a non-whitespace character is dispatched as it
   * is (untrimmed) and then cleared; a blank one dispatches nothing and stays.
   */
  function AddStep(input: string): (r: InputStep)
    ensures !IsBlank(input) ==> r.dispatched == [AddTodo(input)] && r.input == ""
    ensures IsBlank(input) ==> r.dispatched == [] && r.input == input
    ensures forall a :: a in r.dispatched ==> a.Add? && !IsBlank(a.text)
  {
    if Trim(input) != "" then InputStep("", [AddTodo(input)]) else InputStep(input, [])
  }

  /** `handleKeyDown(e)`: ignores a composing keydown, submits on Enter, ignores every other key. */
  function KeyDownStep(input: string, e: KeyEvent): (r: InputStep)
    ensures IsComposing(e) ==> r == InputStep(input, [])
    ensures IsSubmit(e) ==> r == AddStep(input)
    ensures !IsComposing(e) && e.key != EnterKey ==> r == InputStep(input, [])
  {
    if e.keyCode == ImeProcessKeyCode then InputStep(input, [])
    else if e.key == EnterKey then AddStep(input)
    else InputStep(input, [])
  }

  /** The field's `onChange`: the buffer becomes the field's value; nothing is dispatched. */
  function ChangeStep(value: string): (r: InputStep)
    ensures r.input == value && r.dispatched == []
  {
    InputStep(value, [])
  }

  /** A submit right after a successful one dispatches nothing: the buffer is empty by then. */
  lemma AddTwiceDispatchesOnce(input: string)
    ensures var first := AddStep(input);
      var second := AddStep(first.input);
      && second.dispatched == []
      && |first.dispatched + second.dispatched| <= 1
  {
  }

  /**
   * What a submit does to the collection: a non-blank buffer appends one new
   * uncompleted item carrying the untrimmed text; a blank one dispatches
   * nothing, so the collection is untouched.
   */
  lemma SubmitAppendsItem(input: string, todos: seq<Todo>, now: int)
    ensures var r := AddStep(input);
      && (!IsBlank(input) ==> Replay(todos, [Dispatch(r.dispatched[0], now)]) == todos + [Todo(now, input, false)])
      && (IsBlank(input) ==> r.dispatched == [])
  {
  }

  /** The `TodoInput` component's state: the `input` buffer, and a log of what it dispatched. */
  class TodoInput {
    var input: string
    ghost var dispatched: seq<Action>

    /** `useState('')`: the buffer starts empty. */
    constructor ()
      ensures input == "" && dispatched == []
    {
      input := "";
      dispatched := [];
    }

    /** `handleAdd`, the Enter key's action and the button's `onClick`. */
    method HandleAdd()
      modifies this
      ensures input == AddStep(old(input)).input
      ensures dispatched == old(dispatched) + AddStep(old(input)).dispatched
    {
      if Trim(input) != "" {
        dispatched := dispatched + [AddTodo(input)];
        input := "";
      }
    }

    /** `handleKeyDown(e)`, wired to the field's `onKeyDown`. */
    method HandleKeyDown(e: KeyEvent)
      modifies this
      ensures input == KeyDownStep(old(input), e).input
      ensures dispatched == old(dispatched) + KeyDownStep(old(input), e).dispatched
    {
      if e.keyCode == ImeProcessKeyCode {
        return;
      }
      if e.key == EnterKey {
        HandleAdd();
      }
    }

    /** The field's `onChange`: the buffer becomes the field's value; nothing is dispatched. */
    method OnChange(value: string)
      modifies this
      ensures input == ChangeStep(value).input
      ensures dispatched == old(dispatched) + ChangeStep(value).dispatched
    {
      input := value;
    }
  }

  /** The scenario of typing blank text and pressing Enter: nothing reaches `addTodo`. */
  method BlankSubmitDispatchesNothing(field: TodoInput, blank: string)
    requires IsBlank(blank)
    modifies field
    ensures field.dispatched == old(field.dispatched) && field.input == blank
  {
    field.OnChange(blank);
    field.HandleKeyDown(KeyEvent(13, EnterKey));
  }

  /** Typing text, pressing Enter, then pressing Enter again dispatches the text once and leaves the buffer empty. */
  method EnterTwiceAddsOnce(field: TodoInput, text: string)
    requires !IsBlank(text)
    modifies field
    ensures field.dispatched == old(field.dispatched) + [AddTodo(text)] && field.input == ""
  {
    field.OnChange(text);
    field.HandleKeyDown(KeyEvent(13, EnterKey));
    field.HandleKeyDown(KeyEvent(13, EnterKey));
  }
}
