/**
 * The to-do collection and its reducer (`todoReducer` in src/App.jsx), with
 * the four dispatch wrappers that build its actions.
 *
 * The reducer reads the wall clock (`Date.now()`) to give a new item its id;
 * here that reading is the parameter `now`.
 */
module App {
  import opened JsArray

  /** One stored item, `{ id, text, completed }`. */
  datatype Todo = Todo(id: int, text: string, completed: bool)

  /**
   * The actions the reducer switches on, one constructor per `type` string it
   * recognises, with that type's payload. `Other` is an action whose `type` is
   * none of those four strings.
   */
  datatype Action =
    | Add(text: string)             // { type: 'ADD_TODO', payload: text }
    | Update(id: int, text: string) // { type: 'UPDATE_TODO', payload: { id, text } }
    | Toggle(id: int)               // { type: 'TOGGLE_COMPLETE', payload: id }
    | Delete(id: int)               // { type: 'DELETE_TODO', payload: id }
    | Other(kind: UnknownKind)

  /** A `type` string none of the reducer's four cases matches. */
  type UnknownKind = k: string | k !in {"ADD_TODO", "UPDATE_TODO", "TOGGLE_COMPLETE", "DELETE_TODO"} witness ""

  /** The `type` string of an action. */
  function TypeName(a: Action): string {
    match a
    case Add(_) => "ADD_TODO"
    case Update(_, _) => "UPDATE_TODO"
    case Toggle(_) => "TOGGLE_COMPLETE"
    case Delete(_) => "DELETE_TODO"
    case Other(kind) => kind
  }

  /** Each `type` string selects exactly one of the reducer's cases. */
  lemma TypeNameSelectsCase(a: Action)
    ensures TypeName(a) == "ADD_TODO" <==> a.Add?
    ensures TypeName(a) == "UPDATE_TODO" <==> a.Update?
    ensures TypeName(a) == "TOGGLE_COMPLETE" <==> a.Toggle?
    ensures TypeName(a) == "DELETE_TODO" <==> a.Delete?
  {
  }

  /** The ids present in a collection. */
  function Ids(s: seq<Todo>): set<int> {
    set t | t in s :: t.id
  }

  /** Only the empty collection has no ids. */
  lemma NoIdsMeansEmpty(s: seq<Todo>)
    ensures Ids(s) == {} <==> s == []
  {
    if s != [] {
      assert s[0] in s;
      assert s[0].id in Ids(s);
    }
  }

  /** No two items share an id. */
  predicate DistinctIds(s: seq<Todo>) {
    forall i, j :: 0 <= i < j < |s| ==> s[i].id != s[j].id
  }

  /** How many items carry `id`. */
  function CountId(s: seq<Todo>, id: int): nat {
    if s == [] then 0 else (if s[0].id == id then 1 else 0) + CountId(s[1..], id)
  }

  /** The callback UPDATE_TODO maps over the state. */
  function RetextIf(id: int, text: string): Todo -> Todo {
    (t: Todo) => if t.id == id then t.(text := text) else t
  }

  /** The callback TOGGLE_COMPLETE maps over the state. */
  function ToggleIf(id: int): Todo -> Todo {
    (t: Todo) => if t.id == id then t.(completed := !t.completed) else t
  }

  /** The predicate DELETE_TODO filters the state with. */
  function KeepsUnless(id: int): Todo -> bool {
    (t: Todo) => t.id != id
  }

  /**
   * `todoReducer(state, action)`, with `now` standing for `Date.now()`.
   * No action brings in an id other than the fresh one ADD_TODO uses.
   */
  function Reduce(state: seq<Todo>, action: Action, now: int): (r: seq<Todo>)
    ensures Ids(r) <= Ids(state) + (if action.Add? then {now} else {})
  {
    match action
    case Add(text) => state + [Todo(now, text, false)]
    case Update(id, text) =>
      var r := Map(state, RetextIf(id, text));
      assert forall t | t in r :: t.id in Ids(state) by {
        forall t | t in r ensures t.id in Ids(state) {
          var i :| 0 <= i < |r| && r[i] == t;
          assert state[i] in state;
        }
      }
      r
    case Toggle(id) =>
      var r := Map(state, ToggleIf(id));
      assert forall t | t in r :: t.id in Ids(state) by {
        forall t | t in r ensures t.id in Ids(state) {
          var i :| 0 <= i < |r| && r[i] == t;
          assert state[i] in state;
        }
      }
      r
    case Delete(id) => Filter(state, KeepsUnless(id))
    case Other(_) => state
  }

  // ---------------------------------------------------------------------------
  // The dispatch wrappers: each builds one action and hands it to the reducer.

  /** `addTodo(text)`: an ADD_TODO action whose payload is the text. */
  function AddTodo(text: string): (a: Action)
    ensures TypeName(a) == "ADD_TODO" && a.Add? && a.text == text
  {
    Add(text)
  }

  /** `updateTodo(id, text)`: an UPDATE_TODO action whose payload is `{ id, text }`. */
  function UpdateTodo(id: int, text: string): (a: Action)
    ensures TypeName(a) == "UPDATE_TODO" && a.Update? && a.id == id && a.text == text
  {
    Update(id, text)
  }

  /** `toggleComplete(id)`: a TOGGLE_COMPLETE action whose payload is the id. */
  function ToggleComplete(id: int): (a: Action)
    ensures TypeName(a) == "TOGGLE_COMPLETE" && a.Toggle? && a.id == id
  {
    Toggle(id)
  }

  /** `deleteTodo(id)`: a DELETE_TODO action whose payload is the id. */
  function DeleteTodo(id: int): (a: Action)
    ensures TypeName(a) == "DELETE_TODO" && a.Delete? && a.id == id
  {
    Delete(id)
  }

  // ---------------------------------------------------------------------------
  // ADD_TODO

  /** ADD_TODO keeps every existing item in place and appends one new, uncompleted item. */
  lemma AddAppends(state: seq<Todo>, text: string, now: int)
    ensures var r := Reduce(state, AddTodo(text), now);
      && |r| == |state| + 1
      && r[..|state|] == state
      && r[|state|] == Todo(now, text, false)
  {
  }

  // ---------------------------------------------------------------------------
  // UPDATE_TODO

  /**
   * UPDATE_TODO keeps the length, every id and every completed flag; an item
   * with the id gets the new text, and every other item is left as it was.
   */
  lemma UpdateRetexts(state: seq<Todo>, id: int, text: string, now: int)
    ensures var r := Reduce(state, UpdateTodo(id, text), now);
      && |r| == |state|
      && forall i :: 0 <= i < |state| ==>
           && r[i].id == state[i].id
           && r[i].completed == state[i].completed
           && (state[i].id == id ==> r[i].text == text)
           && (state[i].id != id ==> r[i] == state[i])
  {
  }

  /** UPDATE_TODO with an id no item carries returns the state unchanged. */
  lemma UpdateMissingIsNoOp(state: seq<Todo>, id: int, text: string, now: int)
    requires id !in Ids(state)
    ensures Reduce(state, UpdateTodo(id, text), now) == state
  {
  }

  // ---------------------------------------------------------------------------
  // TOGGLE_COMPLETE

  /**
   * TOGGLE_COMPLETE keeps the length, every id and every text, and negates
   * `completed` on exactly the items that carry the id.
   */
  lemma ToggleFlips(state: seq<Todo>, id: int, now: int)
    ensures var r := Reduce(state, ToggleComplete(id), now);
      && |r| == |state|
      && forall i :: 0 <= i < |state| ==>
           && r[i].id == state[i].id
           && r[i].text == state[i].text
           && (r[i].completed <==> (if state[i].id == id then !state[i].completed else state[i].completed))
  {
  }

  /** Toggling the same id twice gives back the original state. */
  lemma ToggleTwiceIsIdentity(state: seq<Todo>, id: int, now1: int, now2: int)
    ensures Reduce(Reduce(state, ToggleComplete(id), now1), ToggleComplete(id), now2) == state
  {
  }

  /** TOGGLE_COMPLETE with an id no item carries returns the state unchanged. */
  lemma ToggleMissingIsNoOp(state: seq<Todo>, id: int, now: int)
    requires id !in Ids(state)
    ensures Reduce(state, ToggleComplete(id), now) == state
  {
  }

  // ---------------------------------------------------------------------------
  // DELETE_TODO

  /** DELETE_TODO keeps exactly the items whose id differs, and leaves none carrying the id. */
  lemma DeleteRemoves(state: seq<Todo>, id: int, now: int)
    ensures var r := Reduce(state, DeleteTodo(id), now);
      && (forall t :: t in r <==> t in state && t.id != id)
      && id !in Ids(r)
  {
  }

  /** DELETE_TODO keeps the surviving items in their original order: it distributes over concatenation. */
  lemma DeleteKeepsOrder(a: seq<Todo>, b: seq<Todo>, id: int, now: int)
    ensures Reduce(a + b, DeleteTodo(id), now)
         == Reduce(a, DeleteTodo(id), now) + Reduce(b, DeleteTodo(id), now)
  {
    FilterAppend(a, b, KeepsUnless(id));
  }

  /** DELETE_TODO shortens the state by the number of items carrying the id. */
  lemma {:induction false} DeleteLength(state: seq<Todo>, id: int, now: int)
    ensures |Reduce(state, DeleteTodo(id), now)| == |state| - CountId(state, id)
  {
    if state != [] {
      DeleteLength(state[1..], id, now);
    }
  }

  /** DELETE_TODO with an id no item carries returns the state unchanged. */
  lemma DeleteMissingIsNoOp(state: seq<Todo>, id: int, now: int)
    requires id !in Ids(state)
    ensures Reduce(state, DeleteTodo(id), now) == state
  {
    forall i | 0 <= i < |state| ensures KeepsUnless(id)(state[i]) {
      assert state[i] in state;
    }
    FilterKeepsAll(state, KeepsUnless(id));
  }

  // ---------------------------------------------------------------------------
  // The default branch

  /** An action of any other type leaves the state as it was. */
  lemma OtherIsNoOp(state: seq<Todo>, kind: UnknownKind, now: int)
    ensures Reduce(state, Other(kind), now) == state
  {
  }

  // ---------------------------------------------------------------------------
  // Distinct ids

  /** Filtering a collection with distinct ids leaves the ids distinct. */
  lemma {:induction false} FilterKeepsDistinct(s: seq<Todo>, p: Todo -> bool)
    requires DistinctIds(s)
    ensures DistinctIds(Filter(s, p))
  {
    if s != [] {
      var rest := Filter(s[1..], p);
      FilterKeepsDistinct(s[1..], p);
      forall t | t in rest ensures t.id != s[0].id {
        var j :| 0 <= j < |s[1..]| && s[1..][j] == t;
        assert s[j + 1] == t;
      }
    }
  }

  /**
   * UPDATE_TODO, TOGGLE_COMPLETE, DELETE_TODO and unknown actions keep ids
   * distinct; ADD_TODO does too when the clock reading is not already an id.
   */
  lemma ReducePreservesDistinctIds(state: seq<Todo>, action: Action, now: int)
    requires DistinctIds(state)
    requires action.Add? ==> now !in Ids(state)
    ensures DistinctIds(Reduce(state, action, now))
  {
    match action
    case Add(text) =>
      var r := Reduce(state, action, now);
      forall i, j | 0 <= i < j < |r| ensures r[i].id != r[j].id {
        if j == |state| {
          assert state[i] in state;
        }
      }
    case Delete(id) =>
      FilterKeepsDistinct(state, KeepsUnless(id));
    case _ =>
  }

  // ---------------------------------------------------------------------------
  // Sequences of dispatches

  /** One reducer step: an action together with the clock reading at the moment it is reduced. */
  datatype Dispatch = Dispatch(action: Action, now: int)

  /** The state after reducing each dispatch in turn, as `useReducer` does. */
  function Replay(state: seq<Todo>, history: seq<Dispatch>): seq<Todo>
    decreases |history|
  {
    if history == [] then state
    else Replay(Reduce(state, history[0].action, history[0].now), history[1..])
  }

  /**
   * A run of ADD_TODO dispatches whose clock readings are pairwise distinct and
   * not already ids adds one item per dispatch and keeps ids distinct.
   */
  lemma {:induction false} AddsKeepIdsDistinct(state: seq<Todo>, history: seq<Dispatch>)
    requires DistinctIds(state)
    requires forall k :: 0 <= k < |history| ==> history[k].action.Add? && history[k].now !in Ids(state)
    requires forall k, l :: 0 <= k < l < |history| ==> history[k].now != history[l].now
    ensures |Replay(state, history)| == |state| + |history|
    ensures DistinctIds(Replay(state, history))
    decreases |history|
  {
    if history != [] {
      var d := history[0];
      var next := Reduce(state, d.action, d.now);
      ReducePreservesDistinctIds(state, d.action, d.now);
      assert Ids(next) <= Ids(state) + {d.now};
      forall k | 0 <= k < |history[1..]| ensures history[1..][k].now !in Ids(next) {
        assert history[1..][k] == history[k + 1];
      }
      AddsKeepIdsDistinct(next, history[1..]);
    }
  }

  /** The DELETE_TODO dispatches for the given ids, in order. */
  function DeleteAll(ids: seq<int>, now: int): (h: seq<Dispatch>)
    ensures |h| == |ids|
    ensures forall k :: 0 <= k < |ids| ==> h[k] == Dispatch(DeleteTodo(ids[k]), now)
  {
    if ids == [] then [] else [Dispatch(DeleteTodo(ids[0]), now)] + DeleteAll(ids[1..], now)
  }

  /** Deleting, one after another, every id that occurs in the state leaves it empty. */
  lemma {:induction false} DeletingEveryIdEmpties(state: seq<Todo>, ids: seq<int>, now: int)
    requires forall t :: t in state ==> t.id in ids
    ensures Replay(state, DeleteAll(ids, now)) == []
    decreases |ids|
  {
    if ids == [] {
      assert Ids(state) == {};
      NoIdsMeansEmpty(state);
    } else {
      var next := Reduce(state, DeleteTodo(ids[0]), now);
      DeleteRemoves(state, ids[0], now);
      forall t | t in next ensures t.id in ids[1..] {
        assert t.id in ids && t.id != ids[0];
      }
      assert DeleteAll(ids, now)[1..] == DeleteAll(ids[1..], now);
      DeletingEveryIdEmpties(next, ids[1..], now);
    }
  }

  /**
   * A session: add "buy milk" and "walk dog", complete the first, reword the
   * second, delete the first. Only the reworded second item is left.
   */
  lemma {:induction false} ShoppingSession(t1: int, t2: int, t3: int, t4: int, t5: int)
    requires t1 != t2
    ensures var history := [
        Dispatch(AddTodo("buy milk"), t1),
        Dispatch(AddTodo("walk dog"), t2),
        Dispatch(ToggleComplete(t1), t3),
        Dispatch(UpdateTodo(t2, "walk the dog"), t4),
        Dispatch(DeleteTodo(t1), t5)];
      Replay([], history) == [Todo(t2, "walk the dog", false)]
  {
    var milk, dog := Todo(t1, "buy milk", false), Todo(t2, "walk dog", false);
    var done, reworded := milk.(completed := true), dog.(text := "walk the dog");
    var history := [
        Dispatch(AddTodo("buy milk"), t1),
        Dispatch(AddTodo("walk dog"), t2),
        Dispatch(ToggleComplete(t1), t3),
        Dispatch(UpdateTodo(t2, "walk the dog"), t4),
        Dispatch(DeleteTodo(t1), t5)];
    var s1 := Reduce([], AddTodo("buy milk"), t1);
    var s2 := Reduce(s1, AddTodo("walk dog"), t2);
    var s3 := Reduce(s2, ToggleComplete(t1), t3);
    var s4 := Reduce(s3, UpdateTodo(t2, "walk the dog"), t4);
    var s5 := Reduce(s4, DeleteTodo(t1), t5);
    assert s2 == [milk, dog];
    assert s3 == [done, dog] by {
      ToggleFlips(s2, t1, t3);
    }
    assert s4 == [done, reworded] by {
      UpdateRetexts(s3, t2, "walk the dog", t4);
    }
    assert s5 == [reworded] by {
      assert s4 == [done] + [reworded];
      DeleteKeepsOrder([done], [reworded], t1, t5);
    }
    ReplayStep(s4, history[4..]);
    assert Replay(s4, history[4..]) == s5 by { assert history[4..][1..] == []; }
    ReplayStep(s3, history[3..]);
    assert history[3..][1..] == history[4..];
    ReplayStep(s2, history[2..]);
    assert history[2..][1..] == history[3..];
    ReplayStep(s1, history[1..]);
    assert history[1..][1..] == history[2..];
    ReplayStep([], history);
  }

  /** Replaying a non-empty history reduces its first dispatch, then replays the rest. */
  lemma ReplayStep(state: seq<Todo>, history: seq<Dispatch>)
    requires history != []
    ensures Replay(state, history) == Replay(Reduce(state, history[0].action, history[0].now), history[1..])
  {
  }
}
