/**
 * The Python example's to-do service: a list of to-dos in insertion order,
 * ids handed out from a counter starting at 1, completion by id, filtered
 * listings, removal of completed to-dos and a reset.
 */
module TodoService {
  import opened Text

  /** Python's `str.isspace` characters, which `str.strip()` removes. */
  predicate IsPyWhitespace(c: char) {
    ('\t' <= c <= '\r') || ('\U{1C}' <= c <= ' ') || c == '\U{85}' || c == '\U{A0}' || c == '\U{1680}'
    || ('\U{2000}' <= c <= '\U{200A}') || c == '\U{2028}' || c == '\U{2029}' || c == '\U{202F}'
    || c == '\U{205F}' || c == '\U{3000}'
  }

  function StripStart(s: string): (r: string)
    ensures |r| <= |s| && r == s[|s| - |r|..]
    ensures r == [] || !IsPyWhitespace(r[0])
    ensures forall i :: 0 <= i < |s| - |r| ==> IsPyWhitespace(s[i])
  {
    if |s| > 0 && IsPyWhitespace(s[0]) then
      var t := StripStart(s[1..]);
      assert s[1..][|s| - 1 - |t|..] == s[|s| - |t|..];
      t
    else s
  }

  function StripEnd(s: string): (r: string)
    ensures |r| <= |s| && r == s[..|r|]
    ensures r == [] || !IsPyWhitespace(r[|r| - 1])
    ensures forall i :: |r| <= i < |s| ==> IsPyWhitespace(s[i])
  {
    if |s| > 0 && IsPyWhitespace(s[|s| - 1]) then
      var t := StripEnd(s[..|s| - 1]);
      assert s[..|s| - 1][..|t|] == s[..|t|];
      t
    else s
  }

  /** `str.strip()`: whitespace removed from both ends; empty exactly when the text is blank. */
  function Strip(s: string): (r: string)
    ensures |r| <= |s|
    ensures r == [] || (!IsPyWhitespace(r[0]) && !IsPyWhitespace(r[|r| - 1]))
    ensures r == [] <==> forall i :: 0 <= i < |s| ==> IsPyWhitespace(s[i])
  {
    var t := StripStart(s);
    var u := StripEnd(t);
    if u == [] then
      u
    else
      assert t[0] == u[0];
      assert !IsPyWhitespace(s[|s| - |t|]);
      u
  }

  /** Stripping twice is stripping once. */
  lemma StripIdempotent(s: string)
    ensures Strip(Strip(s)) == Strip(s)
  {
    var r := Strip(s);
    if r != [] {
      assert StripStart(r) == r;
      assert StripEnd(r) == r;
    }
  }

  datatype Todo = Todo(id: int, title: string, completed: bool)

  datatype TodoError = TitleRequired | NotFound

  /** The first to-do carrying `id`, if any. */
  function FirstWithId(todos: seq<Todo>, id: int): (r: Option<nat>)
    ensures r.Some? ==> r.value < |todos| && todos[r.value].id == id
                        && forall j :: 0 <= j < r.value ==> todos[j].id != id
    ensures r.None? <==> forall j :: 0 <= j < |todos| ==> todos[j].id != id
  {
    if todos == [] then None
    else if todos[0].id == id then Some(0)
    else
      var rest := FirstWithId(todos[1..], id);
      if rest.Some? then Some(rest.value + 1) else None
  }

  /** The to-dos whose completion flag is `completed`, in their order. */
  function Filter(todos: seq<Todo>, completed: bool): (r: seq<Todo>)
    ensures |r| <= |todos|
  {
    if todos == [] then []
    else (if todos[0].completed == completed then [todos[0]] else []) + Filter(todos[1..], completed)
  }

  /** The filtered list holds every to-do with the flag and nothing else. */
  lemma {:induction false} FilterMeans(todos: seq<Todo>, completed: bool)
    ensures forall t :: t in Filter(todos, completed) <==> t in todos && t.completed == completed
  {
    if todos != [] {
      var tail := todos[1..];
      FilterMeans(tail, completed);
      var head := if todos[0].completed == completed then [todos[0]] else [];
      assert Filter(todos, completed) == head + Filter(tail, completed);
      assert forall t :: t in todos <==> t == todos[0] || t in tail;
    }
  }

  /** The completed and the active to-dos split the list: together they hold every to-do, each once. */
  lemma {:induction false} FilterPartition(todos: seq<Todo>)
    ensures |Filter(todos, true)| + |Filter(todos, false)| == |todos|
    ensures multiset(Filter(todos, true)) + multiset(Filter(todos, false)) == multiset(todos)
  {
    if todos != [] {
      FilterPartition(todos[1..]);
      assert todos == [todos[0]] + todos[1..];
    }
  }

  /** The list after `complete(id)`: the first to-do with that id marked completed, every other to-do as it was. */
  function MarkCompleted(todos: seq<Todo>, id: int): (r: seq<Todo>)
    ensures |r| == |todos|
    ensures forall i :: 0 <= i < |r| ==> r[i].id == todos[i].id && r[i].title == todos[i].title
    ensures FirstWithId(todos, id).Some? ==> r[FirstWithId(todos, id).value].completed
    ensures forall i :: 0 <= i < |r| && (FirstWithId(todos, id).None? || i != FirstWithId(todos, id).value) ==> r[i] == todos[i]
  {
    var found := FirstWithId(todos, id);
    if found.None? then todos else todos[found.value := todos[found.value].(completed := true)]
  }

  /** Completing the same id twice is completing it once. */
  lemma MarkCompletedIdempotent(todos: seq<Todo>, id: int)
    ensures MarkCompleted(MarkCompleted(todos, id), id) == MarkCompleted(todos, id)
  {
    var once := MarkCompleted(todos, id);
    var found := FirstWithId(todos, id);
    if found.Some? {
      assert FirstWithId(once, id) == found by {
        var again := FirstWithId(once, id);
        assert again.Some?;
        assert again.value == found.value;
      }
    } else {
      assert once == todos;
    }
  }

  /** Ids increase along the list and are all below the next id to hand out. */
  ghost predicate IdsIncreasing(todos: seq<Todo>, nextId: int) {
    (forall i, j :: 0 <= i < j < |todos| ==> todos[i].id < todos[j].id)
    && (forall i :: 0 <= i < |todos| ==> todos[i].id < nextId)
  }

  /** Removing to-dos keeps the ids increasing. */
  lemma {:induction false} FilterKeepsIds(todos: seq<Todo>, nextId: int, completed: bool)
    requires IdsIncreasing(todos, nextId)
    ensures IdsIncreasing(Filter(todos, completed), nextId)
  {
    if todos != [] {
      var tail := todos[1..];
      IdsIncreasingTail(todos, nextId);
      FilterKeepsIds(tail, nextId, completed);
      var rest := Filter(tail, completed);
      if todos[0].completed == completed {
        FilterMeans(tail, completed);
        forall j | 0 <= j < |rest| ensures todos[0].id < rest[j].id {
          assert rest[j] in tail;
          var k :| 0 <= k < |tail| && tail[k] == rest[j];
          assert todos[k + 1] == rest[j];
        }
        PrependKeepsIds(todos[0], rest, nextId);
        assert Filter(todos, completed) == [todos[0]] + rest;
      } else {
        assert Filter(todos, completed) == rest;
      }
    }
  }

  lemma IdsIncreasingTail(todos: seq<Todo>, nextId: int)
    requires todos != [] && IdsIncreasing(todos, nextId)
    ensures IdsIncreasing(todos[1..], nextId)
  {
    var tail := todos[1..];
    forall i, j | 0 <= i < j < |tail| ensures tail[i].id < tail[j].id {
      assert tail[i] == todos[i + 1] && tail[j] == todos[j + 1];
    }
  }

  lemma PrependKeepsIds(t: Todo, rest: seq<Todo>, nextId: int)
    requires IdsIncreasing(rest, nextId) && t.id < nextId
    requires forall j :: 0 <= j < |rest| ==> t.id < rest[j].id
    ensures IdsIncreasing([t] + rest, nextId)
  {
    var r := [t] + rest;
    forall i, j | 0 <= i < j < |r| ensures r[i].id < r[j].id {
      assert r[j] == rest[j - 1];
      if i > 0 {
        assert r[i] == rest[i - 1];
      }
    }
  }

  class Service {
    var todos: seq<Todo>
    var nextId: int

    ghost predicate Valid()
      reads this
    {
      nextId >= 1 && IdsIncreasing(todos, nextId)
    }

    constructor ()
      ensures Valid()
      ensures todos == [] && nextId == 1
    {
      todos := [];
      nextId := 1;
    }

    /** Ids are unique, so the to-do an id finds is the only one with it. */
    lemma IdsUnique()
      requires Valid()
      ensures forall i, j :: 0 <= i < |todos| && 0 <= j < |todos| && todos[i].id == todos[j].id ==> i == j
    {
    }

    /**
     * `add`: a blank title is refused and nothing changes; otherwise a
     * to-do with the next id and the stripped title is appended, not completed.
     */
    method Add(title: string) returns (r: Result<Todo, TodoError>)
      requires Valid()
      modifies this
      ensures Valid()
      ensures Strip(title) == [] ==> r == Err(TitleRequired) && todos == old(todos) && nextId == old(nextId)
      ensures Strip(title) != [] ==> r == Ok(Todo(old(nextId), Strip(title), false))
                                     && todos == old(todos) + [r.value] && nextId == old(nextId) + 1
    {
      if title == [] || Strip(title) == [] {
        return Err(TitleRequired);
      }
      var todo := Todo(nextId, Strip(title), false);
      nextId := nextId + 1;
      todos := todos + [todo];
      r := Ok(todo);
    }

    /** `_find`: the scan for the first to-do with the id. */
    method Find(id: int) returns (r: Option<nat>)
      ensures r == FirstWithId(todos, id)
    {
      var i := 0;
      while i < |todos|
        invariant i <= |todos|
        invariant forall j :: 0 <= j < i ==> todos[j].id != id
      {
        if todos[i].id == id {
          return Some(i);
        }
        i := i + 1;
      }
      return None;
    }

    /** `complete`: the to-do with the id is marked completed and returned; an unknown id fails and changes nothing. */
    method Complete(id: int) returns (r: Result<Todo, TodoError>)
      requires Valid()
      modifies this
      ensures Valid() && nextId == old(nextId)
      ensures todos == MarkCompleted(old(todos), id)
      ensures FirstWithId(old(todos), id).None? <==> r == Err(NotFound)
      ensures r.Ok? ==> r.value.id == id && r.value.completed && r.value in todos
    {
      var found := Find(id);
      if found.None? {
        return Err(NotFound);
      }
      var i := found.value;
      todos := todos[i := todos[i].(completed := true)];
      r := Ok(todos[i]);
    }

    /** `list`: "completed" and "active" filter on the flag; any other status lists every to-do. */
    function List(status: string): (r: seq<Todo>)
      reads this
      ensures status == "completed" ==> r == Filter(todos, true)
      ensures status == "active" ==> r == Filter(todos, false)
      ensures status != "completed" && status != "active" ==> r == todos
    {
      if status == "completed" then Filter(todos, true)
      else if status == "active" then Filter(todos, false)
      else todos
    }

    /** `clear_completed`: the completed to-dos are dropped; the count dropped is returned. */
    method ClearCompleted() returns (removed: int)
      requires Valid()
      modifies this
      ensures Valid() && nextId == old(nextId)
      ensures todos == Filter(old(todos), false)
      ensures removed == |Filter(old(todos), true)|
    {
      var before := |todos|;
      FilterPartition(todos);
      FilterKeepsIds(todos, nextId, false);
      todos := Filter(todos, false);
      removed := before - |todos|;
    }

    method Reset()
      modifies this
      ensures Valid()
      ensures todos == [] && nextId == 1
    {
      todos := [];
      nextId := 1;
    }
  }

  /** The completed and the active listings together hold every to-do. */
  lemma ListingsPartition(s: Service)
    ensures |s.List("completed")| + |s.List("active")| == |s.List("all")|
    ensures multiset(s.List("completed")) + multiset(s.List("active")) == multiset(s.List("all"))
  {
    FilterPartition(s.todos);
  }

  /** A fresh service numbers its to-dos 1, 2, 3 and strips their titles. */
  method FirstIds(a: string, b: string, c: string) returns (ids: seq<int>)
    requires Strip(a) != [] && Strip(b) != [] && Strip(c) != []
    ensures ids == [1, 2, 3]
  {
    var service := new Service();
    var x := service.Add(a);
    var y := service.Add(b);
    var z := service.Add(c);
    ids := [x.value.id, y.value.id, z.value.id];
  }
}
