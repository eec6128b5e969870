/**
 * The todo list as a value: the ordered sequence of todos the service keeps,
 * the lookups and edits its handlers perform on it, and what they preserve.
 */
module TodoList {
  import opened Wrappers
  import opened TodoSchema

  /** No two todos in the list share an id. */
  ghost predicate UniqueIds(s: seq<Todo>)
  {
    forall i, j :: 0 <= i < j < |s| ==> s[i].todoId != s[j].todoId
  }

  /** The index of the first todo with the given id, scanning from the front. */
  function FindFirst(s: seq<Todo>, id: int): (r: Option<nat>)
    ensures r.Some? ==> r.value < |s| && s[r.value].todoId == id
    ensures r.Some? ==> forall j :: 0 <= j < r.value ==> s[j].todoId != id
    ensures r.None? <==> forall j :: 0 <= j < |s| ==> s[j].todoId != id
  {
    if |s| == 0 then None
    else if s[0].todoId == id then Some(0)
    else
      match FindFirst(s[1..], id)
      case None => None
      case Some(k) => Some(k + 1)
  }

  /** In a list with unique ids, the todo at index i is the one found for its id. */
  lemma FindFirstUnique(s: seq<Todo>, i: nat)
    requires UniqueIds(s) && i < |s|
    ensures FindFirst(s, s[i].todoId) == Some(i)
  {
  }

  /** The largest id in a non-empty list. */
  function MaxId(s: seq<Todo>): (m: int)
    requires |s| > 0
    ensures exists i :: 0 <= i < |s| && s[i].todoId == m
    ensures forall i :: 0 <= i < |s| ==> s[i].todoId <= m
  {
    if |s| == 1 then s[0].todoId
    else
      var rest := MaxId(s[1..]);
      assert forall i :: 1 <= i < |s| ==> s[i] == s[1..][i - 1];
      if s[0].todoId >= rest then s[0].todoId else rest
  }

  /** The todo a creation appends: id one above the largest, fields from the request. */
  function NewTodo(s: seq<Todo>, c: TodoCreate): (t: Todo)
    requires |s| > 0
    ensures forall i :: 0 <= i < |s| ==> s[i].todoId < t.todoId
    ensures exists i :: 0 <= i < |s| && t.todoId == s[i].todoId + 1
    ensures t.name == c.name && t.description == c.description && t.priority == c.priority
  {
    Todo(MaxId(s) + 1, c.name, c.description, c.priority)
  }

  /** The list after a creation: the new todo appended at the end. */
  function Create(s: seq<Todo>, c: TodoCreate): (r: seq<Todo>)
    requires |s| > 0
    ensures |r| == |s| + 1
    ensures r[..|s|] == s
    ensures r[|s|] == NewTodo(s, c)
  {
    s + [NewTodo(s, c)]
  }

  /** Creation keeps ids unique, and the new todo is found under its new id. */
  lemma CreateKeepsIdsUnique(s: seq<Todo>, c: TodoCreate)
    requires |s| > 0 && UniqueIds(s)
    ensures UniqueIds(Create(s, c))
    ensures FindFirst(Create(s, c), NewTodo(s, c).todoId) == Some(|s|)
  {
    var s' := Create(s, c);
    forall i, j | 0 <= i < j < |s'| ensures s'[i].todoId != s'[j].todoId {
      if j == |s| {
        assert s'[i] == s[i];
      } else {
        assert s'[i] == s[i] && s'[j] == s[j];
      }
    }
    var id := NewTodo(s, c).todoId;
    forall j | 0 <= j < |s| ensures s'[j].todoId != id {
      assert s'[j] == s[j];
    }
    assert s'[|s|].todoId == id;
  }

  /** Applies a patch: each field the patch supplies overwrites, the others and the id stay. */
  function Patch(t: Todo, u: TodoUpdate): (r: Todo)
    ensures r.todoId == t.todoId
    ensures u.name.Some? ==> r.name == u.name.value
    ensures u.name.None? ==> r.name == t.name
    ensures u.description.Some? ==> r.description == u.description.value
    ensures u.description.None? ==> r.description == t.description
    ensures u.priority.Some? ==> r.priority == u.priority.value
    ensures u.priority.None? ==> r.priority == t.priority
  {
    var t1 := if u.name.Some? then t.(name := u.name.value) else t;
    var t2 := if u.description.Some? then t1.(description := u.description.value) else t1;
    if u.priority.Some? then t2.(priority := u.priority.value) else t2
  }

  /** Patching twice with the same patch is the same as patching once. */
  lemma PatchIdempotent(t: Todo, u: TodoUpdate)
    ensures Patch(Patch(t, u), u) == Patch(t, u)
  {
  }

  /** The empty patch changes nothing. */
  lemma EmptyPatchIsIdentity(t: Todo)
    ensures Patch(t, TodoUpdate(None, None, None)) == t
  {
  }

  /**
   * The list after an update of the todo with the given id. Only the first
   * todo with the id changes, into its patched form: the length, the order,
   * every id and every other todo stay as they were, and nothing changes
   * when no todo has the id.
   */
  function Update(s: seq<Todo>, id: int, u: TodoUpdate): (r: seq<Todo>)
    ensures |r| == |s|
    ensures FindFirst(s, id).None? ==> r == s
    ensures forall j :: 0 <= j < |s| ==> r[j].todoId == s[j].todoId
    ensures forall j :: 0 <= j < |s| && Some(j) != FindFirst(s, id) ==> r[j] == s[j]
    ensures FindFirst(s, id).Some? ==>
      r[FindFirst(s, id).value] == Patch(s[FindFirst(s, id).value], u)
  {
    match FindFirst(s, id)
    case None => s
    case Some(i) => s[i := Patch(s[i], u)]
  }

  /** After an update the same todo is still the first one with the id. */
  lemma UpdateKeepsLookup(s: seq<Todo>, id: int, u: TodoUpdate, key: int)
    ensures FindFirst(Update(s, id, u), key) == FindFirst(s, key)
  {
    var s' := Update(s, id, u);
    assert forall j :: 0 <= j < |s| ==> (s'[j].todoId == key <==> s[j].todoId == key);
    match FindFirst(s, key)
    case None =>
    case Some(k) =>
      assert s'[k].todoId == key;
  }

  /** An update keeps ids unique. */
  lemma UpdateKeepsIdsUnique(s: seq<Todo>, id: int, u: TodoUpdate)
    requires UniqueIds(s)
    ensures UniqueIds(Update(s, id, u))
  {
  }

  /** Applying the same update twice leaves the same list as applying it once. */
  lemma UpdateIdempotent(s: seq<Todo>, id: int, u: TodoUpdate)
    ensures Update(Update(s, id, u), id, u) == Update(s, id, u)
  {
    var s' := Update(s, id, u);
    UpdateKeepsLookup(s, id, u, id);
    match FindFirst(s, id)
    case None =>
    case Some(i) =>
      PatchIdempotent(s[i], u);
  }

  /** The list with the element at index i taken out, as `pop(i)` leaves it. */
  function RemoveAt(s: seq<Todo>, i: nat): (r: seq<Todo>)
    requires i < |s|
    ensures |r| == |s| - 1
    ensures forall j :: 0 <= j < i ==> r[j] == s[j]
    ensures forall j :: i <= j < |r| ==> r[j] == s[j + 1]
    ensures multiset(r) + multiset{s[i]} == multiset(s)
  {
    assert s == s[..i] + [s[i]] + s[i + 1..];
    s[..i] + s[i + 1..]
  }

  /** Removing a todo from a list with unique ids keeps them unique and loses its id. */
  lemma RemoveKeepsIdsUnique(s: seq<Todo>, i: nat)
    requires UniqueIds(s) && i < |s|
    ensures UniqueIds(RemoveAt(s, i))
    ensures FindFirst(RemoveAt(s, i), s[i].todoId).None?
  {
    var r := RemoveAt(s, i);
    forall a, b | 0 <= a < b < |r| ensures r[a].todoId != r[b].todoId {
      var a' := if a < i then a else a + 1;
      var b' := if b < i then b else b + 1;
      assert r[a] == s[a'] && r[b] == s[b'] && a' < b';
    }
    forall j | 0 <= j < |r| ensures r[j].todoId != s[i].todoId {
      var j' := if j < i then j else j + 1;
      assert r[j] == s[j'] && j' != i;
    }
  }

  /**
   * The prefix `s[:stop]` in the sense of a Python slice: a non-negative stop
   * keeps at most that many elements, a negative stop drops that many from
   * the end, clamped at the empty list.
   */
  function SliceTo(s: seq<Todo>, stop: int): (r: seq<Todo>)
    ensures r <= s
    ensures stop >= 0 ==> |r| == if stop <= |s| then stop else |s|
    ensures stop < 0 ==> |r| == if -stop <= |s| then |s| + stop else 0
  {
    if stop >= 0 then
      if stop <= |s| then s[..stop] else s
    else
      if -stop <= |s| then s[..|s| + stop] else []
  }

  /** The todos the service starts with. */
  function Seed(): (r: seq<Todo>)
    ensures |r| == 5
    ensures forall i :: 0 <= i < |r| ==> r[i].todoId == i + 1
  {
    [ Todo(1, "Workout", "Complete a 1-hour gym session focusing on strength and cardio", Medium),
      Todo(2, "Reading", "Read 10 pages of a personal development or technical book", Low),
      Todo(3, "Grocery Shopping", "Buy weekly groceries including fruits, vegetables, and essentials", High),
      Todo(4, "Exam Preparation", "Review key chapters and solve past exam papers for 2 hours", High),
      Todo(5, "Meditation", "Practice guided meditation for 20 minutes to relax and refocus", Low) ]
  }

  /** Ids 1 to 5 in order are unique, and the largest of them is 5. */
  lemma SeedFacts()
    ensures UniqueIds(Seed())
    ensures MaxId(Seed()) == 5
  {
  }

  /** Creating a todo with only name and description on the seed list gives id 6 and priority LOW. */
  lemma SeedCreateScenario(name: TodoName, description: string)
    ensures ValidateCreate(CreateRequest(Some(name), Some(description), None)).Ok?
    ensures var c := ValidateCreate(CreateRequest(Some(name), Some(description), None)).value;
      NewTodo(Seed(), c) == Todo(6, name, description, Low)
  {
    SeedFacts();
  }
}
