/**
 * The service's global todo list and its request handlers. The list is a
 * field that the create, update and delete handlers change in place; the
 * lookup and listing handlers only read it.
 */
module TodoStore {
  import opened Wrappers
  import opened TodoSchema
  import opened TodoList

  /** The one error a store operation reports: no todo has the requested id. */
  datatype StoreError = NotFound

  class Store {
    /** The todos in storage order. */
    var todos: seq<Todo>

    /** The invariant every handler keeps: ids are unique. */
    ghost predicate Valid()
      reads this
    {
      UniqueIds(todos)
    }

    /** The store as the service starts: the five seed todos. */
    constructor ()
      ensures todos == Seed()
      ensures Valid()
    {
      todos := Seed();
      SeedFacts();
    }

    /**
     * Looks a todo up by id: the first todo with that id, or NotFound.
     * Reads the store and changes nothing.
     */
    method GetTodo(id: int) returns (r: Result<Todo, StoreError>)
      ensures FindFirst(todos, id).None? ==> r == Err(NotFound)
      ensures FindFirst(todos, id).Some? ==> r == Ok(todos[FindFirst(todos, id).value])
    {
      var i := 0;
      while i < |todos|
        invariant 0 <= i <= |todos|
        invariant forall j :: 0 <= j < i ==> todos[j].todoId != id
      {
        if todos[i].todoId == id {
          return Ok(todos[i]);
        }
        i := i + 1;
      }
      return Err(NotFound);
    }

    /** Lists every todo in storage order. */
    function GetTodos(): (r: seq<Todo>)
      reads this
      ensures r == todos
    {
      todos
    }

    /**
     * The first `firstN` todos, with `firstN` read as a Python slice bound;
     * a `firstN` of 0 is falsy and lists every todo.
     */
    function GetTopN(firstN: int): (r: seq<Todo>)
      reads this
      ensures r <= GetTodos()
      ensures firstN == 0 ==> r == GetTodos()
      ensures firstN > 0 ==> |r| == if firstN <= |todos| then firstN else |todos|
      ensures firstN < 0 ==> |r| == if -firstN <= |todos| then |todos| + firstN else 0
    {
      if firstN != 0 then SliceTo(todos, firstN) else todos
    }

    /**
     * Creates a todo: its id is one above the largest id present, and it is
     * appended after every existing todo. The store must not be empty, since
     * the largest id of no todos is undefined.
     */
    method CreateTodo(c: TodoCreate) returns (t: Todo)
      requires |todos| > 0
      modifies this
      ensures todos == Create(old(todos), c)
      ensures t == NewTodo(old(todos), c)
      ensures todos == old(todos) + [t]
      ensures forall j :: 0 <= j < |old(todos)| ==> old(todos)[j].todoId < t.todoId
      ensures t.name == c.name && t.description == c.description && t.priority == c.priority
      ensures old(Valid()) ==> Valid()
    {
      var newId := MaxId(todos) + 1;
      t := Todo(newId, c.name, c.description, c.priority);
      if UniqueIds(todos) {
        CreateKeepsIdsUnique(todos, c);
      }
      todos := todos + [t];
    }

    /**
     * Updates the first todo with the given id, overwriting only the fields
     * the patch supplies, and returns it; NotFound and no change otherwise.
     */
    method UpdateTodo(id: int, u: TodoUpdate) returns (r: Result<Todo, StoreError>)
      modifies this
      ensures todos == Update(old(todos), id, u)
      ensures FindFirst(old(todos), id).None? ==> r == Err(NotFound)
      ensures FindFirst(old(todos), id).Some? ==>
        r == Ok(Patch(old(todos)[FindFirst(old(todos), id).value], u))
      ensures old(Valid()) ==> Valid()
    {
      ghost var before := todos;
      var i := 0;
      while i < |todos|
        invariant 0 <= i <= |todos|
        invariant todos == before
        invariant forall j :: 0 <= j < i ==> todos[j].todoId != id
      {
        var todo := todos[i];
        if todo.todoId == id {
          if u.name.Some? {
            todo := todo.(name := u.name.value);
          }
          if u.description.Some? {
            todo := todo.(description := u.description.value);
          }
          if u.priority.Some? {
            todo := todo.(priority := u.priority.value);
          }
          if UniqueIds(todos) {
            UpdateKeepsIdsUnique(todos, id, u);
          }
          todos := todos[i := todo];
          return Ok(todo);
        }
        i := i + 1;
      }
      return Err(NotFound);
    }

    /**
     * Deletes the first todo with the given id and returns it; the others
     * keep their order. NotFound and no change when no todo has the id.
     */
    method DeleteTodo(id: int) returns (r: Result<Todo, StoreError>)
      modifies this
      ensures FindFirst(old(todos), id).None? ==> r == Err(NotFound) && todos == old(todos)
      ensures FindFirst(old(todos), id).Some? ==>
        var i := FindFirst(old(todos), id).value;
        r == Ok(old(todos)[i]) && todos == RemoveAt(old(todos), i)
      ensures old(Valid()) ==> Valid()
      ensures old(Valid()) ==> FindFirst(todos, id).None?
    {
      ghost var before := todos;
      var index := 0;
      while index < |todos|
        invariant 0 <= index <= |todos|
        invariant todos == before
        invariant forall j :: 0 <= j < index ==> todos[j].todoId != id
      {
        if todos[index].todoId == id {
          var deleted := todos[index];
          if UniqueIds(todos) {
            RemoveKeepsIdsUnique(todos, index);
          }
          todos := RemoveAt(todos, index);
          return Ok(deleted);
        }
        index := index + 1;
      }
      return Err(NotFound);
    }
  }

  /** On the seed store, `first_n=2` lists exactly the first two todos in order. */
  lemma SeedTopTwo(st: Store)
    requires st.todos == Seed()
    ensures st.GetTopN(2) == [Seed()[0], Seed()[1]]
  {
  }

  /**
   * The same update sent twice: the second call leaves the store as the
   * first left it and returns the same result.
   */
  method RepeatedUpdateScenario(st: Store, id: int, u: TodoUpdate)
    returns (first: Result<Todo, StoreError>, second: Result<Todo, StoreError>)
    modifies st
    ensures st.todos == Update(old(st.todos), id, u)
    ensures second == first
  {
    ghost var before := st.todos;
    first := st.UpdateTodo(id, u);
    second := st.UpdateTodo(id, u);
    UpdateIdempotent(before, id, u);
    UpdateKeepsLookup(before, id, u, id);
    if FindFirst(before, id).Some? {
      PatchIdempotent(before[FindFirst(before, id).value], u);
    }
  }

  /**
   * The same delete sent twice to a store with unique ids: the first call
   * removes the todo as a single delete does, and the second finds nothing
   * and changes nothing.
   */
  method RepeatedDeleteScenario(st: Store, id: int)
    returns (first: Result<Todo, StoreError>, second: Result<Todo, StoreError>)
    requires st.Valid()
    modifies st
    ensures FindFirst(old(st.todos), id).None? ==> first == Err(NotFound) && st.todos == old(st.todos)
    ensures FindFirst(old(st.todos), id).Some? ==>
      var i := FindFirst(old(st.todos), id).value;
      first == Ok(old(st.todos)[i]) && st.todos == RemoveAt(old(st.todos), i)
    ensures second == Err(NotFound)
  {
    first := st.DeleteTodo(id);
    second := st.DeleteTodo(id);
  }

  /**
   * A client run on a fresh store: creating a todo gives id 6, it can then
   * be looked up, deleting it succeeds, and a second delete is NotFound.
   */
  method CreateGetDeleteScenario(name: TodoName, description: string)
  {
    var st := new Store();
    var c := TodoCreate(name, description, DefaultPriority);
    SeedFacts();
    CreateKeepsIdsUnique(Seed(), c);
    var t := st.CreateTodo(c);
    assert t.todoId == 6 && t.priority == Low;
    var g := st.GetTodo(6);
    assert g == Ok(t);
    var d1 := st.DeleteTodo(6);
    assert d1 == Ok(t);
    var d2 := st.DeleteTodo(6);
    assert d2 == Err(NotFound);
    var g2 := st.GetTodo(6);
    assert g2 == Err(NotFound);
  }
}
