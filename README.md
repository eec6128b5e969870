# fastapi-todo in Dafny

A model of the in-memory todo service of `main.py`: a global, ordered list
of todos and the handlers that look up, list, create, update and delete
them. Each todo has a store-assigned integer id, a name, a description and
a priority (HIGH = 1, MEDIUM = 2, LOW = 3, LOW by default).

The model has four modules:

- `Wrappers` (`wrappers.dfy`): `Option` and `Result`.
- `TodoSchema` (`schema.dfy`): the records `Todo`, `TodoCreate` and
  `TodoUpdate`, the `Priority` enumeration and its integer encoding, and the
  validation that turns a request body into a record or a `ValidationError`.
  Names are the subset type `TodoName` (at most 512 characters). The schema
  declares a minimum length of 3, but under the misspelled keyword
  `min_lenght`, so that minimum is not enforced and the model does not
  enforce it either.
- `TodoList` (`todo_list.dfy`): the list as a value. It holds the
  specification functions the handlers are proved against: first match by id
  (`FindFirst`), largest id (`MaxId`), the todo a creation appends
  (`NewTodo`), the field-by-field patch (`Patch`), the update of the list
  (`Update`), removal at an index (`RemoveAt`) and the Python slice `s[:n]`
  (`SliceTo`). It also holds the seed list and the lemmas about id
  uniqueness, idempotence and lookups after each change.
- `TodoStore` (`store.dfy`): the class `Store`, whose field `todos` is the
  global list. `CreateTodo`, `UpdateTodo` and `DeleteTodo` change it in
  place. `UpdateTodo` and `DeleteTodo` scan it with the source's loops;
  `CreateTodo` appends after computing the largest id with `MaxId`, which
  stands for the source's `max` over a generator. `GetTodo` is the
  read-only scan. `GetTodos` and
  `GetTopN` are the listing expressions. The store never fails except with
  `NotFound`, which stands for the 404 response. `Valid()` (unique ids) holds
  for the seed store, and every mutating handler keeps it.

Behaviour kept as written:

- `first_n == 0` is falsy, so it lists everything.
- A negative `first_n` drops that many todos from the end, as a Python slice does.
- Creating a todo in an empty store is outside `CreateTodo`'s precondition.
  In the source, `max` of no ids raises there, so the request fails with a
  server error.

## Model

| member | source | states |
|---|---|---|
| TodoSchema.Priority.Value | main.py:44-47 | the integer of every priority is 1, 2 or 3 (HIGH = 1, MEDIUM = 2, LOW = 3) |
| TodoSchema.PriorityFromInt | main.py:44-47 | an integer decodes to a priority exactly when it is 1, 2 or 3, and then to the priority with that value |
| TodoSchema.PriorityRoundTrip | main.py:44-47 | decoding the value of any priority gives that priority back |
| TodoSchema.PriorityValueInjective | main.py:44-47 | two priorities with the same integer value are the same priority |
| TodoSchema.ValidateCreate | main.py:49-66 | a creation body is accepted iff name and description are present, the name has at most 512 characters and a given priority is 1, 2 or 3; the record then carries those fields, and the priority is LOW when none was given |
| TodoSchema.ValidateUpdate | main.py:76-89 | an update body is accepted iff a given name has at most 512 characters and a given priority is 1, 2 or 3; the patch holds exactly the fields that were given, with their values |
| TodoSchema.ShortNamesAccepted | main.py:50-54 | because the minimum is spelled `min_lenght`, names shorter than 3 characters (the empty one too) pass both validations |
| TodoSchema.LongNamesRejected | main.py:50-54 | a name over 512 characters is rejected on create (once a description is present) and on update |
| TodoList.FindFirst | main.py:141-143 | the result is the index of the first todo with the id, or None exactly when no todo has it |
| TodoList.FindFirstUnique | main.py:140-145 | with unique ids, looking up the id of the todo at index i finds index i |
| TodoList.MaxId | main.py:165 | in a non-empty list the result is the id of some todo and no todo has a larger id |
| TodoList.NewTodo | main.py:165-171 | the created todo's id is one more than the id of some existing todo and strictly greater than every id present, so it is the largest id plus one; its name, description and priority are the request's |
| TodoList.Create | main.py:173 | the list after a creation is one longer, starts with the old list unchanged and ends with the new todo |
| TodoList.CreateKeepsIdsUnique | main.py:165-173 | appending the new todo keeps ids unique, and the lookup of the new id finds the appended todo at the end |
| TodoList.Patch | main.py:182-187 | a patched todo keeps its id; each field the patch supplies is overwritten with the patch's value and each absent field is kept |
| TodoList.PatchIdempotent | main.py:182-187 | applying a patch twice gives the same todo as applying it once |
| TodoList.EmptyPatchIsIdentity | main.py:182-187 | a patch with no fields changes nothing |
| TodoList.Update | main.py:180-190 | the list after an update keeps its length, order and every id, changes no todo but the first match, and turns the first match into its patched form; with no match it is the old list |
| TodoList.UpdateKeepsLookup | main.py:180-188 | after an update, looking up any id finds the same index as before |
| TodoList.UpdateKeepsIdsUnique | main.py:180-188 | an update keeps ids unique |
| TodoList.UpdateIdempotent | main.py:180-190 | applying the same update twice leaves the same list as applying it once, whether or not the id is present |
| TodoList.RemoveAt | main.py:197 | removing index i drops the length by one, keeps the todos before i and shifts the ones after it down by one, and removes exactly that todo from the multiset of todos |
| TodoList.RemoveKeepsIdsUnique | main.py:195-198 | with unique ids, removing a todo keeps ids unique, and a later lookup of its id finds nothing |
| TodoList.SliceTo | main.py:158 | `s[:stop]` is a prefix of `s`; a non-negative stop keeps min(stop, len) todos, and a negative stop keeps len + stop todos, clamped at 0 |
| TodoList.Seed | main.py:96-127 | the seed list has five todos, with ids 1 to 5 in order |
| TodoList.SeedFacts | main.py:96-127 | the seed ids are unique and the largest is 5 |
| TodoList.SeedCreateScenario | main.py:163-175 | on the seed list, a body with only name and description creates todo 6 with priority LOW |
| TodoStore.Store.constructor | main.py:96-127 | the store starts as the seed list, with unique ids |
| TodoStore.Store.GetTodos | main.py:148-150 | the listing is the stored list itself: every todo, in storage order |
| TodoStore.Store.GetTodo | main.py:139-145 | returns the first todo whose id matches, or NotFound when none does; it changes nothing |
| TodoStore.Store.GetTopN | main.py:148-160 | the result is a prefix of the full listing; `first_n == 0` gives the whole list; a positive `first_n` gives min(first_n, len) todos; a negative one gives len + first_n todos, clamped at 0 |
| TodoStore.SeedTopTwo | main.py:155-160 | on the seed store, `first_n = 2` lists exactly the first two todos in store order |
| TodoStore.Store.CreateTodo | main.py:163-175 | on a non-empty store, the new list is `Create` of the old one: appends exactly one todo at the end and returns it. Its id exceeds every existing id and its fields are the request's; earlier todos are unchanged and unique ids stay unique |
| TodoStore.Store.UpdateTodo | main.py:178-190 | patches the first todo with the id and returns the patched todo; all else is unchanged. Returns NotFound and changes nothing when no todo has the id; keeps unique ids |
| TodoStore.Store.DeleteTodo | main.py:193-200 | removes the first todo with the id and returns it; the rest keep their order. Returns NotFound and changes nothing when the id is absent. With unique ids, ids stay unique and the id is gone afterwards |
| TodoStore.RepeatedUpdateScenario | main.py:178-190 | sending the same update twice leaves the store as one update does, and the second call returns the same result as the first |
| TodoStore.RepeatedDeleteScenario | main.py:193-200 | on a store with unique ids, sending the same delete twice removes the todo once, as a single delete does, and the second call returns NotFound |

## Left out

- HTTP routing, decorators, `response_model`, JSON encoding and status codes are not modelled. `NotFound` stands for the 404 response and `ValidationError` for the 422 response.
- The `/todos` route of `get_top_n` is shadowed by the identical route of `get_todos`. That is a routing matter; `GetTopN` is modelled as an operation of its own.
- Pydantic internals are not modelled: type coercion, explicit `null` versus an absent field on create, extra fields and the shape of error details. `ValidateCreate` and `ValidateUpdate` report only the first violated rule, while pydantic lists all of them.
- `index()` and the explanatory string carry no logic and are not modelled.
- Concurrency is not modelled: handlers run one at a time, although the source's global list has no lock.
- Aliasing is not modelled. In the source, `get_todo`, `get_todos` and `update_todo` hand out references to the stored objects. The model works with todo values; responses are serialised, so no client can observe the difference.
- `TodoStore.Store.CreateTodo`: its precondition excludes the empty store, where the source's `max` raises and the request fails with a server error; that failure path is not modelled.
