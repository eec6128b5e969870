/**
 * The record schema of the todo service: the priority enumeration, the todo
 * records and the validation that turns a request body into them.
 */
module TodoSchema {
  import opened Wrappers

  /** Urgency of a todo; the service encodes HIGH as 1, MEDIUM as 2 and LOW as 3. */
  datatype Priority = High | Medium | Low {
    /** The integer a client sends and receives for this priority. */
    function Value(): (v: int)
      ensures 1 <= v <= 3
    {
      match this
      case High => 1
      case Medium => 2
      case Low => 3
    }
  }

  /** The priority a new todo gets when its request leaves the field out. */
  const DefaultPriority: Priority := Low

  /** The only length rule the name field enforces: at most 512 characters. */
  const MaxNameLength: nat := 512

  /**
   * A todo name. The declared minimum length of 3 is spelled `min_lenght`
   * in the schema, so it is not a constraint: any name of at most
   * MaxNameLength characters, the empty one included, is accepted.
   */
  type TodoName = s: string | |s| <= MaxNameLength

  /** A stored todo: its store-assigned id and the three user-supplied fields. */
  datatype Todo = Todo(todoId: int, name: TodoName, description: string, priority: Priority)

  /** A validated creation request: a todo without its id. */
  datatype TodoCreate = TodoCreate(name: TodoName, description: string, priority: Priority)

  /** A validated partial update: a present field overwrites, an absent one keeps. */
  datatype TodoUpdate = TodoUpdate(name: Option<TodoName>, description: Option<string>, priority: Option<Priority>)

  /** The fields of a creation request body as sent; None stands for an absent field. */
  datatype CreateRequest = CreateRequest(name: Option<string>, description: Option<string>, priority: Option<int>)

  /** The fields of an update request body as sent; None stands for an absent or null field. */
  datatype UpdateRequest = UpdateRequest(name: Option<string>, description: Option<string>, priority: Option<int>)

  /** Why a request body was refused. */
  datatype ValidationError = MissingName | MissingDescription | NameTooLong | InvalidPriority

  /** Decodes the integer of the wire format into a priority. */
  function PriorityFromInt(n: int): (r: Option<Priority>)
    ensures r.Some? <==> 1 <= n <= 3
    ensures r.Some? ==> r.value.Value() == n
  {
    if n == 1 then Some(High)
    else if n == 2 then Some(Medium)
    else if n == 3 then Some(Low)
    else None
  }

  /** Decoding the encoding of a priority gives that priority back. */
  lemma PriorityRoundTrip(p: Priority)
    ensures PriorityFromInt(p.Value()) == Some(p)
  {
    match p
    case High =>
    case Medium =>
    case Low =>
  }

  /** The encoding is one-to-one: distinct priorities have distinct integers. */
  lemma PriorityValueInjective(p: Priority, q: Priority)
    requires p.Value() == q.Value()
    ensures p == q
  {
    PriorityRoundTrip(p);
    PriorityRoundTrip(q);
  }

  /** True when an optional priority field holds an integer that decodes. */
  predicate PriorityFieldOk(f: Option<int>)
  {
    f.None? || PriorityFromInt(f.value).Some?
  }

  /**
   * Validates a creation body: name and description are required, the name
   * is at most MaxNameLength long, and a priority, when given, is 1, 2 or 3;
   * a missing priority becomes LOW.
   */
  function ValidateCreate(req: CreateRequest): (r: Result<TodoCreate, ValidationError>)
    ensures r.Ok? <==>
      req.name.Some? && req.description.Some? &&
      |req.name.value| <= MaxNameLength && PriorityFieldOk(req.priority)
    ensures r.Ok? ==>
      r.value.name == req.name.value && r.value.description == req.description.value &&
      (req.priority.None? ==> r.value.priority == DefaultPriority) &&
      (req.priority.Some? ==> r.value.priority.Value() == req.priority.value)
  {
    if req.name.None? then Err(MissingName)
    else if req.description.None? then Err(MissingDescription)
    else if |req.name.value| > MaxNameLength then Err(NameTooLong)
    else
      match req.priority
      case None => Ok(TodoCreate(req.name.value, req.description.value, DefaultPriority))
      case Some(n) =>
        match PriorityFromInt(n)
        case None => Err(InvalidPriority)
        case Some(p) => Ok(TodoCreate(req.name.value, req.description.value, p))
  }

  /**
   * Validates an update body: every field is optional; a name that is given
   * must be at most MaxNameLength long and a priority that is given must
   * decode. Absent fields stay absent in the patch.
   */
  function ValidateUpdate(req: UpdateRequest): (r: Result<TodoUpdate, ValidationError>)
    ensures r.Ok? <==>
      (req.name.Some? ==> |req.name.value| <= MaxNameLength) && PriorityFieldOk(req.priority)
    ensures r.Ok? ==>
      (r.value.name.Some? <==> req.name.Some?) &&
      (req.name.Some? ==> r.value.name.value == req.name.value) &&
      r.value.description == req.description &&
      (r.value.priority.Some? <==> req.priority.Some?) &&
      (req.priority.Some? ==> r.value.priority.value.Value() == req.priority.value)
  {
    if req.name.Some? && |req.name.value| > MaxNameLength then Err(NameTooLong)
    else if !PriorityFieldOk(req.priority) then Err(InvalidPriority)
    else
      var name: Option<TodoName> := if req.name.Some? then Some(req.name.value) else None;
      var priority := if req.priority.Some? then PriorityFromInt(req.priority.value) else None;
      Ok(TodoUpdate(name, req.description, priority))
  }

  /**
   * The misspelled minimum is not enforced: names shorter than three
   * characters, even the empty name, pass both validations.
   */
  lemma ShortNamesAccepted(name: string, description: string)
    requires |name| < 3
    ensures ValidateCreate(CreateRequest(Some(name), Some(description), None)).Ok?
    ensures ValidateUpdate(UpdateRequest(Some(name), None, None)).Ok?
  {
  }

  /** A name longer than MaxNameLength is refused on create and on update. */
  lemma LongNamesRejected(name: string, description: Option<string>, priority: Option<int>)
    requires |name| > MaxNameLength
    ensures ValidateCreate(CreateRequest(Some(name), description, priority)) ==
      (if description.None? then Err(MissingDescription) else Err(NameTooLong))
    ensures ValidateUpdate(UpdateRequest(Some(name), description, priority)) == Err(NameTooLong)
  {
  }
}
