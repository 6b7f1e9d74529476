/** The request schemas (src/lib/validations/task.ts, attendance.ts and
    submission.ts) as partial parsers: `Some` of the validated value when the
    schema accepts, `None` when it would throw. A JSON field is a string that
    is present (`Some`) or absent (`None`). The identifier-format check
    (`cuid`) and the date-parse check are outside the model and arrive as
    predicates. */
module Validations {
  import opened Common
  import opened Store

  const TitleMin: nat := 3
  const TitleMax: nat := 200
  const DescriptionMin: nat := 10
  const DescriptionMax: nat := 5000
  const NotesMax: nat := 500
  const ReviewNotesMax: nat := 2000

  // ---------------------------------------------------------------------
  // Enumerations and their wire names

  function StatusName(s: TaskStatus): string {
    match s
    case Pending => "PENDING"
    case InProgress => "IN_PROGRESS"
    case Completed => "COMPLETED"
  }

  function ParseStatus(s: string): (r: Option<TaskStatus>)
    ensures r.Some? <==> s in {"PENDING", "IN_PROGRESS", "COMPLETED"}
    ensures r.Some? ==> StatusName(r.value) == s
  {
    if s == "PENDING" then Some(Pending)
    else if s == "IN_PROGRESS" then Some(InProgress)
    else if s == "COMPLETED" then Some(Completed)
    else None
  }

  function PriorityName(p: Priority): string {
    match p
    case Low => "LOW"
    case Medium => "MEDIUM"
    case High => "HIGH"
  }

  function ParsePriority(s: string): (r: Option<Priority>)
    ensures r.Some? <==> s in {"LOW", "MEDIUM", "HIGH"}
    ensures r.Some? ==> PriorityName(r.value) == s
  {
    if s == "LOW" then Some(Low)
    else if s == "MEDIUM" then Some(Medium)
    else if s == "HIGH" then Some(High)
    else None
  }

  function ReviewStatusName(s: ReviewStatus): string {
    match s
    case ReviewPending => "PENDING"
    case Approved => "APPROVED"
    case Rejected => "REJECTED"
    case NeedsRevision => "NEEDS_REVISION"
  }

  function ParseReviewStatus(s: string): (r: Option<ReviewStatus>)
    ensures r.Some? <==> s in {"PENDING", "APPROVED", "REJECTED", "NEEDS_REVISION"}
    ensures r.Some? ==> ReviewStatusName(r.value) == s
  {
    if s == "PENDING" then Some(ReviewPending)
    else if s == "APPROVED" then Some(Approved)
    else if s == "REJECTED" then Some(Rejected)
    else if s == "NEEDS_REVISION" then Some(NeedsRevision)
    else None
  }

  /** Every enumeration value parses back from its wire name. */
  lemma EnumNamesRoundTrip(s: TaskStatus, p: Priority, v: ReviewStatus)
    ensures ParseStatus(StatusName(s)) == Some(s)
    ensures ParsePriority(PriorityName(p)) == Some(p)
    ensures ParseReviewStatus(ReviewStatusName(v)) == Some(v)
  {
  }

  // ---------------------------------------------------------------------
  // Field checks

  /** An optional string field of bounded length. */
  predicate OptionalWithin(field: Option<string>, lo: nat, hi: nat) {
    field.None? || lo <= |field.value| <= hi
  }

  /** An optional enumeration field. */
  function OptionalEnum<E>(field: Option<string>, parse: string -> Option<E>): Option<Option<E>> {
    match field
    case None => Some(None)
    case Some(s) =>
      match parse(s)
      case None => None
      case Some(e) => Some(Some(e))
  }

  // ---------------------------------------------------------------------
  // createTaskSchema

  datatype CreateTaskInput = CreateTaskInput(
    title: Option<string>,
    description: Option<string>,
    assignedTo: Option<string>,
    priority: Option<string>,
    dueDate: Option<string>)

  datatype NewTask = NewTask(
    title: string,
    description: string,
    assignedTo: string,
    priority: Priority,
    dueDate: string)

  /** The creation object schema with the description rule as a parameter:
      a title of 3 to 200 characters, a description within the given bounds,
      an identifier for the assignee, an optional priority defaulting to
      MEDIUM, and a due date the date parser accepts. */
  function TaskSchemaWithDescription(
    input: CreateTaskInput, isCuid: string -> bool, isDate: string -> bool,
    descriptionMin: nat, descriptionMax: nat)
    : (r: Option<NewTask>)
    ensures r.Some? <==>
      && input.title.Some? && 3 <= |input.title.value| <= 200
      && input.description.Some? && descriptionMin <= |input.description.value| <= descriptionMax
      && input.assignedTo.Some? && isCuid(input.assignedTo.value)
      && (input.priority.None? || input.priority.value in {"LOW", "MEDIUM", "HIGH"})
      && input.dueDate.Some? && isDate(input.dueDate.value)
    ensures r.Some? ==>
      && r.value.title == input.title.value
      && r.value.description == input.description.value
      && r.value.assignedTo == input.assignedTo.value
      && r.value.dueDate == input.dueDate.value
    ensures r.Some? && input.priority.None? ==> r.value.priority == Medium
    ensures r.Some? && input.priority.Some? ==> PriorityName(r.value.priority) == input.priority.value
  {
    if input.title.None? || !(TitleMin <= |input.title.value| <= TitleMax) then None
    else if input.description.None? || !(descriptionMin <= |input.description.value| <= descriptionMax) then None
    else if input.assignedTo.None? || !isCuid(input.assignedTo.value) then None
    else if input.dueDate.None? || !isDate(input.dueDate.value) then None
    else
      match OptionalEnum(input.priority, ParsePriority)
      case None => None
      case Some(p) =>
        Some(NewTask(input.title.value, input.description.value, input.assignedTo.value,
                     p.GetOr(Medium), input.dueDate.value))
  }

  /** `createTaskSchema`: the description has 10 to 5000 characters. */
  function CreateTaskSchema(input: CreateTaskInput, isCuid: string -> bool, isDate: string -> bool)
    : (r: Option<NewTask>)
    ensures r.Some? <==>
      && input.title.Some? && 3 <= |input.title.value| <= 200
      && input.description.Some? && 10 <= |input.description.value| <= 5000
      && input.assignedTo.Some? && isCuid(input.assignedTo.value)
      && (input.priority.None? || input.priority.value in {"LOW", "MEDIUM", "HIGH"})
      && input.dueDate.Some? && isDate(input.dueDate.value)
    ensures r.Some? ==>
      && r.value.title == input.title.value
      && r.value.description == input.description.value
      && r.value.assignedTo == input.assignedTo.value
      && r.value.dueDate == input.dueDate.value
    ensures r.Some? && input.priority.None? ==> r.value.priority == Medium
    ensures r.Some? && input.priority.Some? ==> PriorityName(r.value.priority) == input.priority.value
  {
    TaskSchemaWithDescription(input, isCuid, isDate, DescriptionMin, DescriptionMax)
  }

  // ---------------------------------------------------------------------
  // updateTaskSchema

  datatype UpdateTaskInput = UpdateTaskInput(
    title: Option<string>,
    description: Option<string>,
    status: Option<string>,
    priority: Option<string>,
    dueDate: Option<string>)

  datatype TaskUpdate = TaskUpdate(
    title: Option<string>,
    description: Option<string>,
    status: Option<TaskStatus>,
    priority: Option<Priority>,
    dueDate: Option<string>)

  /** Every field optional with the same bounds as creation; an empty due
      date is accepted without parsing. */
  function UpdateTaskSchema(input: UpdateTaskInput, isDate: string -> bool): (r: Option<TaskUpdate>)
    ensures r.Some? <==>
      && (input.title.None? || 3 <= |input.title.value| <= 200)
      && (input.description.None? || 10 <= |input.description.value| <= 5000)
      && (input.status.None? || input.status.value in {"PENDING", "IN_PROGRESS", "COMPLETED"})
      && (input.priority.None? || input.priority.value in {"LOW", "MEDIUM", "HIGH"})
      && (input.dueDate.None? || input.dueDate.value == "" || isDate(input.dueDate.value))
    ensures r.Some? ==>
      && r.value.title == input.title
      && r.value.description == input.description
      && r.value.dueDate == input.dueDate
      && (r.value.status.Some? <==> input.status.Some?)
      && (r.value.status.Some? ==> StatusName(r.value.status.value) == input.status.value)
      && (r.value.priority.Some? <==> input.priority.Some?)
      && (r.value.priority.Some? ==> PriorityName(r.value.priority.value) == input.priority.value)
  {
    if !OptionalWithin(input.title, TitleMin, TitleMax) then None
    else if !OptionalWithin(input.description, DescriptionMin, DescriptionMax) then None
    else if input.dueDate.Some? && input.dueDate.value != "" && !isDate(input.dueDate.value) then None
    else
      match (OptionalEnum(input.status, ParseStatus), OptionalEnum(input.priority, ParsePriority))
      case (Some(st), Some(pr)) => Some(TaskUpdate(input.title, input.description, st, pr, input.dueDate))
      case _ => None
  }

  /** The empty update is accepted, whatever the date parser says. */
  lemma EmptyUpdateAccepted(isDate: string -> bool)
    ensures UpdateTaskSchema(UpdateTaskInput(None, None, None, None, None), isDate)
         == Some(TaskUpdate(None, None, None, None, None))
  {
  }

  // ---------------------------------------------------------------------
  // taskFiltersSchema

  datatype FilterInput = FilterInput(status: Option<string>, priority: Option<string>, assignedTo: Option<string>)
  datatype TaskFilters = TaskFilters(status: Option<TaskStatus>, priority: Option<Priority>, assignedTo: Option<string>)

  /** Optional status and priority from the same enumerations, and an
      optional assignee identifier. */
  function TaskFiltersSchema(input: FilterInput, isCuid: string -> bool): (r: Option<TaskFilters>)
    ensures r.Some? <==>
      && (input.status.None? || input.status.value in {"PENDING", "IN_PROGRESS", "COMPLETED"})
      && (input.priority.None? || input.priority.value in {"LOW", "MEDIUM", "HIGH"})
      && (input.assignedTo.None? || isCuid(input.assignedTo.value))
    ensures r.Some? ==>
      && r.value.assignedTo == input.assignedTo
      && (r.value.status.Some? <==> input.status.Some?)
      && (r.value.status.Some? ==> StatusName(r.value.status.value) == input.status.value)
      && (r.value.priority.Some? <==> input.priority.Some?)
      && (r.value.priority.Some? ==> PriorityName(r.value.priority.value) == input.priority.value)
  {
    if input.assignedTo.Some? && !isCuid(input.assignedTo.value) then None
    else
      match (OptionalEnum(input.status, ParseStatus), OptionalEnum(input.priority, ParsePriority))
      case (Some(st), Some(pr)) => Some(TaskFilters(st, pr, input.assignedTo))
      case _ => None
  }

  // ---------------------------------------------------------------------
  // checkInSchema, checkOutSchema

  datatype NotesInput = NotesInput(notes: Option<string>)

  /** Optional notes of at most 500 characters. */
  function CheckInSchema(body: NotesInput): (ok: bool)
    ensures ok <==> body.notes.None? || |body.notes.value| <= 500
  {
    OptionalWithin(body.notes, 0, NotesMax)
  }

  /** The check-out schema accepts exactly what the check-in schema accepts. */
  function CheckOutSchema(body: NotesInput): (ok: bool)
    ensures ok == CheckInSchema(body)
  {
    OptionalWithin(body.notes, 0, NotesMax)
  }

  // ---------------------------------------------------------------------
  // reviewSubmissionSchema

  datatype ReviewInput = ReviewInput(reviewStatus: Option<string>, reviewNotes: Option<string>)
  datatype Review = Review(status: ReviewStatus, notes: Option<string>)

  /** A required review status from the four review states and optional
      notes of at most 2000 characters. */
  function ReviewSubmissionSchema(input: ReviewInput): (r: Option<Review>)
    ensures r.Some? <==>
      && input.reviewStatus.Some?
      && input.reviewStatus.value in {"PENDING", "APPROVED", "REJECTED", "NEEDS_REVISION"}
      && (input.reviewNotes.None? || |input.reviewNotes.value| <= 2000)
    ensures r.Some? ==>
      ReviewStatusName(r.value.status) == input.reviewStatus.value && r.value.notes == input.reviewNotes
  {
    if input.reviewStatus.None? || !OptionalWithin(input.reviewNotes, 0, ReviewNotesMax) then None
    else
      match ParseReviewStatus(input.reviewStatus.value)
      case None => None
      case Some(st) => Some(Review(st, input.reviewNotes))
  }
}
