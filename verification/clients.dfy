/** The pure parts of the two list screens: the task list filter, the status
    buttons and the task form (src/components/tasks/tasks-client.tsx), and
    the submission list filter and submission form
    (src/components/submissions/submissions-client.tsx). */
module Clients {
  import opened Common
  import opened Store
  import opened Seqs
  import opened Validations
  import opened Submissions

  // ---------------------------------------------------------------------
  // The task list

  /** One row of the task table as the screen holds it. */
  datatype TaskSummary = TaskSummary(
    id: string,
    title: string,
    description: string,
    status: TaskStatus,
    priority: Priority,
    dueDate: string,
    assignedTo: UserRef,
    createdBy: NameRef,
    submissionCount: nat)

  /** A select that is either ALL or one value. */
  datatype StatusFilter = AnyStatus | OnlyStatus(status: TaskStatus)
  datatype PriorityFilter = AnyPriority | OnlyPriority(priority: Priority)

  predicate TaskShown(t: TaskSummary, status: StatusFilter, priority: PriorityFilter) {
    && (status.AnyStatus? || t.status == status.status)
    && (priority.AnyPriority? || t.priority == priority.priority)
  }

  /** `filteredTasks`: the rows matching both selects. */
  function FilteredTasks(tasks: seq<TaskSummary>, status: StatusFilter, priority: PriorityFilter)
    : (r: seq<TaskSummary>)
    ensures forall i :: 0 <= i < |r| ==>
      (status.AnyStatus? || r[i].status == status.status) && (priority.AnyPriority? || r[i].priority == priority.priority)
    ensures forall t :: t in r <==> t in tasks && TaskShown(t, status, priority)
    ensures forall t :: TaskShown(t, status, priority) ==> multiset(r)[t] == multiset(tasks)[t]
    ensures forall t :: !TaskShown(t, status, priority) ==> multiset(r)[t] == 0
  {
    Filter(tasks, (t: TaskSummary) => TaskShown(t, status, priority))
  }

  /** The filter keeps the rows it shows in their original order. */
  lemma FilteredTasksKeepOrder(tasks: seq<TaskSummary>, status: StatusFilter, priority: PriorityFilter)
    ensures IsSubseq(FilteredTasks(tasks, status, priority), tasks)
  {
    FilterIsSubseq(tasks, (t: TaskSummary) => TaskShown(t, status, priority));
  }

  /** With both selects on ALL the table shows every row, in order. */
  lemma AllFiltersShowEveryTask(tasks: seq<TaskSummary>)
    ensures FilteredTasks(tasks, AnyStatus, AnyPriority) == tasks
  {
    FilterKeepsAll(tasks, (t: TaskSummary) => TaskShown(t, AnyStatus, AnyPriority));
  }

  // ---------------------------------------------------------------------
  // The status buttons

  const AllStatuses: seq<TaskStatus> := [Pending, InProgress, Completed]

  /** The position of a status in the button row. */
  function StatusRank(s: TaskStatus): nat {
    match s
    case Pending => 0
    case InProgress => 1
    case Completed => 2
  }

  lemma EveryStatusListed()
    ensures forall s: TaskStatus :: s in AllStatuses
  {
    forall s: TaskStatus
      ensures s in AllStatuses
    {
      assert AllStatuses[StatusRank(s)] == s;
    }
  }

  /** `nextStatuses`: an administrator is offered every status, the current
      one included; a volunteer every status but the current one. Buttons
      keep the order PENDING, IN_PROGRESS, COMPLETED. */
  function NextStatuses(role: Role, current: TaskStatus): (r: seq<TaskStatus>)
    ensures role == Admin ==> |r| == 3 && forall s: TaskStatus :: s in r
    ensures role == Volunteer ==> |r| == 2 && current !in r && forall s :: s != current ==> s in r
    ensures forall i, j :: 0 <= i < j < |r| ==> StatusRank(r[i]) < StatusRank(r[j])
  {
    if role == Admin then EveryStatusListed(); AllStatuses
    else OthersComplete(current); Others(current)
  }

  /** The button row with the current status filtered out, in button
      order. */
  function Others(current: TaskStatus): (r: seq<TaskStatus>)
    ensures |r| == 2 && current !in r
    ensures forall i, j :: 0 <= i < j < |r| ==> StatusRank(r[i]) < StatusRank(r[j])
  {
    match current
    case Pending =>
      [InProgress, Completed]
    case InProgress =>
      [Pending, Completed]
    case Completed =>
      [Pending, InProgress]
  }

  /** Every status but the current one gets a button. */
  lemma OthersComplete(current: TaskStatus)
    ensures forall s :: s != current ==> s in Others(current)
  {
    forall s | s != current
      ensures s in Others(current)
    {
      match s
      case Pending =>
      case InProgress =>
      case Completed =>
    }
  }

  // ---------------------------------------------------------------------
  // The task form

  /** The form's own description bounds, from the schema's extension. */
  const FormDescriptionMin: nat := 10
  const FormDescriptionMax: nat := 5000

  /** The form resolver: the server's creation schema extended with the
      form's own description rule, which replaces the server's. */
  function TaskFormSchema(input: CreateTaskInput, isCuid: string -> bool, isDate: string -> bool)
    : (r: Option<NewTask>)
    ensures r.Some? ==>
      input.description.Some? && FormDescriptionMin <= |input.description.value| <= FormDescriptionMax
    ensures input.description.Some? && FormDescriptionMin <= |input.description.value| <= FormDescriptionMax ==>
      (r.Some? <==> input.title.Some? && TitleMin <= |input.title.value| <= TitleMax
                    && input.assignedTo.Some? && isCuid(input.assignedTo.value)
                    && (input.priority.None? || ParsePriority(input.priority.value).Some?)
                    && input.dueDate.Some? && isDate(input.dueDate.value))
  {
    TaskSchemaWithDescription(input, isCuid, isDate, FormDescriptionMin, FormDescriptionMax)
  }

  /** The form's description bounds are the server's, so the form accepts
      exactly what the server will accept, with the same parsed values. */
  lemma TaskFormAgreesWithServer(input: CreateTaskInput, isCuid: string -> bool, isDate: string -> bool)
    ensures FormDescriptionMin == DescriptionMin && FormDescriptionMax == DescriptionMax
    ensures TaskFormSchema(input, isCuid, isDate) == CreateTaskSchema(input, isCuid, isDate)
  {
  }

  /** The form's initial values. `weekAhead` is the date seven days after
      the screen opens, which the clock supplies. */
  function TaskFormDefaults(volunteers: seq<UserRef>, weekAhead: string): (d: CreateTaskInput)
    ensures d.title == Some("") && d.description == Some("")
    ensures d.priority.Some? && ParsePriority(d.priority.value) == Some(Medium)
    ensures |volunteers| > 0 ==> d.assignedTo == Some(volunteers[0].id)
    ensures |volunteers| == 0 ==> d.assignedTo == Some("")
    ensures d.dueDate == Some(weekAhead)
  {
    var assignee := if |volunteers| > 0 then volunteers[0].id else "";
    CreateTaskInput(Some(""), Some(""), Some(assignee), Some(PriorityName(Medium)), Some(weekAhead))
  }

  /** The untouched form cannot be submitted: its empty title is too short. */
  lemma DefaultsNeedATitle(
    volunteers: seq<UserRef>, weekAhead: string, isCuid: string -> bool, isDate: string -> bool)
    ensures TaskFormSchema(TaskFormDefaults(volunteers, weekAhead), isCuid, isDate).None?
  {
  }

  // ---------------------------------------------------------------------
  // The submission list

  datatype ReviewFilter = AllReviews | OnlyReview(status: ReviewStatus)

  predicate SubmissionShown(s: SubmissionView, filter: ReviewFilter) {
    filter.AllReviews? || s.reviewStatus == filter.status
  }

  /** `filteredSubmissions`: the rows with the chosen review status. */
  function FilteredSubmissions(subs: seq<SubmissionView>, filter: ReviewFilter): (r: seq<SubmissionView>)
    ensures filter.OnlyReview? ==> forall i :: 0 <= i < |r| ==> r[i].reviewStatus == filter.status
    ensures forall s :: s in r <==> s in subs && SubmissionShown(s, filter)
    ensures forall s :: SubmissionShown(s, filter) ==> multiset(r)[s] == multiset(subs)[s]
    ensures forall s :: !SubmissionShown(s, filter) ==> multiset(r)[s] == 0
  {
    Filter(subs, (s: SubmissionView) => SubmissionShown(s, filter))
  }

  lemma FilteredSubmissionsKeepOrder(subs: seq<SubmissionView>, filter: ReviewFilter)
    ensures IsSubseq(FilteredSubmissions(subs, filter), subs)
  {
    FilterIsSubseq(subs, (s: SubmissionView) => SubmissionShown(s, filter));
  }

  /** The ALL filter shows every submission, in order. */
  lemma AllReviewsShowEverySubmission(subs: seq<SubmissionView>)
    ensures FilteredSubmissions(subs, AllReviews) == subs
  {
    FilterKeepsAll(subs, (s: SubmissionView) => SubmissionShown(s, AllReviews));
  }

  /** Applying the same filter twice is applying it once. */
  lemma FilteredSubmissionsIdempotent(subs: seq<SubmissionView>, filter: ReviewFilter)
    ensures FilteredSubmissions(FilteredSubmissions(subs, filter), filter) == FilteredSubmissions(subs, filter)
  {
    FilterIdempotent(subs, (s: SubmissionView) => SubmissionShown(s, filter));
  }

  // ---------------------------------------------------------------------
  // The submission form

  /** The file field: empty, a file, or some other value. */
  datatype FileField = NoFile | AFile(blob: FileBlob) | NotAFile

  datatype SubmissionFormInput = SubmissionFormInput(taskId: Option<string>, content: Option<string>, file: FileField)
  datatype SubmissionValues = SubmissionValues(taskId: string, content: Option<string>, file: Option<FileBlob>)

  const ContentMax: nat := 2000

  /** `submissionFormSchema`: a task identifier, optional content of at most
      2000 characters, and an optional file. */
  function SubmissionFormSchema(input: SubmissionFormInput, isCuid: string -> bool): (r: Option<SubmissionValues>)
    ensures r.Some? <==>
      && input.taskId.Some? && isCuid(input.taskId.value)
      && (input.content.None? || |input.content.value| <= 2000)
      && !input.file.NotAFile?
    ensures r.Some? ==> r.value.taskId == input.taskId.value && r.value.content == input.content
    ensures r.Some? ==> r.value.file == (if input.file.AFile? then Some(input.file.blob) else None)
  {
    if input.taskId.None? || !isCuid(input.taskId.value) then None
    else if input.content.Some? && |input.content.value| > ContentMax then None
    else
      match input.file
      case NotAFile => None
      case NoFile => Some(SubmissionValues(input.taskId.value, input.content, None))
      case AFile(b) => Some(SubmissionValues(input.taskId.value, input.content, Some(b)))
  }

  /** `onSubmitWork`: the form data sent to the server; empty content is
      left out. */
  function ToFormData(v: SubmissionValues): (f: SubmissionForm)
    ensures f.taskId == Some(v.taskId) && f.file == v.file
    ensures f.content.Some? <==> v.content.Some? && v.content.value != ""
    ensures f.content.Some? ==> f.content == v.content
  {
    var content := if v.content.Some? && v.content.value != "" then v.content else None;
    SubmissionForm(Some(v.taskId), content, v.file)
  }

  /** A form the client accepts never trips the server's missing-task-id
      guard, because a task identifier is never empty; the server then
      answers 404, 403 or 201. */
  lemma ValidFormPassesTaskIdGuard(
    input: SubmissionFormInput, isCuid: string -> bool,
    tasks: seq<Task>, submissions: seq<Submission>, user: Claims,
    upload: FileBlob -> Uploaded, newId: string, now: int)
    requires !isCuid("")
    requires SubmissionFormSchema(input, isCuid).Some?
    ensures var r := CreateSubmission(tasks, submissions, user,
                                      ToFormData(SubmissionFormSchema(input, isCuid).value), upload, newId, now);
      r.0.Json? || r.0.status in {403, 404}
  {
    var v := SubmissionFormSchema(input, isCuid).value;
    assert v.taskId != "";
  }
}
