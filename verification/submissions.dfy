/** The submission routes: creation (src/app/api/submissions/route.ts) and
    the role-scoped listing (src/app/api/submissions/list/route.ts). The file
    upload is a network call outside the model and arrives as a function. */
module Submissions {
  import opened Common
  import opened Http
  import opened Store
  import opened Seqs

  const TaskIdRequired: string := "Task ID is required"
  const TaskNotFound: string := "Task not found"
  const Forbidden: string := "Forbidden"

  /** A file attached to the form; its contents are opaque to the model. */
  datatype FileBlob = FileBlob(name: string, size: int)

  /** What the upload service reports for a stored file. */
  datatype Uploaded = Uploaded(url: string, name: string, size: int)

  /** The multipart form fields; an absent field is `None`. */
  datatype SubmissionForm = SubmissionForm(taskId: Option<string>, content: Option<string>, file: Option<FileBlob>)

  /** The assignee check: administrators pass for any task, volunteers only
      for tasks assigned to them. */
  predicate MaySubmitFor(user: Claims, t: Task) {
    user.role == Admin || t.assignedTo == Some(user.userId)
  }

  // ---------------------------------------------------------------------
  // POST /submissions

  /** Checks, in order: a non-empty task id (400), an existing task (404),
      the assignee check (403). Only then is the file uploaded and the
      submission stored, with the store's defaults: review status PENDING,
      no review notes, submitted `now`. */
  function CreateSubmission(
    tasks: seq<Task>, submissions: seq<Submission>, user: Claims, form: SubmissionForm,
    upload: FileBlob -> Uploaded, newId: string, now: int)
    : (r: (Response<Submission>, seq<Submission>))
    ensures form.taskId.None? || form.taskId.value == "" ==> r == (Fail(400, TaskIdRequired), submissions)
    ensures form.taskId.Some? && form.taskId.value != "" && (forall t :: t in tasks ==> t.id != form.taskId.value) ==>
      r == (Fail(404, TaskNotFound), submissions)
    ensures (form.taskId.Some? && form.taskId.value != "" && FindTask(tasks, form.taskId.value).Some?
             && !MaySubmitFor(user, FindTask(tasks, form.taskId.value).value)) ==>
      r == (Fail(403, Forbidden), submissions)
    ensures r.0.Json? <==>
      form.taskId.Some? && form.taskId.value != "" && FindTask(tasks, form.taskId.value).Some?
      && MaySubmitFor(user, FindTask(tasks, form.taskId.value).value)
    ensures r.0.Json? ==>
      && r.0.status == 201
      && r.1 == submissions + [r.0.body]
      && r.0.body.id == newId
      && r.0.body.userId == user.userId
      && r.0.body.taskId == form.taskId.value
      && r.0.body.content == form.content
      && r.0.body.reviewStatus == ReviewPending && r.0.body.reviewNotes.None?
      && r.0.body.submittedAt == now
      && (form.file.None? ==> r.0.body.fileUrl.None? && r.0.body.fileName.None? && r.0.body.fileSize.None?)
      && (form.file.Some? ==>
            var u := upload(form.file.value);
            r.0.body.fileUrl == Some(u.url) && r.0.body.fileName == Some(u.name) && r.0.body.fileSize == Some(u.size))
  {
    if form.taskId.None? || form.taskId.value == "" then (Fail(400, TaskIdRequired), submissions)
    else
      match FindTask(tasks, form.taskId.value)
      case None => (Fail(404, TaskNotFound), submissions)
      case Some(task) =>
        if user.role == Volunteer && task.assignedTo != Some(user.userId) then (Fail(403, Forbidden), submissions)
        else
          var uploaded := if form.file.Some? then Some(upload(form.file.value)) else None;
          var created := Submission(
            newId, form.taskId.value, user.userId, form.content,
            if uploaded.Some? then Some(uploaded.value.url) else None,
            if uploaded.Some? then Some(uploaded.value.name) else None,
            if uploaded.Some? then Some(uploaded.value.size) else None,
            ReviewPending, None, now);
          (Json(201, created, None), submissions + [created])
  }

  /** An administrator passes the assignee check for every existing task. */
  lemma AdminMaySubmitForAnyTask(
    tasks: seq<Task>, submissions: seq<Submission>, user: Claims, form: SubmissionForm,
    upload: FileBlob -> Uploaded, newId: string, now: int)
    requires user.role == Admin
    requires form.taskId.Some? && form.taskId.value != ""
    requires exists t :: t in tasks && t.id == form.taskId.value
    ensures CreateSubmission(tasks, submissions, user, form, upload, newId, now).0.Json?
  {
  }

  /** Without a file the upload is never invoked: the result is the same
      whatever the upload service would do. */
  lemma NoFileNoUpload(
    tasks: seq<Task>, submissions: seq<Submission>, user: Claims, form: SubmissionForm,
    upload1: FileBlob -> Uploaded, upload2: FileBlob -> Uploaded, newId: string, now: int)
    requires form.file.None?
    ensures CreateSubmission(tasks, submissions, user, form, upload1, newId, now)
         == CreateSubmission(tasks, submissions, user, form, upload2, newId, now)
  {
  }

  // ---------------------------------------------------------------------
  // GET /submissions/list

  datatype TaskRef = TaskRef(id: string, title: string, assignedTo: Option<NameRef>)

  /** One listed submission with its task and author joined in. */
  datatype SubmissionView = SubmissionView(
    id: string,
    task: TaskRef,
    user: UserRef,
    content: Option<string>,
    fileUrl: Option<string>,
    fileName: Option<string>,
    fileSize: Option<int>,
    reviewStatus: ReviewStatus,
    reviewNotes: Option<string>,
    submittedAt: int)

  /** The store's foreign keys for one submission: its task, its author and
      the task's assignee, when it has one, all exist. */
  predicate Linked(users: seq<User>, tasks: seq<Task>, s: Submission) {
    && FindTask(tasks, s.taskId).Some?
    && FindUserById(users, s.userId).Some?
    && (FindTask(tasks, s.taskId).value.assignedTo.Some? ==>
          FindUserById(users, FindTask(tasks, s.taskId).value.assignedTo.value).Some?)
  }

  /** The joined view of one submission. */
  function View(users: seq<User>, tasks: seq<Task>, s: Submission): (v: SubmissionView)
    requires Linked(users, tasks, s)
    ensures v.id == s.id && v.task.id == s.taskId && v.user.id == s.userId
    ensures var t := FindTask(tasks, s.taskId).value;
      && v.task.title == t.title
      && (v.task.assignedTo.None? <==> t.assignedTo.None?)
      && (v.task.assignedTo.Some? ==>
            exists u :: u in users && u.id == t.assignedTo.value && v.task.assignedTo.value == NameRef(u.id, u.name))
    ensures exists u :: u in users && u.id == s.userId && v.user == UserRef(u.id, u.name, u.email)
    ensures && v.content == s.content && v.fileUrl == s.fileUrl && v.fileName == s.fileName
            && v.fileSize == s.fileSize && v.reviewStatus == s.reviewStatus
            && v.reviewNotes == s.reviewNotes && v.submittedAt == s.submittedAt
  {
    var t := FindTask(tasks, s.taskId).value;
    var u := FindUserById(users, s.userId).value;
    var assignee :=
      if t.assignedTo.Some? then
        var a := FindUserById(users, t.assignedTo.value).value;
        Some(NameRef(a.id, a.name))
      else None;
    SubmissionView(
      s.id, TaskRef(t.id, t.title, assignee), UserRef(u.id, u.name, u.email),
      s.content, s.fileUrl, s.fileName, s.fileSize, s.reviewStatus, s.reviewNotes, s.submittedAt)
  }

  function Views(users: seq<User>, tasks: seq<Task>, subs: seq<Submission>): (vs: seq<SubmissionView>)
    requires forall s :: s in subs ==> Linked(users, tasks, s)
    ensures |vs| == |subs|
    ensures forall i {:trigger vs[i]} :: 0 <= i < |subs| ==> vs[i] == View(users, tasks, subs[i])
  {
    if |subs| == 0 then [] else [View(users, tasks, subs[0])] + Views(users, tasks, subs[1..])
  }

  /** The list's sort key, on the listed views. */
  function ViewSubmittedAt(v: SubmissionView): int {
    v.submittedAt
  }

  /** The list's sort key. */
  function SubmittedAtOf(s: Submission): int {
    s.submittedAt
  }

  /** The `where` clause: a volunteer sees their own submissions, an
      administrator sees all. */
  predicate Visible(user: Claims, s: Submission) {
    user.role == Admin || s.userId == user.userId
  }

  /** The submissions the `where` clause selects, in store order. */
  function VisibleSubmissions(subs: seq<Submission>, user: Claims): (vis: seq<Submission>)
    ensures forall s :: s in vis <==> s in subs && Visible(user, s)
  {
    Filter(subs, (s: Submission) => Visible(user, s))
  }

  function VisibleNewestFirst(subs: seq<Submission>, user: Claims): seq<Submission> {
    SortDesc(VisibleSubmissions(subs, user), SubmittedAtOf)
  }

  /** `GET /submissions/list`: every visible submission, newest first, with
      no pagination. */
  function ListSubmissions(users: seq<User>, tasks: seq<Task>, subs: seq<Submission>, user: Claims)
    : (r: seq<SubmissionView>)
    requires forall s :: s in subs ==> Linked(users, tasks, s)
    ensures user.role == Admin ==> |r| == |subs|
    ensures |r| == |VisibleSubmissions(subs, user)|
    ensures multiset(r) == multiset(Views(users, tasks, VisibleSubmissions(subs, user)))
    ensures SortedDesc(r, ViewSubmittedAt)
    ensures forall v :: v in r ==> exists s :: s in subs && Visible(user, s) && v == View(users, tasks, s)
    ensures forall s :: s in subs && Visible(user, s) ==> View(users, tasks, s) in r
    ensures user.role == Volunteer ==> forall v :: v in r ==> v.user.id == user.userId
  {
    var sorted := VisibleNewestFirst(subs, user);
    VisibleNewestFirstMembers(subs, user);
    AdminSeesEverySubmission(subs, user);
    ViewsMembers(users, tasks, sorted);
    ViewsKeepOrder(users, tasks, sorted);
    ViewsOfNewestFirst(users, tasks, subs, user);
    Views(users, tasks, sorted)
  }

  /** Sorting does not change which views are listed, nor how often. */
  lemma ViewsOfNewestFirst(users: seq<User>, tasks: seq<Task>, subs: seq<Submission>, user: Claims)
    requires forall s :: s in subs ==> Linked(users, tasks, s)
    ensures var sorted, visible := VisibleNewestFirst(subs, user), VisibleSubmissions(subs, user);
      && (forall s :: s in sorted ==> Linked(users, tasks, s))
      && multiset(Views(users, tasks, sorted)) == multiset(Views(users, tasks, visible))
  {
    var visible := VisibleSubmissions(subs, user);
    var sorted := VisibleNewestFirst(subs, user);
    VisibleNewestFirstMembers(subs, user);
    ViewsPermutation(users, tasks, sorted, visible);
  }

  /** The views of two permutations of one another are permutations of one
      another. */
  lemma ViewsPermutation(users: seq<User>, tasks: seq<Task>, xs: seq<Submission>, ys: seq<Submission>)
    requires forall s :: s in xs ==> Linked(users, tasks, s)
    requires forall s :: s in ys ==> Linked(users, tasks, s)
    requires multiset(xs) == multiset(ys)
    ensures multiset(Views(users, tasks, xs)) == multiset(Views(users, tasks, ys))
  {
    var view := (s: Submission) requires Linked(users, tasks, s) => View(users, tasks, s);
    var fx, fy := Views(users, tasks, xs), Views(users, tasks, ys);
    assert forall i :: 0 <= i < |xs| ==> fx[i] == view(xs[i]);
    assert forall i :: 0 <= i < |ys| ==> fy[i] == view(ys[i]);
    MapPermutation(xs, ys, view, fx, fy);
  }

  /** The sorted visible list holds exactly the visible submissions. */
  lemma VisibleNewestFirstMembers(subs: seq<Submission>, user: Claims)
    ensures forall s :: s in VisibleNewestFirst(subs, user) <==> s in subs && Visible(user, s)
  {
    var sorted := VisibleNewestFirst(subs, user);
    var visible := VisibleSubmissions(subs, user);
    forall s
      ensures s in sorted <==> s in visible
    {
      assert s in sorted <==> s in multiset(sorted);
      assert s in visible <==> s in multiset(visible);
    }
  }

  /** An administrator's list is as long as the store. */
  lemma AdminSeesEverySubmission(subs: seq<Submission>, user: Claims)
    ensures user.role == Admin ==> |VisibleNewestFirst(subs, user)| == |subs|
  {
    if user.role == Admin {
      FilterKeepsAll(subs, (s: Submission) => Visible(user, s));
      assert VisibleSubmissions(subs, user) == subs;
    }
  }

  /** The views of a list are the views of its members. */
  lemma ViewsMembers(users: seq<User>, tasks: seq<Task>, xs: seq<Submission>)
    requires forall s :: s in xs ==> Linked(users, tasks, s)
    ensures forall v :: v in Views(users, tasks, xs) ==> exists s :: s in xs && v == View(users, tasks, s)
    ensures forall s :: s in xs ==> View(users, tasks, s) in Views(users, tasks, xs)
  {
    var vs := Views(users, tasks, xs);
    forall v | v in vs
      ensures exists s :: s in xs && v == View(users, tasks, s)
    {
      var k :| 0 <= k < |vs| && vs[k] == v;
      assert xs[k] in xs;
    }
    forall s | s in xs
      ensures View(users, tasks, s) in vs
    {
      var k :| 0 <= k < |xs| && xs[k] == s;
      assert vs[k] == View(users, tasks, s);
    }
  }

  /** The views keep the submission order by submission time. */
  lemma ViewsKeepOrder(users: seq<User>, tasks: seq<Task>, xs: seq<Submission>)
    requires forall s :: s in xs ==> Linked(users, tasks, s)
    requires SortedDesc(xs, SubmittedAtOf)
    ensures SortedDesc(Views(users, tasks, xs), ViewSubmittedAt)
  {
    var vs := Views(users, tasks, xs);
    forall i, j | 0 <= i < j < |vs|
      ensures ViewSubmittedAt(vs[i]) >= ViewSubmittedAt(vs[j])
    {
      assert SubmittedAtOf(xs[i]) >= SubmittedAtOf(xs[j]);
    }
  }
}
