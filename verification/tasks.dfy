/** The task collection route (src/app/api/tasks/route.ts): the paginated,
    role-scoped listing and the admin-only creation. */
module Tasks {
  import opened Common
  import opened Http
  import opened Store
  import opened Seqs
  import opened Validations
  import Rbac

  const InvalidFilters: string := "Invalid filters"
  const DefaultPage: int := 1
  const DefaultLimit: int := 10
  const MaxLimit: int := 50

  // ---------------------------------------------------------------------
  // Pagination arithmetic

  /** `Math.max(1, page)`, the page defaulting to 1. */
  function ClampPage(page: Option<int>): (p: int)
    ensures page.None? ==> p == 1
    ensures page.Some? ==> p >= 1 && p >= page.value && (p == 1 || p == page.value)
  {
    var requested := page.GetOr(DefaultPage);
    if requested < 1 then 1 else requested
  }

  /** `Math.min(50, Math.max(1, limit))`, the limit defaulting to 10. */
  function ClampLimit(limit: Option<int>): (l: int)
    ensures 1 <= l <= 50
    ensures limit.None? ==> l == 10
    ensures limit.Some? && 1 <= limit.value <= 50 ==> l == limit.value
    ensures limit.Some? && limit.value < 1 ==> l == 1
    ensures limit.Some? && limit.value > 50 ==> l == 50
  {
    var requested := limit.GetOr(DefaultLimit);
    if requested < 1 then 1 else if requested > MaxLimit then MaxLimit else requested
  }

  /** `Math.ceil(total / limit)`: the fewest pages of `limit` rows that hold
      `total` rows. */
  function CeilDiv(total: nat, limit: int): (pages: nat)
    requires limit >= 1
    ensures total == 0 ==> pages == 0
    ensures total > 0 ==> (pages - 1) * limit < total <= pages * limit
  {
    var q := (total + limit - 1) / limit;
    assert q * limit + (total + limit - 1) % limit == total + limit - 1;
    q
  }

  lemma MulLeft(a: int, b: int, c: int)
    requires a <= b && c >= 0
    ensures a * c <= b * c
  {
    assert b * c - a * c == (b - a) * c;
  }

  /** There is a later page exactly when the rows up to the end of this page
      do not exhaust the total. */
  lemma HasMoreIffRowsRemain(total: nat, page: int, limit: int)
    requires page >= 1 && limit >= 1
    ensures page < CeilDiv(total, limit) <==> page * limit < total
  {
    var pages := CeilDiv(total, limit);
    if page < pages {
      MulLeft(page, pages - 1, limit);
    }
    if page * limit < total {
      if page >= pages {
        MulLeft(pages, page, limit);
      }
    }
  }

  // ---------------------------------------------------------------------
  // The `where` clause

  /** The conditions of the task query; an absent field does not constrain. */
  datatype Where = Where(assignedTo: Option<string>, status: Option<TaskStatus>, priority: Option<Priority>)

  predicate Matches(t: Task, w: Where) {
    && (w.assignedTo.None? || t.assignedTo == w.assignedTo)
    && (w.status.None? || t.status == w.status.value)
    && (w.priority.None? || t.priority == w.priority.value)
  }

  /** The spread of the four optional parts: a volunteer is restricted to
      their own tasks, but a non-empty `assignedTo` filter comes later in the
      spread and replaces that restriction. */
  function BuildWhere(user: Claims, filters: TaskFilters): (w: Where)
    ensures filters.assignedTo.Some? && filters.assignedTo.value != "" ==> w.assignedTo == filters.assignedTo
    ensures (filters.assignedTo.None? || filters.assignedTo.value == "") && user.role == Volunteer ==>
      w.assignedTo == Some(user.userId)
    ensures (filters.assignedTo.None? || filters.assignedTo.value == "") && user.role == Admin ==>
      w.assignedTo.None?
    ensures w.status == filters.status && w.priority == filters.priority
  {
    var own := if user.role == Volunteer then Some(user.userId) else None;
    var assignee := if filters.assignedTo.Some? && filters.assignedTo.value != "" then filters.assignedTo else own;
    Where(assignee, filters.status, filters.priority)
  }

  // ---------------------------------------------------------------------
  // GET /tasks

  datatype TaskQuery = TaskQuery(page: Option<int>, limit: Option<int>, filters: FilterInput)
  datatype Pagination = Pagination(total: nat, page: int, limit: int, totalPages: nat, hasMore: bool)
  datatype TaskPage = TaskPage(data: seq<Task>, pagination: Pagination)

  /** The pagination block for `total` matching rows and the requested
      page and limit. */
  function Paginate(total: nat, page: Option<int>, limit: Option<int>): (p: Pagination)
    ensures p.total == total && p.page == ClampPage(page) && p.limit == ClampLimit(limit)
    ensures total == 0 ==> p.totalPages == 0 && !p.hasMore
    ensures total > 0 ==> (p.totalPages - 1) * p.limit < total <= p.totalPages * p.limit
    ensures p.hasMore <==> p.page * p.limit < total
  {
    var pg := ClampPage(page);
    var lim := ClampLimit(limit);
    var totalPages := CeilDiv(total, lim);
    HasMoreIffRowsRemain(total, pg, lim);
    Pagination(total, pg, lim, totalPages, pg < totalPages)
  }

  /** `(page - 1) * limit`: the rows on the pages before this one. */
  function SkipOf(page: int, limit: int): (skip: nat)
    requires page >= 1 && limit >= 1
    ensures skip + limit == page * limit
  {
    MulLeft(0, page - 1, limit);
    (page - 1) * limit
  }

  /** The rows of one page: skip `skip`, take `limit`. */
  function PageOf(rows: seq<Task>, skip: nat, limit: nat): (page: seq<Task>)
    ensures |page| <= limit
    ensures skip + limit <= |rows| ==> |page| == limit
    ensures skip + limit > |rows| ==> |page| == if skip >= |rows| then 0 else |rows| - skip
    ensures forall k :: 0 <= k < |page| ==> skip + k < |rows| && page[k] == rows[skip + k]
    ensures forall t :: t in page ==> t in rows
  {
    if skip >= |rows| then []
    else if skip + limit >= |rows| then rows[skip..]
    else rows[skip..skip + limit]
  }

  /** The tasks the `where` clause selects, in store order. */
  function Matching(tasks: seq<Task>, where: Where): (rows: seq<Task>)
    ensures forall t :: t in rows <==> t in tasks && Matches(t, where)
  {
    Filter(tasks, (t: Task) => Matches(t, where))
  }

  /** The matching tasks in the store's `orderBy` order. The order is an
      input: `rank` ranks a task, and a higher rank comes first. */
  function Ordered(tasks: seq<Task>, where: Where, rank: Task -> int): (rows: seq<Task>)
    ensures multiset(rows) == multiset(Matching(tasks, where))
    ensures SortedDesc(rows, rank)
    ensures forall t :: t in rows <==> t in tasks && Matches(t, where)
  {
    var rows := SortDesc(Matching(tasks, where), rank);
    assert forall t :: t in rows <==> t in multiset(Matching(tasks, where));
    rows
  }

  /** `GET /tasks`. The rows are ordered by `rank`, the store's ordering,
      before the page is cut. */
  function ListTasks(tasks: seq<Task>, user: Claims, query: TaskQuery, isCuid: string -> bool, rank: Task -> int)
    : (r: Response<TaskPage>)
    ensures TaskFiltersSchema(query.filters, isCuid).None? <==> r == Fail(400, InvalidFilters)
    ensures TaskFiltersSchema(query.filters, isCuid).Some? ==> r.Json?
    ensures r.Json? ==>
      var where := BuildWhere(user, TaskFiltersSchema(query.filters, isCuid).value);
      && r.status == 200
      && PageAgrees(r.body, tasks, where, query, rank)
  {
    match TaskFiltersSchema(query.filters, isCuid)
    case None => Fail(400, InvalidFilters)
    case Some(filters) =>
      var where := BuildWhere(user, filters);
      ListPageFacts(tasks, where, query, rank);
      Json(200, ListPage(tasks, where, query, rank), None)
  }

  /** What a page of `GET /tasks` holds: the pagination of every matching
      task, and exactly the window of the ordered matching tasks that
      starts after the earlier pages. */
  ghost predicate PageAgrees(page: TaskPage, tasks: seq<Task>, where: Where, query: TaskQuery, rank: Task -> int) {
    && Window(page, Ordered(tasks, where, rank), query, rank)
    && (forall t :: t in page.data ==> t in tasks && Matches(t, where))
  }

  /** `page` is the pagination of `rows` for the query, and its data is
      exactly the window of `rows` that starts after the earlier pages. */
  ghost predicate Window(page: TaskPage, rows: seq<Task>, query: TaskQuery, rank: Task -> int) {
    var p := page.pagination;
    var data := page.data;
    && p == Paginate(|rows|, query.page, query.limit)
    && var skip := SkipOf(p.page, p.limit);
    && |data| == (if skip >= p.total then 0 else if skip + p.limit <= p.total then p.limit else p.total - skip)
    && (p.hasMore ==> |data| == p.limit)
    && (forall k :: 0 <= k < |data| ==> skip + k < |rows| && data[k] == rows[skip + k])
    && SortedDesc(data, rank)
  }

  /** The page the route cuts from the ordered rows. */
  function PageOfRows(rows: seq<Task>, query: TaskQuery): TaskPage {
    var pagination := Paginate(|rows|, query.page, query.limit);
    TaskPage(PageOf(rows, SkipOf(pagination.page, pagination.limit), pagination.limit), pagination)
  }

  /** The page the route answers with for a valid `where`. */
  function ListPage(tasks: seq<Task>, where: Where, query: TaskQuery, rank: Task -> int): TaskPage {
    PageOfRows(Ordered(tasks, where, rank), query)
  }

  /** The route's page agrees with the ordered matching tasks. */
  lemma ListPageFacts(tasks: seq<Task>, where: Where, query: TaskQuery, rank: Task -> int)
    ensures PageAgrees(ListPage(tasks, where, query, rank), tasks, where, query, rank)
  {
    var rows := Ordered(tasks, where, rank);
    WindowOfRows(rows, query, rank);
    var data := PageOfRows(rows, query).data;
    forall t | t in data
      ensures t in tasks && Matches(t, where)
    {
      var k :| 0 <= k < |data| && data[k] == t;
    }
  }

  /** The page cut from sorted rows is their window. */
  lemma WindowOfRows(rows: seq<Task>, query: TaskQuery, rank: Task -> int)
    requires SortedDesc(rows, rank)
    ensures Window(PageOfRows(rows, query), rows, query, rank)
  {
    var p := Paginate(|rows|, query.page, query.limit);
    var skip := SkipOf(p.page, p.limit);
    PageFacts(rows, p, rank);
    assert p.hasMore ==> skip + p.limit < p.total;
  }

  /** The page a pagination block selects from sorted rows: exactly the
      rows that remain, up to the limit, and still sorted. */
  lemma PageFacts(rows: seq<Task>, p: Pagination, rank: Task -> int)
    requires p.page >= 1 && p.limit >= 1 && p.total == |rows|
    requires SortedDesc(rows, rank)
    ensures var skip := SkipOf(p.page, p.limit);
      var data := PageOf(rows, skip, p.limit);
      && |data| == (if skip >= p.total then 0 else if skip + p.limit <= p.total then p.limit else p.total - skip)
      && (forall k :: 0 <= k < |data| ==> skip + k < |rows| && data[k] == rows[skip + k])
      && SortedDesc(data, rank)
  {
    PageKeepsOrder(rows, SkipOf(p.page, p.limit), p.limit, rank);
  }

  /** A page of a sorted sequence is sorted. */
  lemma PageKeepsOrder(rows: seq<Task>, skip: nat, limit: nat, rank: Task -> int)
    requires SortedDesc(rows, rank)
    ensures SortedDesc(PageOf(rows, skip, limit), rank)
  {
    var page := PageOf(rows, skip, limit);
    forall i, j | 0 <= i < j < |page|
      ensures rank(page[i]) >= rank(page[j])
    {
      assert page[i] == rows[skip + i] && page[j] == rows[skip + j];
    }
  }

  /** The weight of a priority in the enum's declared order. */
  function PriorityWeight(p: Priority): int {
    match p
    case Low => 0
    case Medium => 1
    case High => 2
  }

  /** When the store's order puts a higher priority first, as
      `priority: "desc"` does, every page lists higher priorities before
      lower ones. */
  lemma PagesFollowPriority(tasks: seq<Task>, user: Claims, query: TaskQuery, isCuid: string -> bool, rank: Task -> int)
    requires forall a: Task, b: Task :: PriorityWeight(a.priority) > PriorityWeight(b.priority) ==> rank(a) > rank(b)
    ensures var r := ListTasks(tasks, user, query, isCuid, rank);
      r.Json? ==>
        forall i, j :: 0 <= i < j < |r.body.data| ==>
          PriorityWeight(r.body.data[i].priority) >= PriorityWeight(r.body.data[j].priority)
  {
    var r := ListTasks(tasks, user, query, isCuid, rank);
    if r.Json? {
      var data := r.body.data;
      forall i, j | 0 <= i < j < |data|
        ensures PriorityWeight(data[i].priority) >= PriorityWeight(data[j].priority)
      {
        assert rank(data[i]) >= rank(data[j]);
      }
    }
  }

  /** A volunteer who passes no `assignedTo` filter sees only tasks assigned
      to them. */
  lemma VolunteerSeesOwnTasks(tasks: seq<Task>, user: Claims, query: TaskQuery, isCuid: string -> bool, rank: Task -> int)
    requires user.role == Volunteer && query.filters.assignedTo.None?
    ensures var r := ListTasks(tasks, user, query, isCuid, rank);
      r.Json? ==> forall t :: t in r.body.data ==> t.assignedTo == Some(user.userId)
  {
  }

  /** A volunteer who passes a valid `assignedTo` filter naming someone else
      sees that person's tasks: the filter replaces the volunteer
      restriction. */
  lemma AssigneeFilterOverridesVolunteerScope(
    tasks: seq<Task>, user: Claims, query: TaskQuery, isCuid: string -> bool, rank: Task -> int, other: string)
    requires user.role == Volunteer
    requires query.filters == FilterInput(None, None, Some(other))
    requires other != "" && isCuid(other)
    ensures var r := ListTasks(tasks, user, query, isCuid, rank);
      && r.Json?
      && r.body.pagination.total == |Filter(tasks, (t: Task) => t.assignedTo == Some(other))|
  {
    var filters := TaskFiltersSchema(query.filters, isCuid).value;
    var w := BuildWhere(user, filters);
    assert w == Where(Some(other), None, None);
    assert forall t :: Matches(t, w) == (t.assignedTo == Some(other));
    FilterSamePredicate(tasks, (t: Task) => Matches(t, w), (t: Task) => t.assignedTo == Some(other));
  }

  lemma {:induction false} FilterSamePredicate(s: seq<Task>, p: Task -> bool, q: Task -> bool)
    requires forall t :: p(t) == q(t)
    ensures Filter(s, p) == Filter(s, q)
  {
    if |s| > 0 {
      FilterSamePredicate(s[1..], p, q);
    }
  }

  // ---------------------------------------------------------------------
  // POST /tasks

  /** The creation handler; `newId` is the identifier the store assigns, and
      the status is the store's default, PENDING. */
  function CreateTask(
    tasks: seq<Task>, user: Claims, input: CreateTaskInput,
    isCuid: string -> bool, isDate: string -> bool, newId: string)
    : (r: (Response<Task>, seq<Task>))
    ensures CreateTaskSchema(input, isCuid, isDate).None? ==> r == (Fail(400, ValidationFailed), tasks)
    ensures r.0.Json? <==> CreateTaskSchema(input, isCuid, isDate).Some?
    ensures r.0.Json? ==>
      var v := CreateTaskSchema(input, isCuid, isDate).value;
      && r.0.status == 201
      && r.0.body == Task(newId, v.title, v.description, Pending, v.priority, v.dueDate, Some(v.assignedTo), user.userId)
      && r.1 == tasks + [r.0.body]
  {
    match CreateTaskSchema(input, isCuid, isDate)
    case None => (Fail(400, ValidationFailed), tasks)
    case Some(v) =>
      var created := Task(newId, v.title, v.description, Pending, v.priority, v.dueDate, Some(v.assignedTo), user.userId);
      (Json(201, created, None), tasks + [created])
  }

  /** `POST /tasks`, wrapped by the role gate with the allow-list `[ADMIN]`:
      only an administrator creates tasks, and the creator is recorded. */
  function CreateTaskRoute(
    req: Request, input: CreateTaskInput, tasks: seq<Task>,
    verifyToken: string -> Option<Claims>, isCuid: string -> bool, isDate: string -> bool, newId: string)
    : (r: (Response<Task>, seq<Task>))
    ensures r.0.Json? ==>
      var user := Rbac.Authenticate(req, verifyToken).user;
      user.Some? && user.value.role == Admin && r.0.body.createdBy == user.value.userId
    ensures var user := Rbac.Authenticate(req, verifyToken).user;
      user.Some? && user.value.role == Volunteer ==> r == (Fail(403, Rbac.ForbiddenMessage), tasks)
    ensures r.0.Fail? ==> r.1 == tasks
    ensures var a := Rbac.Authenticate(req, verifyToken);
      a.user.None? ==> r == (Fail(401, a.error.value), tasks)
    ensures var user := Rbac.Authenticate(req, verifyToken).user;
      user.Some? && user.value.role == Admin ==> r == CreateTask(tasks, user.value, input, isCuid, isDate, newId)
  {
    Rbac.WithAuth(req, None, Some([Admin]), verifyToken, tasks,
      (u: Claims, ctx: Rbac.Context, s: seq<Task>) => CreateTask(s, u, input, isCuid, isDate, newId))
  }
}
