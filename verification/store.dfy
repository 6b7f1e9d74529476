/** The persistent store's entities, as immutable records kept in sequences,
    and the unique-key lookups the routes perform on them. */
module Store {
  import opened Common
  import opened Seqs

  datatype User = User(
    id: string,
    name: string,
    email: string,
    passwordHash: string,
    role: Role,
    avatar: Option<string>,
    createdAt: int)

  /** One attendance session. `date` is the check-in day (a day value at
      local midnight); the times are instants in milliseconds. */
  datatype Attendance = Attendance(
    id: string,
    userId: string,
    date: int,
    checkInTime: int,
    checkOutTime: Option<int>,
    durationMinutes: Option<int>,
    notes: Option<string>)

  datatype TaskStatus = Pending | InProgress | Completed
  datatype Priority = Low | Medium | High
  datatype ReviewStatus = ReviewPending | Approved | Rejected | NeedsRevision

  datatype Task = Task(
    id: string,
    title: string,
    description: string,
    status: TaskStatus,
    priority: Priority,
    dueDate: string,
    assignedTo: Option<string>,
    createdBy: string)

  datatype Submission = Submission(
    id: string,
    taskId: string,
    userId: string,
    content: Option<string>,
    fileUrl: Option<string>,
    fileName: Option<string>,
    fileSize: Option<int>,
    reviewStatus: ReviewStatus,
    reviewNotes: Option<string>,
    submittedAt: int)

  /** `findUnique` on a user's id. */
  function FindUserById(users: seq<User>, id: string): Option<User> {
    Find(users, (u: User) => u.id == id)
  }

  /** `findUnique` on a user's email. */
  function FindUserByEmail(users: seq<User>, email: string): Option<User> {
    Find(users, (u: User) => u.email == email)
  }

  /** `findUnique` on a task's id. */
  function FindTask(tasks: seq<Task>, id: string): Option<Task> {
    Find(tasks, (t: Task) => t.id == id)
  }

  /** The user fields a joined row selects: id, name and email. */
  datatype UserRef = UserRef(id: string, name: string, email: string)

  /** The user fields a joined row selects when the email is left out. */
  datatype NameRef = NameRef(id: string, name: string)

  /** The store's unique index on email. */
  ghost predicate UniqueEmails(users: seq<User>) {
    forall i, j :: 0 <= i < j < |users| ==> users[i].email != users[j].email
  }
}
