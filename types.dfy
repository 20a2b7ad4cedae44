/** The domain records of the application (users, assignments, per-student
    assignment data, notifications). Timestamps are milliseconds since the
    Unix epoch; the ISO date strings of the data become such integers. */
module Types {
  import opened Wrappers

  datatype Role = Student | Parent | Admin

  /** The string the application stores for a role. */
  function RoleName(r: Role): string {
    match r
    case Student => "student"
    case Parent => "parent"
    case Admin => "admin"
  }

  datatype Status = Pending | Completed | Late

  /** The string the application stores for a status (and compares with the
      value of the status drop-down). */
  function StatusName(s: Status): (r: string)
    ensures r != ""
  {
    match s
    case Pending => "pending"
    case Completed => "completed"
    case Late => "late"
  }

  datatype NotificationType = Info | Warning | Success | Error

  type Timestamp = int

  datatype User = User(
    id: string,
    name: string,
    email: string,
    role: Role,
    parentOf: Option<seq<string>>,  // the ids of a parent's children
    parentId: Option<string>        // a student's parent
  )

  /** The fields a student assignment adds to an assignment. */
  datatype Progress = Progress(
    progress: int,
    submittedAt: Option<Timestamp>,
    feedback: Option<string>,
    grade: Option<string>
  )

  /** An assignment; `student` holds the extra fields when the value is a
      student assignment (which the application passes wherever an assignment
      is expected). */
  datatype Assignment = Assignment(
    id: string,
    title: string,
    description: string,
    dueDate: Timestamp,
    subject: string,
    createdAt: Timestamp,
    createdBy: string,
    status: Status,
    attachments: Option<seq<string>>,
    student: Option<Progress>
  )

  datatype Notification = Notification(
    id: string,
    userId: string,
    message: string,
    kind: NotificationType,
    read: bool,
    createdAt: Timestamp
  )

  function RoleIs(r: Role): User -> bool {
    (u: User) => u.role == r
  }

  function StatusIs(st: Status): Assignment -> bool {
    (a: Assignment) => a.status == st
  }
}
