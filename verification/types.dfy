/** The application's shared record types. */
module Types {
  import opened Common

  datatype Role = Admin | Teacher | FormMaster | Principal | Parent

  /** `Object.values(UserRole)`, in declaration order. */
  const ALL_ROLES: seq<Role> := [Admin, Teacher, FormMaster, Principal, Parent]

  datatype UserStatus = Active | Suspended

  datatype User = User(id: string, name: string, email: string, role: Role, status: UserStatus)

  datatype ClassLevel = ClassLevel(id: string, name: string)

  datatype Arm = Arm(id: string, name: string)

  datatype Gender = M | F

  datatype Student = Student(
    id: string, admissionNo: string, firstName: string, lastName: string,
    gender: Gender, classId: string, armId: string, parentId: string)

  datatype AcademicSession = AcademicSession(id: string, name: string, active: bool)

  datatype TermName = First | Second | Third

  datatype Term = Term(id: string, name: TermName, sessionId: string, active: bool)

  datatype Subject = Subject(id: string, name: string, code: string)

  /** One score row. `id` is optional, as in the source; the five components
      carry the nominal maxima 10, 10, 10, 10 and 60 only as comments there,
      so nothing here bounds them. */
  datatype Score = Score(
    id: Option<string>,
    studentId: string, subjectId: string, termId: string, sessionId: string,
    ca1: int, ca2: int, assignment: int, notes: int, exam: int,
    total: int, grade: string, isLocked: bool)

  datatype AuditLog = AuditLog(
    id: string, userId: string, userRole: Role, action: string,
    affectedRecord: string, timestamp: string, ipAddress: string)

  /** Declared as a type only; no shown code implements PIN behaviour. */
  datatype ResultPin = ResultPin(
    pin: string, studentId: string, termId: string,
    usageCount: int, maxUsage: int, expiryDate: string)
}
