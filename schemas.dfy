/**
 * The form schemas of app/lib/zod.ts: the payload shapes, what makes each
 * valid, and the issues zod reports for the fields that are not.
 * Each field is `None` when it is missing from the payload.
 */
module Schemas {
  import opened Wrappers

  datatype TeacherPayload = TeacherPayload(
    name: Option<string>, email: Option<string>, password: Option<string>,
    department: Option<string>, staffNo: Option<string>, unit: Option<string>)

  datatype StudentPayload = StudentPayload(
    name: Option<string>, email: Option<string>, password: Option<string>, regNo: Option<string>)

  datatype AdminPayload = AdminPayload(name: Option<string>, email: Option<string>, authCode: Option<string>)

  datatype StudentLogin = StudentLogin(regNo: Option<string>, password: Option<string>)
  datatype StaffLogin = StaffLogin(staffNo: Option<string>, password: Option<string>)
  datatype AdminLogin = AdminLogin(authCode: Option<string>)

  /** One failed check: the field's name and the message zod reports. */
  datatype Issue = Issue(path: string, message: string)

  /** The shortest secret the optional password and auth-code fields accept. */
  const SecretMinLength: nat := 6

  /** `z.string().min(n)`: present, and at least `n` characters. */
  predicate AtLeast(v: Option<string>, n: nat)
  {
    v.Some? && |v.value| >= n
  }

  /** `z.string().email()`; zod's address pattern is the parameter `isEmail`. */
  predicate EmailValid(v: Option<string>, isEmail: string -> bool)
  {
    v.Some? && isEmail(v.value)
  }

  /** `z.string().optional().refine(val => !val || val.length >= 6)`: an empty secret passes. */
  predicate OptionalSecretValid(v: Option<string>)
  {
    v.None? || v.value == "" || |v.value| >= SecretMinLength
  }

  predicate TeacherValid(p: TeacherPayload, isEmail: string -> bool)
  {
    && AtLeast(p.name, 1)
    && EmailValid(p.email, isEmail)
    && OptionalSecretValid(p.password)
    && AtLeast(p.department, 1)
    && AtLeast(p.staffNo, 1)
    && AtLeast(p.unit, 1)
  }

  predicate StudentValid(p: StudentPayload, isEmail: string -> bool)
  {
    && AtLeast(p.name, 1)
    && EmailValid(p.email, isEmail)
    && OptionalSecretValid(p.password)
    && AtLeast(p.regNo, 1)
  }

  predicate AdminValid(p: AdminPayload, isEmail: string -> bool)
  {
    && AtLeast(p.name, 1)
    && EmailValid(p.email, isEmail)
    && OptionalSecretValid(p.authCode)
  }

  predicate StudentLoginValid(p: StudentLogin)
  {
    AtLeast(p.regNo, 1) && AtLeast(p.password, 2)
  }

  predicate StaffLoginValid(p: StaffLogin)
  {
    AtLeast(p.staffNo, 1) && AtLeast(p.password, 6)
  }

  predicate AdminLoginValid(p: AdminLogin)
  {
    AtLeast(p.authCode, 6)
  }

  /** A required string field: zod reports "Required" when it is missing, the schema's message when it is short. */
  function MinIssues(path: string, v: Option<string>, n: nat, message: string): seq<Issue>
  {
    if v.None? then [Issue(path, "Required")]
    else if |v.value| < n then [Issue(path, message)]
    else []
  }

  function EmailIssues(path: string, v: Option<string>, isEmail: string -> bool): seq<Issue>
  {
    if v.None? then [Issue(path, "Required")]
    else if !isEmail(v.value) then [Issue(path, "Invalid email")]
    else []
  }

  function SecretIssues(path: string, v: Option<string>): seq<Issue>
  {
    if OptionalSecretValid(v) then [] else [Issue(path, "Password must be at lease 6 characters")]
  }

  /** `teacherSchema.safeParse`: the issues in field order; none exactly when the payload is valid. */
  function TeacherIssues(p: TeacherPayload, isEmail: string -> bool): (issues: seq<Issue>)
    ensures issues == [] <==> TeacherValid(p, isEmail)
    ensures forall i :: 0 <= i < |issues| ==>
      issues[i].path in {"name", "email", "password", "department", "staff_no", "unit"}
  {
    MinIssues("name", p.name, 1, "Name is required")
    + EmailIssues("email", p.email, isEmail)
    + SecretIssues("password", p.password)
    + MinIssues("department", p.department, 1, "Deparment is required")
    + MinIssues("staff_no", p.staffNo, 1, "Deparment is required")
    + MinIssues("unit", p.unit, 1, "Unit is required")
  }

  /** `studentSchema.safeParse` */
  function StudentIssues(p: StudentPayload, isEmail: string -> bool): (issues: seq<Issue>)
    ensures issues == [] <==> StudentValid(p, isEmail)
    ensures forall i :: 0 <= i < |issues| ==> issues[i].path in {"name", "email", "password", "reg_no"}
  {
    MinIssues("name", p.name, 1, "Name is required")
    + EmailIssues("email", p.email, isEmail)
    + SecretIssues("password", p.password)
    + MinIssues("reg_no", p.regNo, 1, "Deparment is required")
  }

  /** `AdminSchema.safeParse` */
  function AdminIssues(p: AdminPayload, isEmail: string -> bool): (issues: seq<Issue>)
    ensures issues == [] <==> AdminValid(p, isEmail)
    ensures forall i :: 0 <= i < |issues| ==> issues[i].path in {"name", "email", "auth_code"}
  {
    MinIssues("name", p.name, 1, "Name is required")
    + EmailIssues("email", p.email, isEmail)
    + SecretIssues("auth_code", p.authCode)
  }

  /** `Schemas.student.safeParse` */
  function StudentLoginIssues(p: StudentLogin): (issues: seq<Issue>)
    ensures issues == [] <==> StudentLoginValid(p)
  {
    MinIssues("reg_no", p.regNo, 1, "Registration number required")
    + MinIssues("password", p.password, 2, "Password required")
  }

  /** `Schemas.staff.safeParse` */
  function StaffLoginIssues(p: StaffLogin): (issues: seq<Issue>)
    ensures issues == [] <==> StaffLoginValid(p)
  {
    MinIssues("staff_no", p.staffNo, 1, "Staff number required")
    + MinIssues("password", p.password, 6, "Password cannot be less than 6 characters")
  }

  /** `Schemas.admin.safeParse` */
  function AdminLoginIssues(p: AdminLogin): (issues: seq<Issue>)
    ensures issues == [] <==> AdminLoginValid(p)
  {
    MinIssues("auth_code", p.authCode, 6, "Auth code cannot be less than 6 characters")
  }

  /**
   * The `!val` test lets an absent or empty secret through without an
   * issue, while a secret of one to five characters raises exactly one
   * issue on its own field.
   */
  lemma EmptySecretPasses(path: string, s: string)
    ensures SecretIssues(path, None) == [] && SecretIssues(path, Some("")) == []
    ensures 0 < |s| < SecretMinLength ==>
      SecretIssues(path, Some(s)) == [Issue(path, "Password must be at lease 6 characters")]
    ensures |s| >= SecretMinLength ==> SecretIssues(path, Some(s)) == []
  {
  }

  /**
   * A student may log in with a password the student schema would never
   * have accepted when the account was edited: two to five characters.
   */
  lemma StudentLoginAcceptsShortPasswords(regNo: string, password: string)
    requires |regNo| >= 1 && 2 <= |password| < SecretMinLength
    ensures StudentLoginValid(StudentLogin(Some(regNo), Some(password)))
    ensures !OptionalSecretValid(Some(password))
  {
  }
}
