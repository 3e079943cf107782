/** The PATCH handler for students (app/routes/api.patch-student.ts). */
module PatchStudent {
  import opened Wrappers
  import opened Responses
  import opened Schemas
  import opened UpdateSets

  /** The stored student's columns the handler compares against. */
  datatype Student = Student(name: string, email: string, regNo: string)

  const StudentMissing: Reply := Json(false, Some("Student missing"), 200)

  /** The columns the student handler can write. */
  const StudentColumns: set<Column> := {Password, Name, Email, RegNo}

  /** Whether the handler puts column `c` into `updatedData`. */
  predicate Writes(c: Column, body: StudentPayload, s: Student)
  {
    match c
    case Password => Truthy(body.password)
    case Name => Changed(body.name, s.name)
    case Email => Changed(body.email, s.email)
    case RegNo => Changed(body.regNo, s.regNo)
    case _ => false
  }

  /** The value the handler writes for column `c`. */
  function WrittenValue(c: Column, body: StudentPayload, s: Student, hash: string -> string): Value
    requires Writes(c, body, s)
  {
    match c
    case Password => Hashed(hash(body.password.value))
    case Name => Text(body.name.value)
    case Email => Text(body.email.value)
    case RegNo => Text(body.regNo.value)
  }

  /** The update set, column by column. */
  function StudentUpdate(body: StudentPayload, s: Student, hash: string -> string): (u: UpdateSet)
    ensures u.Keys <= StudentColumns
    ensures forall c :: c in u <==> c in StudentColumns && Writes(c, body, s)
    ensures Truthy(body.password) ==> Password in u && u[Password] == Hashed(hash(body.password.value))
  {
    map c | c in StudentColumns && Writes(c, body, s) :: WrittenValue(c, body, s, hash)
  }

  /** `u` holds column `c` exactly when the handler writes it, with the value it writes. */
  predicate Agrees(u: UpdateSet, c: Column, body: StudentPayload, s: Student, hash: string -> string)
  {
    (c in u <==> Writes(c, body, s)) && (c in u ==> u[c] == WrittenValue(c, body, s, hash))
  }

  /** The update set is determined by which columns are written and with what. */
  lemma IsStudentUpdate(u: UpdateSet, body: StudentPayload, s: Student, hash: string -> string)
    requires u.Keys <= StudentColumns
    requires forall c :: c in StudentColumns ==> Agrees(u, c, body, s, hash)
    ensures u == StudentUpdate(body, s, hash)
  {
    var spec := StudentUpdate(body, s, hash);
    assert u.Keys == spec.Keys;
    assert forall c :: c in u ==> u[c] == spec[c];
  }

  /** The `updatedData` object, built field by field. */
  method BuildStudentUpdate(body: StudentPayload, student: Student, hash: string -> string)
    returns (updatedData: UpdateSet)
    ensures updatedData.Keys <= StudentColumns
    ensures Agrees(updatedData, Password, body, student, hash)
    ensures Agrees(updatedData, Name, body, student, hash)
    ensures Agrees(updatedData, Email, body, student, hash)
    ensures Agrees(updatedData, RegNo, body, student, hash)
  {
    updatedData := map[];
    if Truthy(body.password) {
      updatedData := updatedData[Password := Hashed(hash(body.password.value))];
    }
    if Changed(body.name, student.name) {
      updatedData := updatedData[Name := Text(body.name.value)];
    }
    if Changed(body.email, student.email) {
      updatedData := updatedData[Email := Text(body.email.value)];
    }
    if Changed(body.regNo, student.regNo) {
      updatedData := updatedData[RegNo := Text(body.regNo.value)];
    }
  }

  /** The student as the store holds it after `u` is written. */
  function Patched(s: Student, u: UpdateSet): Student
  {
    Student(
      if Name in u && u[Name].Text? then u[Name].text else s.name,
      if Email in u && u[Email].Text? then u[Email].text else s.email,
      if RegNo in u && u[RegNo].Text? then u[RegNo].text else s.regNo)
  }

  /**
   * The request handler; the database is a parameter as for teachers.
   * `sent` is the update set handed to `db.student.update`, if any.
   */
  method PatchStudent(
    connected: bool, lookup: Lookup<Student>, body: StudentPayload,
    hash: string -> string, writeFault: Option<Failure>)
    returns (reply: Reply, sent: Option<UpdateSet>)
    ensures !connected ==> reply == NoDatabase && sent == None
    ensures connected && lookup.Threw? ==> reply == FailureReply(lookup.failure) && sent == None
    ensures connected && lookup.Missing? ==> reply == StudentMissing && sent == None
    ensures connected && lookup.Found? ==>
      var u := StudentUpdate(body, lookup.record, hash);
      if u == map[] then reply == NoDataProvided && sent == None
      else reply == WriteReply(writeFault) && sent == Some(u)
  {
    sent := None;
    if !connected {
      reply := NoDatabase;
      return;
    }
    if lookup.Threw? {
      reply := FailureReply(lookup.failure);
      return;
    }
    if lookup.Missing? {
      reply := StudentMissing;
      return;
    }
    var student := lookup.record;
    var updatedData := BuildStudentUpdate(body, student, hash);
    IsStudentUpdate(updatedData, body, student, hash);
    if |updatedData| == 0 {
      reply := NoDataProvided;
      return;
    }
    sent := Some(updatedData);
    reply := WriteReply(writeFault);
  }

  /**
   * The update set is empty exactly when no password is sent and every other
   * sent field is falsy or equal to what is stored.
   */
  lemma NoDataExactlyWhenNothingChanges(body: StudentPayload, s: Student, hash: string -> string)
    ensures StudentUpdate(body, s, hash) == map[] <==>
      !Truthy(body.password) && !Changed(body.name, s.name) && !Changed(body.email, s.email)
      && !Changed(body.regNo, s.regNo)
  {
  }

  /** Sending the same body again after the update is stored writes nothing, unless it carries a password. */
  lemma ResubmitWritesNothing(body: StudentPayload, s: Student, hash: string -> string)
    requires !Truthy(body.password)
    ensures StudentUpdate(body, Patched(s, StudentUpdate(body, s, hash)), hash) == map[]
  {
  }

  /** A payload that passed `studentSchema` only ever stores the digest of a password of six characters or more. */
  lemma ValidPayloadStoresLongPassword(body: StudentPayload, s: Student, hash: string -> string, isEmail: string -> bool)
    requires StudentValid(body, isEmail)
    ensures Password in StudentUpdate(body, s, hash) ==> |body.password.value| >= SecretMinLength
  {
  }
}
