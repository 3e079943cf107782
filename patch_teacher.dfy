/** The PATCH handler for teachers (app/routes/api.patch-teacher.ts). */
module PatchTeacher {
  import opened Wrappers
  import opened Responses
  import opened Schemas
  import opened UpdateSets

  /**
   * The stored teacher as `findUnique` returns it with its relations: the id
   * of its unit and of its department, `None` when the relation is absent.
   */
  datatype Teacher = Teacher(staffNo: string, name: string, email: string, unitId: Option<string>, departmentId: Option<string>)

  const TeacherMissing: Reply := Json(false, Some("Teacher missing"), 200)

  /** The columns the teacher handler can write. */
  const TeacherColumns: set<Column> := {Password, Unit, StaffNo, Name, Email}

  /**
   * `teacher.unit.id` is read whenever `body.unit` is truthy; on a teacher
   * without a unit it throws a TypeError, which the `catch` block answers
   * with its default branch.
   */
  predicate UnitReadThrows(body: TeacherPayload, t: Teacher)
  {
    Truthy(body.unit) && t.unitId.None?
  }

  /** A truthy `department` that differs from the stored department id. */
  predicate DepartmentChanged(body: TeacherPayload, t: Teacher)
  {
    Truthy(body.department) && body.department != t.departmentId
  }

  /** Whether the handler puts column `c` into `updatedData`. */
  predicate Writes(c: Column, body: TeacherPayload, t: Teacher)
  {
    match c
    case Password => Truthy(body.password)
    case Unit => (Truthy(body.unit) && body.unit != t.unitId) || DepartmentChanged(body, t)
    case StaffNo => Changed(body.staffNo, t.staffNo)
    case Name => Changed(body.name, t.name)
    case Email => Changed(body.email, t.email)
    case _ => false
  }

  /** The value the handler writes for column `c`. */
  function WrittenValue(c: Column, body: TeacherPayload, t: Teacher, hash: string -> string): Value
    requires Writes(c, body, t)
  {
    match c
    case Password => Hashed(hash(body.password.value))
    case Unit => ConnectUnit(body.unit)
    case StaffNo => Text(body.staffNo.value)
    case Name => Text(body.name.value)
    case Email => Text(body.email.value)
  }

  /** The update set, column by column. */
  function TeacherUpdate(body: TeacherPayload, t: Teacher, hash: string -> string): (u: UpdateSet)
    ensures u.Keys <= TeacherColumns && Department !in u
    ensures forall c :: c in u <==> c in TeacherColumns && Writes(c, body, t)
    ensures Truthy(body.password) ==> Password in u && u[Password] == Hashed(hash(body.password.value))
    ensures Unit in u ==> u[Unit] == ConnectUnit(body.unit)
  {
    map c | c in TeacherColumns && Writes(c, body, t) :: WrittenValue(c, body, t, hash)
  }

  /**
   * The teacher as the store holds it after `u` is written: each written
   * column takes the written value, a unit connection sets the unit id.
   */
  function Patched(t: Teacher, u: UpdateSet): Teacher
  {
    Teacher(
      if StaffNo in u && u[StaffNo].Text? then u[StaffNo].text else t.staffNo,
      if Name in u && u[Name].Text? then u[Name].text else t.name,
      if Email in u && u[Email].Text? then u[Email].text else t.email,
      if Unit in u && u[Unit].ConnectUnit? then u[Unit].id else t.unitId,
      t.departmentId)
  }

  /** `u` holds column `c` exactly when the handler writes it, with the value it writes. */
  predicate Agrees(u: UpdateSet, c: Column, body: TeacherPayload, t: Teacher, hash: string -> string)
  {
    (c in u <==> Writes(c, body, t)) && (c in u ==> u[c] == WrittenValue(c, body, t, hash))
  }

  /** The update set is determined by which columns are written and with what. */
  lemma IsTeacherUpdate(u: UpdateSet, body: TeacherPayload, t: Teacher, hash: string -> string)
    requires u.Keys <= TeacherColumns
    requires forall c :: c in TeacherColumns ==> Agrees(u, c, body, t, hash)
    ensures u == TeacherUpdate(body, t, hash)
  {
    var spec := TeacherUpdate(body, t, hash);
    assert u.Keys == spec.Keys;
    assert forall c :: c in u ==> u[c] == spec[c];
  }

  /**
   * The `updatedData` object, built field by field. The handler has already
   * answered the case where reading `teacher.unit.id` throws.
   */
  method BuildTeacherUpdate(body: TeacherPayload, teacher: Teacher, hash: string -> string)
    returns (updatedData: UpdateSet)
    requires !UnitReadThrows(body, teacher)
    ensures updatedData.Keys <= TeacherColumns
    ensures Agrees(updatedData, Password, body, teacher, hash) && Agrees(updatedData, Unit, body, teacher, hash)
    ensures Agrees(updatedData, StaffNo, body, teacher, hash) && Agrees(updatedData, Name, body, teacher, hash)
    ensures Agrees(updatedData, Email, body, teacher, hash)
  {
    updatedData := map[];
    if Truthy(body.password) {
      updatedData := updatedData[Password := Hashed(hash(body.password.value))];
    }
    if Truthy(body.unit) && body.unit != teacher.unitId {
      updatedData := updatedData[Unit := ConnectUnit(body.unit)];
    }
    if Truthy(body.department) && body.department != teacher.departmentId {
      updatedData := updatedData[Unit := ConnectUnit(body.unit)];
    }
    if Changed(body.staffNo, teacher.staffNo) {
      updatedData := updatedData[StaffNo := Text(body.staffNo.value)];
    }
    if Changed(body.name, teacher.name) {
      updatedData := updatedData[Name := Text(body.name.value)];
    }
    if Changed(body.email, teacher.email) {
      updatedData := updatedData[Email := Text(body.email.value)];
    }
  }

  /**
   * The request handler. The database is a parameter: whether a connection
   * exists, what `findUnique` gives, and whether `update` throws; bcrypt is
   * `hash`. `sent` is the update set handed to `db.teacher.update`, if any.
   */
  method PatchTeacher(
    connected: bool, lookup: Lookup<Teacher>, body: TeacherPayload,
    hash: string -> string, writeFault: Option<Failure>)
    returns (reply: Reply, sent: Option<UpdateSet>)
    ensures !connected ==> reply == NoDatabase && sent == None
    ensures connected && lookup.Threw? ==> reply == FailureReply(lookup.failure) && sent == None
    ensures connected && lookup.Missing? ==> reply == TeacherMissing && sent == None
    ensures connected && lookup.Found? && UnitReadThrows(body, lookup.record) ==>
      reply == FailureReply(Unexpected) && sent == None
    ensures connected && lookup.Found? && !UnitReadThrows(body, lookup.record) ==>
      var u := TeacherUpdate(body, lookup.record, hash);
      if u == map[] then reply == NoDataProvided && sent == None
      else reply == WriteReply(writeFault) && sent == Some(u)
  {
    sent := None;
    if !connected {
      reply := NoDatabase;
      return;
    }
    if lookup.Threw? {
      reply := FailureReply(lookup.failure);
      return;
    }
    if lookup.Missing? {
      reply := TeacherMissing;
      return;
    }
    var teacher := lookup.record;
    if UnitReadThrows(body, teacher) {
      reply := FailureReply(Unexpected);
      return;
    }
    var updatedData := BuildTeacherUpdate(body, teacher, hash);
    IsTeacherUpdate(updatedData, body, teacher, hash);
    if |updatedData| == 0 {
      reply := NoDataProvided;
      return;
    }
    sent := Some(updatedData);
    reply := WriteReply(writeFault);
  }

  /**
   * The update set is empty exactly when no password is sent, the unit is
   * falsy or the stored one, the department is falsy or the stored one, and
   * every other sent field is falsy or equal to what is stored.
   */
  lemma NoDataExactlyWhenNothingChanges(body: TeacherPayload, t: Teacher, hash: string -> string)
    ensures TeacherUpdate(body, t, hash) == map[] <==>
      && !Truthy(body.password)
      && !(Truthy(body.unit) && body.unit != t.unitId)
      && !DepartmentChanged(body, t)
      && !Changed(body.staffNo, t.staffNo) && !Changed(body.name, t.name) && !Changed(body.email, t.email)
  {
  }

  /**
   * On a teacher whose unit can be read (otherwise reading `teacher.unit.id`
   * throws before the department is looked at), a changed department writes
   * the `unit` key, connecting to `body.unit` (missing when the body names no
   * unit), and never a `department` key.
   */
  lemma DepartmentChangeWritesUnit(body: TeacherPayload, t: Teacher, hash: string -> string)
    requires !UnitReadThrows(body, t) && DepartmentChanged(body, t)
    ensures var u := TeacherUpdate(body, t, hash);
      Unit in u && u[Unit] == ConnectUnit(body.unit) && Department !in u
  {
  }

  /**
   * Sending the same body again after the update is stored writes nothing,
   * unless it carries a password (always re-hashed) or a changed department
   * (never stored, so it differs every time).
   */
  lemma ResubmitWritesNothing(body: TeacherPayload, t: Teacher, hash: string -> string)
    requires !UnitReadThrows(body, t) && !Truthy(body.password) && !DepartmentChanged(body, t)
    ensures var t' := Patched(t, TeacherUpdate(body, t, hash));
      !UnitReadThrows(body, t') && TeacherUpdate(body, t', hash) == map[]
  {
  }

  /** A payload that passed `teacherSchema` only ever stores the digest of a password of six characters or more. */
  lemma ValidPayloadStoresLongPassword(body: TeacherPayload, t: Teacher, hash: string -> string, isEmail: string -> bool)
    requires TeacherValid(body, isEmail)
    ensures Password in TeacherUpdate(body, t, hash) ==> |body.password.value| >= SecretMinLength
  {
  }
}
