/**
 * The enrolment page (app/routes/student.enroll.tsx): the client-side list of
 * chosen unit ids, the units submitted from it, and the action that records
 * one enrolment per submitted unit.
 */
module StudentEnroll {
  import opened Wrappers
  import opened JsArrays
  import opened Responses

  /** `id => id !== unitId` */
  function Without(unitId: string): string -> bool
  {
    id => id != unitId
  }

  /**
   * `handleEnroll(unitId)`: a chosen id is dropped (every occurrence), an
   * unchosen one is appended.
   */
  function Toggle(prev: seq<string>, unitId: string): (next: seq<string>)
    ensures unitId in next <==> unitId !in prev
    ensures forall id :: id != unitId ==> (id in next <==> id in prev)
    ensures unitId !in prev ==> next == prev + [unitId]
    ensures unitId in prev ==> IsSubsequence(next, prev) && multiset(next) == multiset(prev)[unitId := 0]
  {
    if unitId in prev then
      var next := Filter(prev, Without(unitId));
      assert forall x :: multiset(next)[x] == multiset(prev)[unitId := 0][x];
      next
    else prev + [unitId]
  }

  /** Toggling keeps the chosen list free of duplicates. */
  lemma ToggleKeepsDistinct(prev: seq<string>, unitId: string)
    requires Distinct(prev)
    ensures Distinct(Toggle(prev, unitId))
  {
    if unitId in prev {
      FilterKeepsDistinct(prev, Without(unitId));
    } else {
      var next := prev + [unitId];
      forall i, j | 0 <= i < j < |next| ensures next[i] != next[j] {
        if j == |prev| {
          assert next[i] == prev[i];
        }
      }
    }
  }

  /** Choosing an unchosen unit and then unchoosing it restores the list. */
  lemma ToggleTwiceRestores(prev: seq<string>, unitId: string)
    requires unitId !in prev
    ensures Toggle(Toggle(prev, unitId), unitId) == prev
  {
    var p := Without(unitId);
    FilterAppend(prev, [unitId], p);
    FilterKeepsAll(prev, p);
    assert Filter([unitId], p) == [];
  }

  /** A unit the page lists, as far as the action uses it. */
  datatype UnitRow = UnitRow(id: string, name: string, unitCode: string)

  /** `unit => enrolledUnits.includes(unit.id)` */
  function Selected(enrolled: seq<string>): UnitRow -> bool
  {
    (u: UnitRow) => u.id in enrolled
  }

  /** `handleSubmit`: the loaded units whose id is chosen, in loader order. */
  function SubmitUnits(units: seq<UnitRow>, enrolled: seq<string>): (submit: seq<UnitRow>)
    ensures forall u :: u in submit <==> u in units && u.id in enrolled
    ensures forall u :: multiset(submit)[u] == if u.id in enrolled then multiset(units)[u] else 0
    ensures IsSubsequence(submit, units)
  {
    Filter(units, Selected(enrolled))
  }

  /** `unit.id` of each unit, in order. */
  function UnitIds(units: seq<UnitRow>): (ids: seq<string>)
    ensures |ids| == |units|
    ensures forall i :: 0 <= i < |units| ==> ids[i] == units[i].id
  {
    if |units| == 0 then [] else [units[0].id] + UnitIds(units[1..])
  }

  /** `id => enrolledUnits.includes(id)` */
  function Chosen(enrolled: seq<string>): string -> bool
  {
    id => id in enrolled
  }

  /** `handleSubmit` on a non-empty list: its head if chosen, then the submission of its tail. */
  lemma SubmitUnitsStep(units: seq<UnitRow>, enrolled: seq<string>)
    requires |units| > 0
    ensures SubmitUnits(units, enrolled)
      == (if units[0].id in enrolled then [units[0]] else []) + SubmitUnits(units[1..], enrolled)
  {
    FilterStep(units, Selected(enrolled));
  }

  /** The ids of the submitted units are the chosen ids among the loaded ones, in loader order. */
  lemma {:induction false} SubmitUnitIds(units: seq<UnitRow>, enrolled: seq<string>)
    ensures UnitIds(SubmitUnits(units, enrolled)) == Filter(UnitIds(units), Chosen(enrolled))
  {
    if |units| > 0 {
      var ids := UnitIds(units);
      var rest := SubmitUnits(units[1..], enrolled);
      SubmitUnitIds(units[1..], enrolled);
      SubmitUnitsStep(units, enrolled);
      FilterStep(ids, Chosen(enrolled));
      assert ids[1..] == UnitIds(units[1..]);
      if units[0].id in enrolled {
        calc {
          UnitIds(SubmitUnits(units, enrolled));
          UnitIds([units[0]] + rest);
          { assert ([units[0]] + rest)[1..] == rest; }
          [units[0].id] + UnitIds(rest);
          [ids[0]] + Filter(ids[1..], Chosen(enrolled));
          Filter(ids, Chosen(enrolled));
        }
      } else {
        calc {
          UnitIds(SubmitUnits(units, enrolled));
          UnitIds(rest);
          Filter(ids[1..], Chosen(enrolled));
          Filter(ids, Chosen(enrolled));
        }
      }
    }
  }

  /** When the loaded units have distinct ids, so do the submitted ones: no unit is submitted twice. */
  lemma SubmittedIdsDistinct(units: seq<UnitRow>, enrolled: seq<string>)
    requires Distinct(UnitIds(units))
    ensures Distinct(UnitIds(SubmitUnits(units, enrolled)))
  {
    SubmitUnitIds(units, enrolled);
    FilterKeepsDistinct(UnitIds(units), Chosen(enrolled));
  }

  /** The roles a session cookie can carry. */
  datatype Role = Student | Staff | Administrator

  /** The signed-in user the cookie names. */
  datatype User = User(userId: string, role: Role)

  /** A `studentUnit` row: the student and the unit it connects. */
  datatype Enrollment = Enrollment(studentId: string, unitId: string)

  /** The rows the action creates for `units`, one per unit, in order. */
  function Enrollments(studentId: string, units: seq<UnitRow>): seq<Enrollment>
  {
    seq(|units|, i requires 0 <= i < |units| => Enrollment(studentId, units[i].id))
  }

  /** One more unit of the prefix adds its row at the end. */
  lemma EnrollmentsPrefixStep(studentId: string, units: seq<UnitRow>, i: nat)
    requires i < |units|
    ensures Enrollments(studentId, units[..i + 1])
      == Enrollments(studentId, units[..i]) + [Enrollment(studentId, units[i].id)]
  {
  }

  /** The `studentUnit` table, as far as the action writes it. */
  class EnrollmentTable {
    var rows: seq<Enrollment>

    constructor ()
      ensures rows == []
    {
      rows := [];
    }

    /** `db.studentUnit.create` */
    method Create(e: Enrollment)
      modifies this
      ensures rows == old(rows) + [e]
    {
      rows := rows + [e];
    }
  }

  /** The create call (counted from 0) that throws, and what it throws. */
  datatype CreateFault = CreateFault(at: nat, failure: Failure)

  /** How many creates complete: all of them, or those before the one that throws. */
  function CreatesRun(units: seq<UnitRow>, fault: Option<CreateFault>): nat
  {
    if fault.Some? && fault.value.at < |units| then fault.value.at else |units|
  }

  /**
   * The action's `for` loop: one create per unit, in order, stopping at the
   * create that throws; without a database every create is skipped.
   */
  method CreateEnrollments(
    table: EnrollmentTable, connected: bool, studentId: string,
    units: seq<UnitRow>, fault: Option<CreateFault>)
    returns (thrown: Option<Failure>)
    modifies table
    ensures !connected ==> thrown == None && table.rows == old(table.rows)
    ensures connected ==> table.rows == old(table.rows) + Enrollments(studentId, units[..CreatesRun(units, fault)])
    ensures connected ==> thrown == if fault.Some? && fault.value.at < |units| then Some(fault.value.failure) else None
  {
    ghost var start := table.rows;
    thrown := None;
    for i := 0 to |units|
      invariant connected ==> table.rows == start + Enrollments(studentId, units[..i])
      invariant !connected ==> table.rows == start
      invariant connected && fault.Some? ==> i <= fault.value.at
    {
      if connected {
        if fault.Some? && fault.value.at == i {
          return Some(fault.value.failure);
        }
        EnrollmentsPrefixStep(studentId, units, i);
        table.Create(Enrollment(studentId, units[i].id));
      }
    }
    assert units[..|units|] == units;
  }

  const LoginRedirect: Reply := Redirect("/login", true)
  const UnauthorizedRedirect: Reply := Redirect("/unauthorized", false)
  const NoEnrollData: Reply := Json(false, Some("no data provided"), 404)
  const Enrolled: Reply := Json(true, None, 201)

  /**
   * The action. `user` is the parsed cookie, `submitUnit` the posted list
   * (`None` when absent), `connected` whether `db` exists (without it every
   * `db?.studentUnit.create` is skipped) and `fault` the create that throws, if any.
   */
  method EnrollAction(
    table: EnrollmentTable, connected: bool, user: Option<User>,
    submitUnit: Option<seq<UnitRow>>, fault: Option<CreateFault>)
    returns (reply: Reply)
    modifies table
    ensures user.None? ==> reply == LoginRedirect && table.rows == old(table.rows)
    ensures user.Some? && user.value.role != Student ==> reply == UnauthorizedRedirect && table.rows == old(table.rows)
    ensures user.Some? && user.value.role == Student && submitUnit.None? ==>
      reply == NoEnrollData && table.rows == old(table.rows)
    ensures user.Some? && user.value.role == Student && submitUnit.Some? ==>
      var units := submitUnit.value;
      if !connected then reply == Enrolled && table.rows == old(table.rows)
      else if fault.Some? && fault.value.at < |units| then
        reply == FailureReply(fault.value.failure)
        && table.rows == old(table.rows) + Enrollments(user.value.userId, units[..fault.value.at])
      else reply == Enrolled && table.rows == old(table.rows) + Enrollments(user.value.userId, units)
  {
    if user.None? {
      return LoginRedirect;
    }
    if user.value.role != Student {
      return UnauthorizedRedirect;
    }
    if submitUnit.None? {
      return NoEnrollData;
    }
    var thrown := CreateEnrollments(table, connected, user.value.userId, submitUnit.value, fault);
    reply := if thrown.Some? then FailureReply(thrown.value) else Enrolled;
  }

  /**
   * The rows for `units` belong to the student and connect exactly the ids of
   * `units`; distinct ids give distinct rows.
   */
  lemma EnrollmentsRows(studentId: string, units: seq<UnitRow>)
    ensures forall e :: e in Enrollments(studentId, units) <==> e.studentId == studentId && e.unitId in UnitIds(units)
    ensures Distinct(UnitIds(units)) ==> Distinct(Enrollments(studentId, units))
  {
    var rows := Enrollments(studentId, units);
    var ids := UnitIds(units);
    forall e | e in rows ensures e.studentId == studentId && e.unitId in ids {
      var k :| 0 <= k < |rows| && rows[k] == e;
      assert ids[k] == e.unitId;
    }
    forall e: Enrollment | e.studentId == studentId && e.unitId in ids ensures e in rows {
      var k :| 0 <= k < |ids| && ids[k] == e.unitId;
      assert rows[k] == e;
    }
    if Distinct(ids) {
      forall i, j | 0 <= i < j < |rows| ensures rows[i] != rows[j] {
        assert ids[i] != ids[j];
      }
    }
  }

  /**
   * The rows a successful submission creates belong to the student and
   * connect exactly the chosen ids among the loaded units, and no unit twice
   * when the loaded ids are distinct.
   */
  lemma SubmissionEnrollsChosenUnits(studentId: string, units: seq<UnitRow>, enrolled: seq<string>)
    requires Distinct(UnitIds(units))
    ensures var rows := Enrollments(studentId, SubmitUnits(units, enrolled));
      && (forall e :: e in rows ==> e.studentId == studentId)
      && (forall id :: Enrollment(studentId, id) in rows <==> id in UnitIds(units) && id in enrolled)
      && Distinct(rows)
  {
    var submit := SubmitUnits(units, enrolled);
    EnrollmentsRows(studentId, submit);
    SubmitUnitIds(units, enrolled);
    SubmittedIdsDistinct(units, enrolled);
  }
}
