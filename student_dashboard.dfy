/**
 * The student dashboard page (app/routes/student.dashboard.tsx): the set of
 * enrolled unit ids, the flattened unit list, the timetable cut down to the
 * enrolled units, and the same weekly grid as the creation page.
 */
module StudentDashboard {
  import opened Wrappers
  import opened JsArrays
  import opened Grid

  /**
   * A unit as the loader selects it: `Teacher` is the list of teachers
   * holding the unit (here their names), `department` a single record (here
   * its name).
   */
  datatype UnitRecord = UnitRecord(id: string, name: string, unitCode: string, teachers: seq<string>, departmentName: string)

  /** One `studentUnit` row of the signed-in student; the enrolment time is an integer. */
  datatype StudentUnit = StudentUnit(enrolledAt: int, unit: UnitRecord)

  /** One element of `pureUnits`; `None` stands for an `undefined` field. */
  datatype PureUnit = PureUnit(id: string, name: string, teacherName: Option<string>, departmentName: string, unitCode: string, enrolledAt: int)

  /** The unit and teacher a timetable row carries. */
  datatype UnitRef = UnitRef(id: string, name: string, unitCode: string)
  datatype TeacherRef = TeacherRef(id: string, name: string)

  /** A loaded timetable row. */
  type Row = Lesson<TeacherRef, UnitRef>

  /** `new Set(studentUnits.map(std => std.unit.id))` */
  function EnrolledIds(studentUnits: seq<StudentUnit>): set<string>
  {
    set i | 0 <= i < |studentUnits| :: studentUnits[i].unit.id
  }

  /**
   * The `pureUnits` projection of one enrolment. `u.unit.Teacher.name` reads
   * `name` off a list, which is `undefined`.
   */
  function Flatten(u: StudentUnit): PureUnit
  {
    PureUnit(u.unit.id, u.unit.name, None, u.unit.departmentName, u.unit.unitCode, u.enrolledAt)
  }

  /**
   * `pureUnits`: one flat record per enrolment, in the same order, whose ids
   * are exactly the enrolled id set; the teacher name is never defined.
   */
  function PureUnits(studentUnits: seq<StudentUnit>): (p: seq<PureUnit>)
    ensures |p| == |studentUnits|
    ensures forall i :: 0 <= i < |p| ==>
      && p[i].id == studentUnits[i].unit.id && p[i].name == studentUnits[i].unit.name
      && p[i].unitCode == studentUnits[i].unit.unitCode && p[i].enrolledAt == studentUnits[i].enrolledAt
      && p[i].departmentName == studentUnits[i].unit.departmentName && p[i].teacherName.None?
    ensures (set i | 0 <= i < |p| :: p[i].id) == EnrolledIds(studentUnits)
  {
    seq(|studentUnits|, i requires 0 <= i < |studentUnits| => Flatten(studentUnits[i]))
  }

  /** `t => studentUnitidsSet.has(t.unit.id)` */
  function IsEnrolled(ids: set<string>): Row -> bool
  {
    (t: Row) => t.unit.id in ids
  }

  /**
   * The timetable the page renders: the loaded rows whose unit the student
   * is enrolled in, each as often as loaded, in loaded order.
   */
  function EnrolledTimetable(studentUnits: seq<StudentUnit>, time: seq<Row>): (r: seq<Row>)
    ensures forall t :: t in r <==> t in time && t.unit.id in EnrolledIds(studentUnits)
    ensures forall t :: multiset(r)[t] == if t.unit.id in EnrolledIds(studentUnits) then multiset(time)[t] else 0
    ensures IsSubsequence(r, time)
  {
    Filter(time, IsEnrolled(EnrolledIds(studentUnits)))
  }

  /**
   * A cell of the dashboard shows the first loaded row that is both held at
   * its day and slot and of an enrolled unit; filtering first and looking up
   * second is one pass over the loaded timetable.
   */
  lemma CellIsFirstEnrolledLesson(studentUnits: seq<StudentUnit>, time: seq<Row>, day: string, index: nat)
    requires index < |Slots|
    ensures var ids := EnrolledIds(studentUnits);
      var first := Find(time, Both(IsEnrolled(ids), HeldAt(day, index + 1)));
      RenderCell(EnrolledTimetable(studentUnits, time), day, index)
        == if first.Some? then Class(first.value, Colors[index]) else NoClass
  {
    FindAfterFilter(time, IsEnrolled(EnrolledIds(studentUnits)), HeldAt<TeacherRef, UnitRef>(day, index + 1));
  }

  /** The grid shows only lessons of units the student is enrolled in. */
  lemma ShownLessonsAreEnrolled(studentUnits: seq<StudentUnit>, time: seq<Row>, day: string, index: nat)
    requires index < |Slots|
    ensures var c := RenderCell(EnrolledTimetable(studentUnits, time), day, index);
      c.Class? ==> c.item in time && c.item.unit.id in EnrolledIds(studentUnits)
  {
  }

  /** Every loaded lesson of an enrolled unit fills its cell: the cell for its day and slot is never "No class". */
  lemma EnrolledLessonFillsItsCell(studentUnits: seq<StudentUnit>, time: seq<Row>, k: nat, index: nat)
    requires k < |time| && index < |Slots|
    requires time[k].unit.id in EnrolledIds(studentUnits) && time[k].slot == index + 1
    ensures RenderCell(EnrolledTimetable(studentUnits, time), time[k].day, index).Class?
  {
  }

  /** What the page renders: the "no units" alert, or the weekly grid over a timetable. */
  datatype View = NoUnitsAlert | Week(timetable: seq<Row>)

  /** The component: the early return for an empty enrolment list, otherwise the grid over the enrolled timetable. */
  function DashboardView(studentUnits: seq<StudentUnit>, time: seq<Row>): View
  {
    if |studentUnits| == 0 then NoUnitsAlert else Week(EnrolledTimetable(studentUnits, time))
  }

  /**
   * With no enrolments the filtered timetable is empty and the page shows
   * the "no units" alert instead of the grid; with enrolments it shows the
   * grid over the enrolled timetable.
   */
  lemma NoEnrolmentsShowsAlert(studentUnits: seq<StudentUnit>, time: seq<Row>)
    ensures |studentUnits| == 0 ==> EnrolledTimetable(studentUnits, time) == []
    ensures DashboardView(studentUnits, time).NoUnitsAlert? <==> |studentUnits| == 0
  {
    if |studentUnits| == 0 {
      var r := EnrolledTimetable(studentUnits, time);
      assert EnrolledIds(studentUnits) == {};
      assert multiset(r) == multiset{};
    }
  }
}
