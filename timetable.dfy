/**
 * `generateTimetable` of the timetable-creation page: a round-robin
 * assignment that walks the day list and four slots per day with one running
 * index, giving cell `index` the unit and the teacher at `index` modulo the
 * length of their lists.
 */
module Timetable {
  import opened Wrappers
  import opened JsArrays
  import opened Grid

  const SlotsPerDay: nat := 4
  const StartHour: int := 8
  const SlotDuration: int := 2

  /**
   * A generated record. The unit or the teacher is `None` when its list is
   * empty: `xs[index % 0]` reads `xs[NaN]`, which is `undefined`.
   */
  type Entry<T, U> = Lesson<Option<T>, Option<U>>

  /** `xs[index % xs.length]` */
  function RoundRobinPick<T>(xs: seq<T>, index: nat): Option<T>
  {
    if |xs| == 0 then None else Some(xs[index % |xs|])
  }

  /** The record the generator writes for running index `k`. */
  function EntryAt<T, U>(days: seq<string>, teachers: seq<T>, units: seq<U>, k: nat): Entry<T, U>
    requires k < |days| * SlotsPerDay
  {
    var slot := k % SlotsPerDay;
    var start := StartHour + slot * SlotDuration;
    Lesson(days[k / SlotsPerDay], slot + 1, RoundRobinPick(units, k), RoundRobinPick(teachers, k), start, start + SlotDuration)
  }

  /** The whole generated timetable, as a function of the day list and the two rosters. */
  function RoundRobin<T, U>(days: seq<string>, teachers: seq<T>, units: seq<U>): (t: seq<Entry<T, U>>)
    ensures |t| == |days| * SlotsPerDay
    ensures forall k :: 0 <= k < |t| ==>
      && t[k].day == days[k / SlotsPerDay]
      && t[k].slot == k % SlotsPerDay + 1
      && 1 <= t[k].slot <= SlotsPerDay
      && t[k].startHour == StartHour + (t[k].slot - 1) * SlotDuration
      && t[k].startHour in {8, 10, 12, 14}
      && t[k].endHour - t[k].startHour == SlotDuration
    ensures forall k :: 0 <= k < |t| ==>
      && (t[k].unit.None? <==> |units| == 0)
      && (t[k].unit.Some? ==> t[k].unit.value == units[k % |units|])
      && (t[k].teacher.None? <==> |teachers| == 0)
      && (t[k].teacher.Some? ==> t[k].teacher.value == teachers[k % |teachers|])
  {
    seq(|days| * SlotsPerDay, k requires 0 <= k < |days| * SlotsPerDay => EntryAt(days, teachers, units, k))
  }

  /**
   * `generateTimetable(teachers, units)` over the day list `days`: nested
   * loops over days and slot positions, a running `index`, one push per cell.
   */
  method GenerateTimetable<T, U>(days: seq<string>, teachers: seq<T>, units: seq<U>)
    returns (timetable: seq<Entry<T, U>>)
    ensures timetable == RoundRobin(days, teachers, units)
  {
    ghost var expected := RoundRobin(days, teachers, units);
    timetable := [];
    var index := 0;
    for d := 0 to |days|
      invariant index == d * SlotsPerDay
      invariant timetable == expected[..index]
    {
      var day := days[d];
      for slot := 0 to SlotsPerDay
        invariant index == d * SlotsPerDay + slot
        invariant timetable == expected[..index]
      {
        var unit := RoundRobinPick(units, index);
        var teacher := RoundRobinPick(teachers, index);
        var startHour := StartHour + slot * SlotDuration;
        var endHour := startHour + SlotDuration;
        assert index / SlotsPerDay == d && index % SlotsPerDay == slot;
        timetable := timetable + [Lesson(day, slot + 1, unit, teacher, startHour, endHour)];
        index := index + 1;
      }
    }
    assert expected[..index] == expected;
  }

  /**
   * When the week has at least as many cells as there are units, every unit
   * is taught: the running index takes every value below `|units|`, so unit
   * `u` is taught in cell `u`.
   */
  lemma EveryUnitScheduled<T, U>(days: seq<string>, teachers: seq<T>, units: seq<U>)
    requires |units| <= |days| * SlotsPerDay
    ensures var t := RoundRobin(days, teachers, units);
      forall u :: 0 <= u < |units| ==> u < |t| && t[u].unit == Some(units[u])
  {
    var t := RoundRobin(days, teachers, units);
    forall u | 0 <= u < |units| ensures u < |t| && t[u].unit == Some(units[u]) {
      assert u % |units| == u;
    }
  }

  /**
   * Conversely, with distinct units and fewer cells than units, the units from
   * position `|days| * 4` on are never taught.
   */
  lemma UnitsBeyondCapacityUnscheduled<T, U>(days: seq<string>, teachers: seq<T>, units: seq<U>)
    requires Distinct(units)
    ensures var t := RoundRobin(days, teachers, units);
      forall u, k :: |t| <= u < |units| && 0 <= k < |t| ==> t[k].unit != Some(units[u])
  {
  }

  /**
   * With distinct day labels each (day, slot) pair is held by exactly one
   * record, the one at position `d * 4 + slot - 1`; so no cell is booked twice.
   */
  lemma CellsAreUnique<T, U>(days: seq<string>, teachers: seq<T>, units: seq<U>)
    requires Distinct(days)
    ensures var t := RoundRobin(days, teachers, units);
      forall i, j :: 0 <= i < |t| && 0 <= j < |t| && t[i].day == t[j].day && t[i].slot == t[j].slot ==> i == j
  {
  }

  /**
   * Every cell of every listed day holds a generated record, so no cell is
   * "No class". With an empty unit or teacher list those records carry `None`
   * and the page throws while rendering them; this lemma is about the cells'
   * contents only.
   */
  lemma GeneratedGridHasNoGaps<T, U>(days: seq<string>, teachers: seq<T>, units: seq<U>, d: nat, index: nat)
    requires d < |days| && index < |Slots|
    ensures RenderCell(RoundRobin(days, teachers, units), days[d], index).Class?
  {
    var t := RoundRobin(days, teachers, units);
    var k := d * SlotsPerDay + index;
    assert k / SlotsPerDay == d && k % SlotsPerDay == index;
    assert t[k].day == days[d] && t[k].slot == index + 1;
  }

  /**
   * With distinct day labels the cell for day `d` and slot position `index`
   * shows exactly the record the generator wrote at `d * 4 + index`, with
   * that position's colour.
   */
  lemma GeneratedCellShowsItsEntry<T, U>(days: seq<string>, teachers: seq<T>, units: seq<U>, d: nat, index: nat)
    requires Distinct(days) && d < |days| && index < |Slots|
    ensures var t := RoundRobin(days, teachers, units);
      RenderCell(t, days[d], index) == Class(t[d * SlotsPerDay + index], Colors[index])
  {
    var t := RoundRobin(days, teachers, units);
    var k := d * SlotsPerDay + index;
    GeneratedGridHasNoGaps(days, teachers, units, d, index);
    CellsAreUnique(days, teachers, units);
    assert k / SlotsPerDay == d && k % SlotsPerDay == index;
    var c := RenderCell(t, days[d], index);
    var i :| 0 <= i < |t| && t[i] == c.item;
    assert t[i].day == t[k].day && t[i].slot == t[k].slot;
  }
}
