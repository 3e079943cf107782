/**
 * The weekly grid both timetable pages render: one column per day, four
 * slots per column, each cell showing the first lesson held there or
 * "No class".
 */
module Grid {
  import opened Wrappers
  import opened JsArrays

  /**
   * One timetable record: the day label, the slot number (1 to 4), the unit,
   * the teacher and the start and end hour of the lesson.
   */
  datatype Lesson<T, U> = Lesson(day: string, slot: int, unit: U, teacher: T, startHour: int, endHour: int)

  /** The slot numbers each day column lists. */
  const Slots: seq<int> := [1, 2, 3, 4]

  /** Background colours of filled cells, by slot position. */
  const Colors: seq<string> := ["bg-blue-100/10", "bg-green-100/20", "bg-yellow-100/20", "bg-red-100/30"]

  /** Background colour of an empty cell. */
  const EmptyColor: string := "bg-gray-100"

  /** `item.day === day && item.slot === slot` */
  function HeldAt<T, U>(day: string, slot: int): Lesson<T, U> -> bool
  {
    (e: Lesson<T, U>) => e.day == day && e.slot == slot
  }

  /** The lesson a cell shows: the first record of `day` and `slot`, or none. */
  function LessonAt<T, U>(rows: seq<Lesson<T, U>>, day: string, slot: int): (r: Option<Lesson<T, U>>)
    ensures r.None? <==> forall i :: 0 <= i < |rows| ==> !(rows[i].day == day && rows[i].slot == slot)
    ensures r.Some? ==>
      exists i :: 0 <= i < |rows| && rows[i] == r.value && r.value.day == day && r.value.slot == slot
        && forall j :: 0 <= j < i ==> !(rows[j].day == day && rows[j].slot == slot)
  {
    Find(rows, HeldAt(day, slot))
  }

  /** A rendered cell: a lesson with its background colour, or "No class". */
  datatype Cell<E> = Class(item: E, color: string) | NoClass

  /** The background colour of a rendered cell. */
  function CellColor<E>(c: Cell<E>): string
  {
    match c
    case Class(_, color) => color
    case NoClass => EmptyColor
  }

  /** Slot position `index` holds slot `index + 1` and takes the colour at the same position. */
  lemma SlotPosition(index: nat)
    requires index < |Slots|
    ensures Slots[index] == index + 1 && index % |Colors| == index
  { }

  /** The cell for `day` at slot position `index` of `Slots`. */
  function RenderCell<T, U>(rows: seq<Lesson<T, U>>, day: string, index: nat): (c: Cell<Lesson<T, U>>)
    requires index < |Slots|
    ensures c.NoClass? <==> forall i :: 0 <= i < |rows| ==> !(rows[i].day == day && rows[i].slot == index + 1)
    ensures c.Class? ==>
      c.item in rows && c.item.day == day && c.item.slot == index + 1 && c.color == Colors[index]
    ensures c.Class? ==> LessonAt(rows, day, index + 1) == Some(c.item)
    ensures CellColor(c) == if c.Class? then Colors[index % |Colors|] else EmptyColor
  {
    var item := LessonAt(rows, day, Slots[index]);
    SlotPosition(index);
    if item.Some? then Class(item.value, Colors[index % |Colors|]) else NoClass
  }
}
