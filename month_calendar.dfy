/**
 * The calendar matrix of a month as `calendar.monthcalendar` builds it: the
 * month's day numbers laid out in weeks of seven cells starting on a chosen
 * weekday, with 0 in the cells that belong to the neighbouring months.
 */
module MonthCalendar {
  import opened Dates

  /** Weekday numbers as `calendar` uses them: Monday 0 ... Sunday 6. */
  const Monday := 0
  const Sunday := 6

  /** The blank cells before the 1st: `(day1 - firstweekday) % 7`. */
  function LeadingBlanks(year: int, month: int, firstWeekday: int): nat
    requires year >= 1 && 1 <= month <= 12
  {
    (Weekday(Date(year, month, 1)) - firstWeekday) % 7
  }

  /** The blank cells after the last day: `(firstweekday - day1 - ndays) % 7`. */
  function TrailingBlanks(year: int, month: int, firstWeekday: int): nat
    requires year >= 1 && 1 <= month <= 12
  {
    (firstWeekday - Weekday(Date(year, month, 1)) - DaysInMonth(year, month)) % 7
  }

  function Zeros(n: nat): seq<nat> {
    seq(n, _ => 0)
  }

  /** 1, 2, ..., n. */
  function DayNumbers(n: nat): seq<nat> {
    seq(n, i => i + 1)
  }

  /** `itermonthdays`: the blanks before the 1st, the days, the blanks after the last day. */
  function MonthCells(year: int, month: int, firstWeekday: int): seq<nat>
    requires year >= 1 && 1 <= month <= 12
  {
    Zeros(LeadingBlanks(year, month, firstWeekday))
      + DayNumbers(DaysInMonth(year, month))
      + Zeros(TrailingBlanks(year, month, firstWeekday))
  }

  /** Consecutive slices of seven, the last one possibly shorter: `[days[i:i+7] for i in range(0, len(days), 7)]`. */
  function Weeks(cells: seq<nat>): seq<seq<nat>>
    decreases |cells|
  {
    if cells == [] then []
    else if |cells| <= 7 then [cells]
    else [cells[..7]] + Weeks(cells[7..])
  }

  /**
   * `calendar.monthcalendar(year, month)` with the given first weekday: four
   * to six weeks of seven cells each, holding the leading blanks, the days and
   * the trailing blanks.
   */
  function MonthMatrix(year: int, month: int, firstWeekday: int): (weeks: seq<seq<nat>>)
    requires year >= 1 && 1 <= month <= 12
    ensures 4 <= |weeks| <= 6
    ensures 7 * |weeks| == LeadingBlanks(year, month, firstWeekday) + DaysInMonth(year, month) + TrailingBlanks(year, month, firstWeekday)
    ensures forall w :: 0 <= w < |weeks| ==> |weeks[w]| == 7
  {
    CellCount(year, month, firstWeekday);
    WeeksOfFullLength(MonthCells(year, month, firstWeekday));
    Weeks(MonthCells(year, month, firstWeekday))
  }

  /** Slicing a multiple of seven cells gives full weeks that read the cells in order. */
  lemma {:induction false} WeeksOfFullLength(cells: seq<nat>)
    requires |cells| % 7 == 0
    ensures |Weeks(cells)| == |cells| / 7
    ensures forall w :: 0 <= w < |Weeks(cells)| ==> |Weeks(cells)[w]| == 7
    ensures forall w, c :: 0 <= w < |Weeks(cells)| && 0 <= c < 7 ==> Weeks(cells)[w][c] == cells[7 * w + c]
    decreases |cells|
  {
    if |cells| > 7 {
      var rest := cells[7..];
      WeeksOfFullLength(rest);
      var weeks := Weeks(cells);
      assert weeks == [cells[..7]] + Weeks(rest);
      forall w, c | 1 <= w < |weeks| && 0 <= c < 7
        ensures weeks[w][c] == cells[7 * w + c]
      {
        assert weeks[w] == Weeks(rest)[w - 1];
        assert 7 * w + c == 7 * (w - 1) + c + 7;
      }
    }
  }

  /** The blanks and the days fill whole weeks. */
  lemma CellCount(year: int, month: int, firstWeekday: int)
    requires year >= 1 && 1 <= month <= 12
    ensures LeadingBlanks(year, month, firstWeekday) < 7 && TrailingBlanks(year, month, firstWeekday) < 7
    ensures (LeadingBlanks(year, month, firstWeekday) + DaysInMonth(year, month) + TrailingBlanks(year, month, firstWeekday)) % 7 == 0
  {
    var offset := Weekday(Date(year, month, 1)) - firstWeekday;
    var ndays := DaysInMonth(year, month);
    assert firstWeekday - Weekday(Date(year, month, 1)) - ndays == -offset - ndays;
    BlanksFill(offset, ndays);
  }

  /** `a % 7` blanks, `n` days and `(-a - n) % 7` blanks make a multiple of seven. */
  lemma BlanksFill(a: int, n: int)
    ensures (a % 7 + n + (-a - n) % 7) % 7 == 0
  {
    var q1, q2 := a / 7, (-a - n) / 7;
    assert a % 7 + n + (-a - n) % 7 == 7 * (-q1 - q2);
  }

  /** Cell `i` of the month holds day `i - lead + 1` inside the month and 0 outside. */
  lemma MonthCellAt(year: int, month: int, firstWeekday: int, i: int)
    requires year >= 1 && 1 <= month <= 12
    requires 0 <= i < |MonthCells(year, month, firstWeekday)|
    ensures var lead := LeadingBlanks(year, month, firstWeekday);
      MonthCells(year, month, firstWeekday)[i] ==
        if lead <= i < lead + DaysInMonth(year, month) then i - lead + 1 else 0
  {
  }

  lemma ModSevenAdd(a: int, b: int)
    ensures (a % 7 + b) % 7 == (a + b) % 7
  {
    var q := a / 7;
    assert a == 7 * q + a % 7;
    assert (a + b) == 7 * q + (a % 7 + b);
  }

  /** Day `d` lies in the column of its weekday. */
  lemma DayColumn(year: int, month: int, firstWeekday: int, d: int)
    requires year >= 1 && 1 <= month <= 12
    ensures (LeadingBlanks(year, month, firstWeekday) + d - 1) % 7 == (Weekday(Date(year, month, d)) - firstWeekday) % 7
  {
    var o := Ordinal(Date(year, month, 1));
    OrdinalWithinMonth(year, month, d);
    assert Weekday(Date(year, month, 1)) == (o + 6) % 7;
    assert Weekday(Date(year, month, d)) == (o + d + 5) % 7;
    ModSevenAdd((o + 6) % 7 - firstWeekday, d - 1);
    ModSevenAdd(o + 6, d - 1 - firstWeekday);
    ModSevenAdd(o + d + 5, -firstWeekday);
  }

  /**
   * A cell is non-zero exactly between the leading and the trailing blanks,
   * and there the days read 1, 2, ... in order.
   */
  lemma MonthMatrixCells(year: int, month: int, firstWeekday: int)
    requires year >= 1 && 1 <= month <= 12
    ensures
      var weeks := MonthMatrix(year, month, firstWeekday);
      var lead := LeadingBlanks(year, month, firstWeekday);
      forall w, c :: 0 <= w < |weeks| && 0 <= c < 7 ==>
        |weeks[w]| == 7 &&
        weeks[w][c] == if lead <= 7 * w + c < lead + DaysInMonth(year, month) then 7 * w + c - lead + 1 else 0
  {
    var cells := MonthCells(year, month, firstWeekday);
    CellCount(year, month, firstWeekday);
    WeeksOfFullLength(cells);
    forall w, c | 0 <= w < |Weeks(cells)| && 0 <= c < 7
      ensures Weeks(cells)[w][c] == cells[7 * w + c]
    {
    }
    forall i | 0 <= i < |cells| {
      MonthCellAt(year, month, firstWeekday, i);
    }
  }

  /** Blank cells appear only at the start of the first week and at the end of the last week. */
  lemma MonthMatrixPadding(year: int, month: int, firstWeekday: int)
    requires year >= 1 && 1 <= month <= 12
    ensures
      var weeks := MonthMatrix(year, month, firstWeekday);
      forall w, c :: 0 <= w < |weeks| && 0 <= c < 7 && |weeks[w]| == 7 && weeks[w][c] == 0 ==>
        (w == 0 && c < LeadingBlanks(year, month, firstWeekday))
        || (w == |weeks| - 1 && c >= 7 - TrailingBlanks(year, month, firstWeekday))
  {
    MonthMatrixCells(year, month, firstWeekday);
  }

  /**
   * Every day of the month appears in the matrix, in the column of its
   * weekday counted from the first weekday.
   */
  lemma MonthMatrixWeekdays(year: int, month: int, firstWeekday: int)
    requires year >= 1 && 1 <= month <= 12
    ensures
      var weeks := MonthMatrix(year, month, firstWeekday);
      var lead := LeadingBlanks(year, month, firstWeekday);
      forall d :: 1 <= d <= DaysInMonth(year, month) ==>
        && (lead + d - 1) / 7 < |weeks| && |weeks[(lead + d - 1) / 7]| == 7
        && weeks[(lead + d - 1) / 7][(lead + d - 1) % 7] == d
        && (lead + d - 1) % 7 == (Weekday(Date(year, month, d)) - firstWeekday) % 7
  {
    var weeks := MonthMatrix(year, month, firstWeekday);
    var lead := LeadingBlanks(year, month, firstWeekday);
    MonthMatrixCells(year, month, firstWeekday);
    forall d | 1 <= d <= DaysInMonth(year, month)
      ensures (lead + d - 1) / 7 < |weeks|
      ensures weeks[(lead + d - 1) / 7][(lead + d - 1) % 7] == d
      ensures (lead + d - 1) % 7 == (Weekday(Date(year, month, d)) - firstWeekday) % 7
    {
      var i := lead + d - 1;
      assert 7 * (i / 7) + i % 7 == i;
      DayColumn(year, month, firstWeekday, d);
    }
  }

  /** September 2025 begins on a Monday, so its first Sunday-first week is [0, 1, ..., 6]. */
  lemma SeptemberExample()
    ensures MonthMatrix(2025, 9, Sunday) ==
      [[0, 1, 2, 3, 4, 5, 6], [7, 8, 9, 10, 11, 12, 13], [14, 15, 16, 17, 18, 19, 20],
       [21, 22, 23, 24, 25, 26, 27], [28, 29, 30, 0, 0, 0, 0]]
  {
    KnownWeekdays();
    MonthMatrixCells(2025, 9, Sunday);
    var weeks := MonthMatrix(2025, 9, Sunday);
    assert LeadingBlanks(2025, 9, Sunday) == 1;
    assert TrailingBlanks(2025, 9, Sunday) == 4;
    assert |weeks| == 5;
    assert weeks[0] == [0, 1, 2, 3, 4, 5, 6];
    assert weeks[1] == [7, 8, 9, 10, 11, 12, 13];
    assert weeks[2] == [14, 15, 16, 17, 18, 19, 20];
    assert weeks[3] == [21, 22, 23, 24, 25, 26, 27];
    assert weeks[4] == [28, 29, 30, 0, 0, 0, 0];
  }
}
