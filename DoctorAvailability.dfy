/** The availability editor of the doctor dashboard: a map from a day key `YYYY-MM-DD` to the
    list of open `HH:MM` slots of that day or to the marker `BLOCKED`, the day the slot editor
    works on, and the month grid derived from both. */
module DoctorAvailability {
  import opened Wrappers
  import opened Seqs
  import opened Text
  import opened StringOrder

  /** The value stored for a day: `'BLOCKED'` or an array of slot times. */
  datatype DayEntry = Blocked | Slots(times: seq<string>)

  type Availability = map<string, DayEntry>

  /** The list `toggleSlot` edits: the stored list, or `[]` for a day with no entry. */
  function SlotsAt(m: Availability, date: string): seq<string>
  {
    if date in m && m[date].Slots? then m[date].times else []
  }

  predicate IsBlocked(m: Availability, date: string)
  {
    date in m && m[date].Blocked?
  }

  /** `slots.filter(s => s !== time)` */
  function Without(slots: seq<string>, time: string): (r: seq<string>)
    ensures time !in r
    ensures forall x :: x != time ==> multiset(r)[x] == multiset(slots)[x]
  {
    var keep := (s: string) => s != time;
    FilterCounts(slots, keep);
    Filter(slots, keep)
  }

  /** The day's new list: the time removed if present, otherwise added and the list sorted. */
  function ToggledSlots(slots: seq<string>, time: string): (r: seq<string>)
    ensures time in slots ==> time !in r && forall x :: x != time ==> multiset(r)[x] == multiset(slots)[x]
    ensures time !in slots ==> Sorted(r) && multiset(r) == multiset(slots) + multiset{time}
  {
    if time in slots then Without(slots, time) else Sort(slots + [time])
  }

  /** The new availability after `toggleSlot(time)` on day `date`. */
  function ToggleSlotIn(m: Availability, date: string, time: string): (r: Availability)
    ensures IsBlocked(m, date) ==> r == m
    ensures !IsBlocked(m, date) ==> r.Keys == m.Keys + {date} && r[date].Slots?
    ensures !IsBlocked(m, date) && time in SlotsAt(m, date) ==>
      time !in r[date].times &&
      forall x :: x != time ==> multiset(r[date].times)[x] == multiset(SlotsAt(m, date))[x]
    ensures !IsBlocked(m, date) && time !in SlotsAt(m, date) ==>
      Sorted(r[date].times) && multiset(r[date].times) == multiset(SlotsAt(m, date)) + multiset{time}
    ensures forall k :: k in m && k != date ==> k in r && r[k] == m[k]
  {
    if IsBlocked(m, date) then m
    else
      m[date := Slots(ToggledSlots(SlotsAt(m, date), time))]
  }

  /** The new availability after `toggleBlockDay()` on day `date`. */
  function ToggleBlockIn(m: Availability, date: string): (r: Availability)
    ensures r.Keys == m.Keys + {date}
    ensures r[date].Blocked? <==> !IsBlocked(m, date)
    ensures r[date].Slots? ==> r[date].times == []
    ensures forall k :: k in m && k != date ==> r[k] == m[k]
  {
    m[date := if IsBlocked(m, date) then Slots([]) else Blocked]
  }

  // ---------------------------------------------------------------------------------------
  // Slot lists: sorting, removal and insertion

  /** Appending an element that sorts after everything already there. */
  lemma {:induction false} InsertAtEnd(t: seq<string>, x: string)
    requires forall i :: 0 <= i < |t| ==> LexLe(t[i], x)
    ensures Insert(t, x) == t + [x]
  {
    if t != [] {
      if LexLt(x, t[0]) {
        LexLeAntisymmetric(x, t[0]);
        assert false;
      }
      InsertAtEnd(t[1..], x);
      assert t == [t[0]] + t[1..];
    }
  }

  /** Sorting a list that is already sorted leaves it as it is. */
  lemma {:induction false} SortOfSorted(s: seq<string>)
    requires Sorted(s)
    ensures Sort(s) == s
  {
    if s != [] {
      var init, last := s[..|s| - 1], s[|s| - 1];
      SortOfSorted(init);
      InsertAtEnd(init, last);
      assert init + [last] == s;
    }
  }

  /** Removing a time from a strictly sorted list leaves it strictly sorted. */
  lemma {:induction false} WithoutStrictlySorted(s: seq<string>, time: string)
    requires StrictlySorted(s)
    ensures StrictlySorted(Without(s, time))
  {
    if s != [] {
      WithoutStrictlySorted(s[1..], time);
      var rest := Without(s[1..], time);
      assert Without(s, time) == if s[0] != time then [s[0]] + rest else rest;
      forall j | 0 <= j < |rest| ensures LexLt(s[0], rest[j]) {
        assert rest[j] in s[1..];
      }
    }
  }

  /** Inserting a time that is not yet in a strictly sorted list keeps it strictly sorted. */
  lemma {:induction false} InsertStrictlySorted(s: seq<string>, x: string)
    requires StrictlySorted(s) && x !in s
    ensures StrictlySorted(Insert(s, x))
  {
    if s != [] && !LexLt(x, s[0]) {
      InsertStrictlySorted(s[1..], x);
      var rest := Insert(s[1..], x);
      LexLeTotal(x, s[0]);
      forall j | 0 <= j < |rest| ensures LexLt(s[0], rest[j]) {
        assert rest[j] in multiset(s[1..]) + multiset{x};
        assert rest[j] in s[1..] || rest[j] == x;
      }
    } else if s != [] {
      forall j | 0 < j < |s| ensures LexLt(x, s[j]) {
        LexLeTransitive(x, s[0], s[j]);
      }
    }
  }

  /** Adding a time and then removing it restores the list. */
  lemma {:induction false} InsertThenRemove(s: seq<string>, x: string)
    requires x !in s
    ensures Without(Insert(s, x), x) == s
  {
    if s == [] {
    } else if LexLt(x, s[0]) {
      FilterKeepsAll(s, (t: string) => t != x);
    } else {
      InsertThenRemove(s[1..], x);
      assert s == [s[0]] + s[1..];
    }
  }

  /** `Without` on a list given as its head and tail. */
  lemma WithoutCons(s: seq<string>, x: string)
    requires s != []
    ensures Without(s, x) == if s[0] != x then [s[0]] + Without(s[1..], x) else Without(s[1..], x)
  {
  }

  /** The tail of a strictly sorted list is strictly sorted and sorts after its head. */
  lemma StrictlySortedTail(s: seq<string>)
    requires StrictlySorted(s) && s != []
    ensures StrictlySorted(s[1..])
    ensures forall j :: 1 <= j < |s| ==> LexLt(s[0], s[j])
  {
  }

  /** Removing the head of a strictly sorted list and inserting it again gives the list back. */
  lemma RemoveThenInsertHead(s: seq<string>)
    requires StrictlySorted(s) && s != []
    ensures Insert(Without(s, s[0]), s[0]) == s
  {
    var x, rest := s[0], s[1..];
    StrictlySortedTail(s);
    assert x !in rest by {
      forall j | 0 <= j < |rest| ensures rest[j] != x {
        assert LexLt(x, s[j + 1]);
      }
    }
    WithoutCons(s, x);
    FilterKeepsAll(rest, (t: string) => t != x);
    assert Without(s, x) == rest;
    if rest != [] {
      assert LexLt(x, rest[0]);
    }
    assert s == [x] + rest;
  }

  /** Inserting behind a head that sorts no later than the new element. */
  lemma InsertCons(h: string, t: seq<string>, x: string)
    requires !LexLt(x, h)
    ensures Insert([h] + t, x) == [h] + Insert(t, x)
  {
    assert ([h] + t)[1..] == t;
  }

  /** Removing a time and then adding it back restores a strictly sorted list that held it. */
  lemma {:induction false} RemoveThenInsert(s: seq<string>, x: string)
    requires StrictlySorted(s) && x in s
    ensures Insert(Without(s, x), x) == s
  {
    if s[0] == x {
      RemoveThenInsertHead(s);
    } else {
      var rest := s[1..];
      assert s == [s[0]] + rest;
      StrictlySortedTail(s);
      WithoutCons(s, x);
      assert x in rest;
      var k :| 0 <= k < |rest| && rest[k] == x;
      assert LexLt(s[0], s[k + 1]);
      if LexLt(x, s[0]) {
        LexLeAntisymmetric(x, s[0]);
        assert false;
      }
      RemoveThenInsert(rest, x);
      var w := Without(rest, x);
      assert Without(s, x) == [s[0]] + w;
      InsertCons(s[0], w, x);
    }
  }

  lemma StrictlySortedIsSorted(s: seq<string>)
    requires StrictlySorted(s)
    ensures Sorted(s)
  {
  }

  /** On a sorted list, adding a time that is absent is sorted insertion. */
  lemma AddIsInsert(s: seq<string>, time: string)
    requires Sorted(s)
    ensures Sort(s + [time]) == Insert(s, time)
  {
    SortOfSorted(s);
    assert (s + [time])[..|s|] == s;
  }

  /** Toggling the same time twice restores a list that is sorted and free of duplicates. */
  lemma ToggledSlotsTwice(s: seq<string>, time: string)
    requires StrictlySorted(s)
    ensures ToggledSlots(ToggledSlots(s, time), time) == s
  {
    if time in s {
      var w := Without(s, time);
      assert ToggledSlots(s, time) == w;
      assert time !in w;
      WithoutStrictlySorted(s, time);
      StrictlySortedIsSorted(w);
      AddIsInsert(w, time);
      assert ToggledSlots(w, time) == Insert(w, time);
      RemoveThenInsert(s, time);
    } else {
      StrictlySortedIsSorted(s);
      AddIsInsert(s, time);
      var t := Insert(s, time);
      assert ToggledSlots(s, time) == t;
      assert time in multiset(t);
      assert ToggledSlots(t, time) == Without(t, time);
      InsertThenRemove(s, time);
    }
  }

  /** Toggling keeps a list sorted and free of duplicates. */
  lemma ToggledSlotsStrictlySorted(s: seq<string>, time: string)
    requires StrictlySorted(s)
    ensures StrictlySorted(ToggledSlots(s, time))
  {
    if time in s {
      WithoutStrictlySorted(s, time);
    } else {
      AddIsInsert(s, time);
      InsertStrictlySorted(s, time);
    }
  }

  /** `toggleSlot` with the same time twice leaves the day with the list it started from,
      provided that list was sorted and free of duplicates; a day that had no entry ends
      with an empty list. */
  lemma ToggleSlotTwice(m: Availability, date: string, time: string)
    requires !IsBlocked(m, date) && StrictlySorted(SlotsAt(m, date))
    ensures ToggleSlotIn(ToggleSlotIn(m, date, time), date, time) == m[date := Slots(SlotsAt(m, date))]
  {
    var s := SlotsAt(m, date);
    var t := ToggledSlots(s, time);
    var m1 := m[date := Slots(t)];
    OpenDayToggle(m, date, time);
    OpenDayToggle(m1, date, time);
    ToggledSlotsTwice(s, time);
    assert SlotsAt(m1, date) == t;
    MapUpdateTwice(m, date, Slots(t), Slots(s));
  }

  /** On a day that already holds a sorted, duplicate-free list, toggling twice restores the
      whole availability map. */
  lemma ToggleSlotTwiceRestores(m: Availability, date: string, time: string)
    requires date in m && m[date].Slots? && StrictlySorted(m[date].times)
    ensures ToggleSlotIn(ToggleSlotIn(m, date, time), date, time) == m
  {
    ToggleSlotTwice(m, date, time);
    assert SlotsAt(m, date) == m[date].times;
    MapUpdateSame(m, date);
  }

  lemma MapUpdateTwice(m: Availability, date: string, e1: DayEntry, e2: DayEntry)
    ensures m[date := e1][date := e2] == m[date := e2]
  {
  }

  lemma MapUpdateSame(m: Availability, date: string)
    requires date in m
    ensures m[date := m[date]] == m
  {
  }

  lemma OpenDayToggle(m: Availability, date: string, time: string)
    requires !IsBlocked(m, date)
    ensures ToggleSlotIn(m, date, time) == m[date := Slots(ToggledSlots(SlotsAt(m, date), time))]
    ensures SlotsAt(ToggleSlotIn(m, date, time), date) == ToggledSlots(SlotsAt(m, date), time)
  {
  }

  /** `toggleBlockDay` twice restores whether the day is blocked but not its slots: a day that
      was open comes back with an empty list. */
  lemma ToggleBlockTwice(m: Availability, date: string)
    ensures IsBlocked(ToggleBlockIn(ToggleBlockIn(m, date), date), date) == IsBlocked(m, date)
    ensures !IsBlocked(m, date) ==> SlotsAt(ToggleBlockIn(ToggleBlockIn(m, date), date), date) == []
  {
  }

  // ---------------------------------------------------------------------------------------
  // Day keys and the month grid

  /** `String(n).padStart(2, '0')` */
  function TwoDigits(n: int): string
  {
    PadStart(IntToString(n), 2, '0')
  }

  /** The key of day `day` of month `month` (0-based, as `Date.getMonth` gives it) of `year`:
      the year unpadded, then month + 1 and the day, each zero-padded to two digits. */
  function DateKey(year: int, month: int, day: int): string
  {
    IntToString(year) + "-" + TwoDigits(month + 1) + "-" + TwoDigits(day)
  }

  /** The `full-date` shape of section 5.6 of RFC 3339: `4DIGIT "-" 2DIGIT "-" 2DIGIT`. */
  predicate IsFullDate(s: string)
  {
    |s| == 10 && s[4] == '-' && s[7] == '-' &&
    forall i :: 0 <= i < 10 && i != 4 && i != 7 ==> IsDigit(s[i])
  }

  lemma {:induction false} DigitCount(n: nat)
    ensures n < 10 ==> |NatToString(n)| == 1
    ensures 10 <= n < 100 ==> |NatToString(n)| == 2
    ensures 100 <= n < 1000 ==> |NatToString(n)| == 3
    ensures 1000 <= n < 10000 ==> |NatToString(n)| == 4
  {
    if n >= 10 {
      DigitCount(n / 10);
    }
  }

  /** A number below 100 is written as exactly two digits that denote it. */
  lemma TwoDigitsOf(n: int)
    requires 0 <= n < 100
    ensures var t := TwoDigits(n); |t| == 2 && IsDigit(t[0]) && IsDigit(t[1]) && DecimalValue(t) == n
  {
    DigitCount(n);
    PaddedValue(n, 2);
  }

  /** Four digits, two digits and two digits joined by dashes make a `full-date` whose three
      fields are the parts. */
  lemma FullDateOfParts(y: string, mm: string, dd: string)
    requires |y| == 4 && |mm| == 2 && |dd| == 2
    requires forall i :: 0 <= i < 4 ==> IsDigit(y[i])
    requires IsDigit(mm[0]) && IsDigit(mm[1]) && IsDigit(dd[0]) && IsDigit(dd[1])
    ensures var k := y + "-" + mm + "-" + dd; IsFullDate(k) && k[..4] == y && k[5..7] == mm && k[8..] == dd
  {
  }

  /** For a four-digit year, a real month and a day up to 31 the key has the RFC 3339
      `full-date` shape, and its three fields read back as the year, month + 1 and the day. */
  lemma DateKeyIsFullDate(year: int, month: int, day: int)
    requires 1000 <= year <= 9999 && 0 <= month < 12 && 1 <= day <= 31
    ensures var k := DateKey(year, month, day);
      IsFullDate(k) && DecimalValue(k[..4]) == year &&
      DecimalValue(k[5..7]) == month + 1 && DecimalValue(k[8..]) == day
  {
    var y, mm, dd := IntToString(year), TwoDigits(month + 1), TwoDigits(day);
    DigitCount(year);
    NatToStringDigits(year);
    TwoDigitsOf(month + 1);
    TwoDigitsOf(day);
    FullDateOfParts(y, mm, dd);
  }

  /** Distinct days of one month have distinct keys. */
  lemma DayKeysDistinct(year: int, month: int, d1: nat, d2: nat)
    requires DateKey(year, month, d1) == DateKey(year, month, d2)
    ensures d1 == d2
  {
    var p := IntToString(year) + "-" + TwoDigits(month + 1) + "-";
    assert DateKey(year, month, d1) == p + TwoDigits(d1);
    assert DateKey(year, month, d2) == p + TwoDigits(d2);
    assert TwoDigits(d1) == (p + TwoDigits(d1))[|p|..];
    assert TwoDigits(d2) == (p + TwoDigits(d2))[|p|..];
    PaddedValue(d1, 2);
    PaddedValue(d2, 2);
  }

  /** What a day cell shows under its number. */
  datatype Label = NoLabel | BlockedLabel | SlotCount(n: nat)

  /** The label for a day whose entry is `status` (`undefined` when the day has no entry). */
  function LabelFor(status: Option<DayEntry>): (l: Label)
    ensures l == BlockedLabel <==> status == Some(Blocked)
    ensures l.SlotCount? <==> status.Some? && status.value.Slots? && status.value.times != []
    ensures l.SlotCount? ==> l.n == |status.value.times| && l.n > 0
  {
    match status
    case Some(Blocked) => BlockedLabel
    case Some(Slots(times)) => if |times| > 0 then SlotCount(|times|) else NoLabel
    case None => NoLabel
  }

  /** The text of a label: `BLOCKED`, `N SLOTS`, or nothing. A slot count reads back from the
      digits before " SLOTS". */
  function LabelText(l: Label): (t: string)
    ensures t == "" <==> l == NoLabel
    ensures l == BlockedLabel ==> t == "BLOCKED"
    ensures l.SlotCount? ==>
      |t| > 6 && t[|t| - 6..] == " SLOTS" &&
      (forall i :: 0 <= i < |t| - 6 ==> IsDigit(t[i])) && DecimalValue(t[..|t| - 6]) == l.n
  {
    match l
    case NoLabel => ""
    case BlockedLabel => "BLOCKED"
    case SlotCount(n) =>
      var digits := IntToString(n);
      NatToStringDigits(n);
      assert (digits + " SLOTS")[..|digits|] == digits;
      digits + " SLOTS"
  }

  function Lookup(m: Availability, key: string): Option<DayEntry>
  {
    if key in m then Some(m[key]) else None
  }

  /** One cell of the month grid: a blank before the first weekday, or a day button. */
  datatype Cell = Blank | Day(day: nat, key: string, selected: bool, badge: Label)

  /** Cell `i` of the grid: blank for the first `firstDay` positions, then day `i - firstDay + 1`. */
  function GridCell(year: int, month: int, firstDay: nat, m: Availability, selectedDate: string, i: nat): (c: Cell)
    ensures i < firstDay <==> c == Blank
    ensures c.Day? ==> c.day == i - firstDay + 1 && c.key == DateKey(year, month, c.day)
    ensures c.Day? ==> (c.selected <==> c.key == selectedDate) && c.badge == LabelFor(Lookup(m, c.key))
  {
    if i < firstDay then Blank
    else
      var key := DateKey(year, month, i - firstDay + 1);
      Day(i - firstDay + 1, key, key == selectedDate, LabelFor(Lookup(m, key)))
  }

  /** The grid `renderCalendar` builds: `firstDay` blanks, then days 1 to `daysInMonth` in order. */
  function CalendarCells(year: int, month: int, daysInMonth: nat, firstDay: nat,
                         m: Availability, selectedDate: string): (cells: seq<Cell>)
    ensures |cells| == firstDay + daysInMonth
    ensures forall i :: 0 <= i < |cells| ==> cells[i] == GridCell(year, month, firstDay, m, selectedDate, i)
  {
    seq(firstDay + daysInMonth, i requires 0 <= i => GridCell(year, month, firstDay, m, selectedDate, i))
  }

  /** At most one cell of a month is highlighted as the selected day, and it is the one whose
      key is the selected date. */
  lemma AtMostOneSelected(year: int, month: int, daysInMonth: nat, firstDay: nat,
                          m: Availability, selectedDate: string, i: nat, j: nat)
    requires var cells := CalendarCells(year, month, daysInMonth, firstDay, m, selectedDate);
      i < |cells| && j < |cells| && cells[i].Day? && cells[i].selected && cells[j].Day? && cells[j].selected
    ensures i == j
    ensures CalendarCells(year, month, daysInMonth, firstDay, m, selectedDate)[i].key == selectedDate
  {
    var cells := CalendarCells(year, month, daysInMonth, firstDay, m, selectedDate);
    assert cells[i].key == selectedDate == cells[j].key;
    DayKeysDistinct(year, month, cells[i].day, cells[j].day);
  }

  /** Each day cell is highlighted exactly when it is the selected day, and its label is the one
      its own entry calls for. */
  lemma CellShowsItsEntry(year: int, month: int, daysInMonth: nat, firstDay: nat,
                          m: Availability, selectedDate: string, d: nat)
    requires 1 <= d <= daysInMonth
    ensures var c := CalendarCells(year, month, daysInMonth, firstDay, m, selectedDate)[firstDay + d - 1];
      c.key == DateKey(year, month, d) && (c.selected <==> c.key == selectedDate) &&
      (c.badge == BlockedLabel <==> IsBlocked(m, c.key)) &&
      (c.badge.SlotCount? <==> SlotsAt(m, c.key) != [] ) &&
      (c.badge.SlotCount? ==> c.badge.n == |SlotsAt(m, c.key)|)
  {
    var c := CalendarCells(year, month, daysInMonth, firstDay, m, selectedDate)[firstDay + d - 1];
    assert c == GridCell(year, month, firstDay, m, selectedDate, firstDay + d - 1);
  }

  // ---------------------------------------------------------------------------------------
  // The editor's state

  /** The availability seeded into the dashboard. */
  function Seed(): Availability
  {
    map["2023-11-05" := Slots(["09:00", "10:00", "11:00", "14:00", "15:00"]), "2023-11-06" := Blocked]
  }

  /** The `availability` and `selectedDate` state of the doctor dashboard. */
  class AvailabilityEditor {
    var availability: Availability
    var selectedDate: string

    /** Every stored slot list is sorted and free of duplicates. */
    ghost predicate Valid()
      reads this
    {
      forall k :: k in availability && availability[k].Slots? ==> StrictlySorted(availability[k].times)
    }

    /** The dashboard mounts with the seed and today's date (supplied by the caller) selected. */
    constructor(today: string)
      ensures Valid()
      ensures availability == Seed() && selectedDate == today
    {
      availability := Seed();
      selectedDate := today;
    }

    /** A click on a day cell. */
    method SelectDate(key: string)
      requires Valid()
      modifies this
      ensures Valid()
      ensures selectedDate == key && availability == old(availability)
    {
      selectedDate := key;
    }

    /** `toggleSlot(time)` on the selected day. */
    method ToggleSlot(time: string)
      requires Valid()
      modifies this
      ensures Valid()
      ensures availability == ToggleSlotIn(old(availability), selectedDate, time)
      ensures selectedDate == old(selectedDate)
    {
      ghost var before := availability;
      availability := ToggleSlotIn(availability, selectedDate, time);
      if !IsBlocked(before, selectedDate) {
        ToggledSlotsStrictlySorted(SlotsAt(before, selectedDate), time);
      }
    }

    /** `toggleBlockDay()` on the selected day. */
    method ToggleBlockDay()
      requires Valid()
      modifies this
      ensures Valid()
      ensures availability == ToggleBlockIn(old(availability), selectedDate)
      ensures selectedDate == old(selectedDate)
    {
      availability := ToggleBlockIn(availability, selectedDate);
    }

    /** `renderCalendar()`: blanks for the weekdays before the first of the month, then one
        cell per day; the month's length and first weekday are supplied by the caller. */
    method RenderCalendar(year: int, month: int, daysInMonth: nat, firstDay: nat) returns (days: seq<Cell>)
      ensures days == CalendarCells(year, month, daysInMonth, firstDay, availability, selectedDate)
    {
      days := [];
      for i := 0 to firstDay
        invariant |days| == i
        invariant forall k :: 0 <= k < i ==> days[k] == GridCell(year, month, firstDay, availability, selectedDate, k)
      {
        days := days + [Blank];
      }
      for d := 1 to daysInMonth + 1
        invariant |days| == firstDay + d - 1
        invariant forall k :: 0 <= k < |days| ==>
          days[k] == GridCell(year, month, firstDay, availability, selectedDate, k)
      {
        var dateStr := DateKey(year, month, d);
        var status := Lookup(availability, dateStr);
        days := days + [Day(d, dateStr, selectedDate == dateStr, LabelFor(status))];
      }
    }
  }
}
