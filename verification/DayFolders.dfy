/** Day folders and day segments (src/log_segments.rs): a folder name is trusted only when it names a real
    day back to itself, retention deletes exactly the days strictly before the window, and a run's segment
    follows the largest clock reading. A name is the sequence of its bytes, written as characters. */
module DayFolders {
  import opened Wrappers
  import opened CivilCalendar
  import opened DecimalText
  import opened StableSort

  // ---------- parsing and printing ----------

  /** Rust's `i64::from_str` on at most four bytes: one optional sign, then at least one digit. */
  function ParseInt(s: string): Option<int> {
    if AllDigits(s) then Some(DigitsValue(s))
    else if s != [] && s[0] == '+' && AllDigits(s[1..]) then Some(DigitsValue(s[1..]))
    else if s != [] && s[0] == '-' && AllDigits(s[1..]) then Some(-(DigitsValue(s[1..]) as int))
    else None
  }

  predicate Printable(d: Date) {
    d.year >= 0 && d.month >= 0 && d.day >= 0
  }

  /** `{year:04}-{m:02}-{d:02}`. */
  function DateText(d: Date): string
    requires Printable(d)
  {
    Padded(d.year, 4) + "-" + Padded(d.month, 2) + "-" + Padded(d.day, 2)
  }

  /** A date the ten-byte folder name can carry. */
  predicate FolderDate(d: Date) {
    IsDate(d) && 1970 <= d.year <= 9999
  }

  // ---------- day_folder_start ----------

  /** The three numbers of a ten-byte name with dashes in the right places; not yet a date. */
  function ParseFields(name: string): Option<Date> {
    if |name| != 10 || name[4] != '-' || name[7] != '-' then None
    else
      var year := ParseInt(name[0..4]);
      var month := ParseInt(name[5..7]);
      var day := ParseInt(name[8..10]);
      if year.None? || month.None? || day.None? then None
      else Some(Date(year.value, month.value, day.value))
  }

  function DayFolderStart(name: string): Option<nat> {
    var fields := ParseFields(name);
    if fields.None? then None
    else
      var start := DayStart(fields.value.year, fields.value.month, fields.value.day);
      if start < 0 then None
      else
        DayAndClockIsTheSteppedCalendar(start);
        if DateText(DayAndClock(start).0) == name then Some(start) else None
  }

  lemma FieldsOfText(d: Date)
    requires IsDate(d) && 0 <= d.year <= 9999
    ensures var name := DateText(d);
            && |name| == 10 && name[4] == '-' && name[7] == '-'
            && name[0..4] == Padded(d.year, 4) && name[5..7] == Padded(d.month, 2) && name[8..10] == Padded(d.day, 2)
  {
    assert Power10(2) == 100 && Power10(4) == 10_000 by { assert Power10(1) == 10; assert Power10(3) == 1000; }
    PaddedLength(d.year, 4, 10_000);
    PaddedLength(d.month, 2, 100);
    PaddedLength(d.day, 2, 100);
  }

  lemma ShortTextMeansShortYear(d: Date)
    requires IsDate(d) && d.year >= 0 && |DateText(d)| == 10
    ensures d.year <= 9999
  {
    assert Power10(2) == 100 && Power10(4) == 10_000 by { assert Power10(1) == 10; assert Power10(3) == 1000; }
    PaddedLength(d.year, 4, 10_000);
    PaddedLength(d.month, 2, 100);
    PaddedLength(d.day, 2, 100);
  }

  lemma FieldsReadBack(d: Date)
    requires IsDate(d) && 0 <= d.year <= 9999
    ensures ParseFields(DateText(d)) == Some(d)
  {
    FieldsOfText(d);
    PaddedReadsBack(d.year, 4);
    PaddedReadsBack(d.month, 2);
    PaddedReadsBack(d.day, 2);
  }

  lemma StartNamesItself(d: Date)
    requires FolderDate(d)
    ensures DayStart(d.year, d.month, d.day) >= 0 && DayAndClock(DayStart(d.year, d.month, d.day)).0 == d
  {
    EveryDateIsStepped(d);
    NumberThenDate(d);
    var n := DayNumber(d.year, d.month, d.day);
    assert n * DAY / DAY == n;
  }

  /** The canonical text of a real date answers the second that date starts. */
  lemma CanonicalNameAnswers(d: Date)
    requires FolderDate(d)
    ensures DayFolderStart(DateText(d)) == Some(DayStart(d.year, d.month, d.day))
  {
    FieldsReadBack(d);
    StartNamesItself(d);
  }

  /** `day_folder_start` answers exactly the canonical names of the civil dates from 1970 to 9999, and every
      other name (a sign, a 31 February, a fifth digit, a person's folder) answers nothing. */
  lemma FolderStartIsExact(name: string)
    ensures DayFolderStart(name).Some? <==> exists d :: FolderDate(d) && name == DateText(d)
    ensures forall d | FolderDate(d) && name == DateText(d) ::
              DayFolderStart(name) == Some(DayStart(d.year, d.month, d.day))
  {
    if DayFolderStart(name).Some? {
      var start := DayFolderStart(name).value;
      var d := DayAndClock(start).0;
      DayAndClockIsTheSteppedCalendar(start);
      ShortTextMeansShortYear(d);
      assert FolderDate(d) && name == DateText(d);
    }
    forall d | FolderDate(d) && name == DateText(d)
      ensures DayFolderStart(name) == Some(DayStart(d.year, d.month, d.day))
    {
      CanonicalNameAnswers(d);
    }
  }

  // ---------- names in byte order ----------

  predicate NameLe(a: string, b: string) {
    a == [] || (b != [] && (a[0] < b[0] || (a[0] == b[0] && NameLe(a[1..], b[1..]))))
  }

  lemma {:induction false} NameLeTotal(a: string, b: string)
    ensures NameLe(a, b) || NameLe(b, a)
    ensures NameLe(a, b) && NameLe(b, a) ==> a == b
  {
    if a != [] && b != [] && a[0] == b[0] {
      NameLeTotal(a[1..], b[1..]);
      assert a == [a[0]] + a[1..] && b == [b[0]] + b[1..];
    }
  }

  lemma {:induction false} NameLeTransitive(a: string, b: string, c: string)
    requires NameLe(a, b) && NameLe(b, c)
    ensures NameLe(a, c)
  {
    if a != [] && b != [] && c != [] && a[0] == b[0] == c[0] {
      NameLeTransitive(a[1..], b[1..], c[1..]);
    }
  }

  lemma NameLeIsPreorder()
    ensures TotalPreorder(NameLe)
  {
    forall a, b ensures NameLe(a, b) || NameLe(b, a) {
      NameLeTotal(a, b);
    }
    forall a, b, c | NameLe(a, b) && NameLe(b, c) ensures NameLe(a, c) {
      NameLeTransitive(a, b, c);
    }
  }

  lemma NameLeOfCons(c: char, x: string, d: char, y: string)
    ensures NameLe([c] + x, [d] + y) <==> c < d || (c == d && NameLe(x, y))
  {
    assert ([c] + x)[1..] == x && ([d] + y)[1..] == y;
  }

  /** A shared prefix is skipped; then fields of one width compare before what follows them. */
  lemma {:induction false} FieldFirst(a: string, b: string, x: string, y: string)
    requires |a| == |b|
    ensures NameLe(a + x, b + y) <==> (if a == b then NameLe(x, y) else NameLe(a, b))
  {
    if a == [] {
      assert a + x == x && b + y == y;
    } else {
      hide NameLe;
      var c, a', d, b' := a[0], a[1..], b[0], b[1..];
      FieldFirst(a', b', x, y);
      NameLeOfCons(c, a' + x, d, b' + y);
      NameLeOfCons(c, a', d, b');
      assert a == [c] + a' && b == [d] + b';
      assert a + x == [c] + (a' + x) && b + y == [d] + (b' + y);
    }
  }

  lemma {:induction false} PaddedOrder(m: nat, n: nat, width: nat)
    requires width >= 1 && m < Power10(width) && n < Power10(width)
    ensures |Padded(m, width)| == |Padded(n, width)| == width
    ensures NameLe(Padded(m, width), Padded(n, width)) <==> m <= n
    ensures Padded(m, width) == Padded(n, width) <==> m == n
    decreases width
  {
    PaddedLength(m, width, Power10(width));
    PaddedLength(n, width, Power10(width));
    PaddedReadsBack(m, width);
    PaddedReadsBack(n, width);
    if width == 1 {
      assert Power10(1) == 10;
    } else {
      PaddedOrder(m / 10, n / 10, width - 1);
      FieldFirst(Padded(m / 10, width - 1), Padded(n / 10, width - 1), [DigitChar(m % 10)], [DigitChar(n % 10)]);
    }
  }

  /** Two fixed-width numbers, a dash between what they head: the first decides unless they tie. */
  lemma DashedOrder(m: nat, n: nat, width: nat, x: string, y: string)
    requires width >= 1 && m < Power10(width) && n < Power10(width)
    ensures NameLe(Padded(m, width) + ("-" + x), Padded(n, width) + ("-" + y))
            <==> (m < n || (m == n && NameLe(x, y)))
  {
    PaddedOrder(m, n, width);
    FieldFirst(Padded(m, width), Padded(n, width), "-" + x, "-" + y);
    FieldFirst("-", "-", x, y);
  }

  /** Byte order of the names is date order, so the sorted list of retired folders is chronological. */
  lemma NameOrderIsDateOrder(a: Date, b: Date)
    requires FolderDate(a) && FolderDate(b)
    ensures NameLe(DateText(a), DateText(b)) <==> a == b || Before(a, b)
  {
    assert Power10(2) == 100 && Power10(4) == 10_000 by { assert Power10(1) == 10; assert Power10(3) == 1000; }
    hide Padded, NameLe, Power10;
    var da, db := Padded(a.day, 2), Padded(b.day, 2);
    var ma, mb := Padded(a.month, 2) + ("-" + da), Padded(b.month, 2) + ("-" + db);
    PaddedOrder(a.day, b.day, 2);
    DashedOrder(a.month, b.month, 2, da, db);
    DashedOrder(a.year, b.year, 4, ma, mb);
    assert DateText(a) == Padded(a.year, 4) + ("-" + ma);
    assert DateText(b) == Padded(b.year, 4) + ("-" + mb);
  }

  // ---------- retention ----------

  /** One entry of the log root: its name, whether it is a directory, and whether deleting it succeeds. */
  datatype Entry = Entry(name: string, isDir: bool, removable: bool)

  /** A name past the window: the canonical text of a real date strictly before today minus the window. */
  ghost predicate PastWindow(name: string, retentionDays: nat, now: nat) {
    exists d :: FolderDate(d) && name == DateText(d)
                && DayNumber(d.year, d.month, d.day) < now / DAY - retentionDays
  }

  lemma CutoffIsTheWindow(name: string, retentionDays: nat, now: nat)
    ensures var cutoff := (if now / DAY < retentionDays then 0 else now / DAY - retentionDays) * DAY;
            (DayFolderStart(name).Some? && DayFolderStart(name).value < cutoff)
            <==> PastWindow(name, retentionDays, now)
  {
    FolderStartIsExact(name);
    forall d | FolderDate(d) && name == DateText(d)
      ensures DayNumber(d.year, d.month, d.day) >= 0
    {
      EveryDateIsStepped(d);
    }
  }

  ghost predicate Goes(e: Entry, retentionDays: nat, now: nat) {
    retentionDays > 0 && e.isDir && e.removable && PastWindow(e.name, retentionDays, now)
  }

  ghost function GoneNames(entries: seq<Entry>, retentionDays: nat, now: nat): seq<string> {
    if entries == [] then []
    else
      var last := entries[|entries| - 1];
      GoneNames(entries[..|entries| - 1], retentionDays, now)
      + (if Goes(last, retentionDays, now) then [last.name] else [])
  }

  class LogRoot {
    /** What the log root holds; `None` when it cannot be read. */
    var listing: Option<seq<Entry>>

    constructor (listing: Option<seq<Entry>>)
      ensures this.listing == listing
    {
      this.listing := listing;
    }

    /** `retire_day_folders`: deletes exactly the removable directories past the window, keeps everything
        else in place, and reports what went in chronological (byte) order. */
    method RetireDayFolders(retentionDays: nat, now: nat) returns (retired: seq<string>)
      modifies this
      ensures Ordered(NameLe, retired)
      ensures old(listing).None? ==> listing.None? && retired == []
      ensures old(listing).Some? ==>
                && listing.Some?
                && multiset(retired) == multiset(GoneNames(old(listing).value, retentionDays, now))
                && listing.value == Kept(old(listing).value, retentionDays, now)
    {
      retired := [];
      if retentionDays == 0 {
        if listing.Some? {
          NothingGoesAtZero(listing.value, now);
        }
        return;
      }
      var cutoff := (if now / DAY < retentionDays then 0 else now / DAY - retentionDays) * DAY;
      if listing.None? {
        return;
      }
      var entries := listing.value;
      var left: seq<Entry> := [];
      for k := 0 to |entries|
        invariant retired == GoneNames(entries[..k], retentionDays, now)
        invariant left == Kept(entries[..k], retentionDays, now)
        invariant listing == old(listing)
      {
        var entry := entries[k];
        assert entries[..k + 1][..k] == entries[..k];
        var start := DayFolderStart(entry.name);
        CutoffIsTheWindow(entry.name, retentionDays, now);
        if start.Some? && start.value < cutoff && entry.isDir && entry.removable {
          retired := retired + [entry.name];
        } else {
          left := left + [entry];
        }
      }
      assert entries[..|entries|] == entries;
      listing := Some(left);
      NameLeIsPreorder();
      SortIsStable(NameLe, (x, y) => true, retired);
      retired := SortBy(NameLe, retired);
    }
  }

  ghost function Kept(entries: seq<Entry>, retentionDays: nat, now: nat): seq<Entry> {
    if entries == [] then []
    else
      var last := entries[|entries| - 1];
      Kept(entries[..|entries| - 1], retentionDays, now)
      + (if Goes(last, retentionDays, now) then [] else [last])
  }

  lemma {:induction false} NothingGoesAtZero(entries: seq<Entry>, now: nat)
    ensures GoneNames(entries, 0, now) == [] && Kept(entries, 0, now) == entries
  {
    if entries != [] {
      NothingGoesAtZero(entries[..|entries| - 1], now);
    }
  }

  /** What goes and what stays, entry by entry: the directories past the window whose removal succeeds go, and nothing
      else; every name reported is the name of one of them. */
  lemma {:induction false} GoneAreRemovedDirectories(entries: seq<Entry>, retentionDays: nat, now: nat)
    requires retentionDays > 0
    ensures forall e :: e in Kept(entries, retentionDays, now) <==>
                        e in entries && !(e.isDir && e.removable && PastWindow(e.name, retentionDays, now))
    ensures forall name :: name in GoneNames(entries, retentionDays, now) <==>
                           exists e :: e in entries && e.name == name && e.isDir && e.removable
                                       && PastWindow(name, retentionDays, now)
  {
    hide PastWindow;
    if entries != [] {
      var last := entries[|entries| - 1];
      GoneAreRemovedDirectories(entries[..|entries| - 1], retentionDays, now);
      assert entries == entries[..|entries| - 1] + [last];
    }
  }

  /** A kept entry is never past the window unless the file system refused to delete it, and every deleted
      name is a real day strictly older than the window. */
  lemma {:induction false} RetentionIsTheWindow(entries: seq<Entry>, retentionDays: nat, now: nat)
    requires retentionDays > 0
    ensures forall e | e in Kept(entries, retentionDays, now) ::
              e in entries && (PastWindow(e.name, retentionDays, now) ==> !e.isDir || !e.removable)
    ensures forall name | name in GoneNames(entries, retentionDays, now) :: PastWindow(name, retentionDays, now)
    ensures |entries| == |Kept(entries, retentionDays, now)| + |GoneNames(entries, retentionDays, now)|
  {
    if entries != [] {
      RetentionIsTheWindow(entries[..|entries| - 1], retentionDays, now);
    }
  }

  // ---------- day segments ----------

  datatype Segment = Segment(day: Date, clock: Clock)

  /** The largest of the first `k + 1` clock readings. */
  function Largest(readings: seq<nat>, k: nat): nat
    requires k < |readings|
  {
    if k == 0 then readings[0]
    else
      var before := Largest(readings, k - 1);
      if before < readings[k] then readings[k] else before
  }

  lemma {:induction false} LargestOfPrefix(readings: seq<nat>, now: nat, k: nat)
    requires k < |readings|
    ensures Largest(readings + [now], k) == Largest(readings, k)
  {
    if k > 0 {
      LargestOfPrefix(readings, now, k - 1);
    }
  }

  lemma {:induction false} LargestIsLargest(readings: seq<nat>, k: nat)
    requires k < |readings|
    ensures exists i :: 0 <= i <= k && readings[i] == Largest(readings, k)
    ensures forall i | 0 <= i <= k :: readings[i] <= Largest(readings, k)
  {
    if k == 0 {
      assert readings[0] == Largest(readings, 0);
    } else {
      LargestIsLargest(readings, k - 1);
      assert Largest(readings, k) == readings[k] || Largest(readings, k) == Largest(readings, k - 1);
    }
  }

  function DayOf(unixSeconds: nat): Date {
    DayAndClock(unixSeconds).0
  }

  class DaySegments {
    var nextBoundary: nat
    var file: Option<Segment>
    /** What each write reached: the open segment, or nothing when none could be opened. */
    ghost var written: seq<Option<Segment>>
    /** Every clock reading so far, the opening one first. */
    ghost var readings: seq<nat>

    ghost predicate Valid()
      reads this
    {
      && readings != []
      && |written| == |readings| - 1
      && nextBoundary == (Largest(readings, |readings| - 1) / DAY + 1) * DAY
      && (file.Some? ==> file.value.day == DayOf(Largest(readings, |readings| - 1)))
      && forall k | 0 <= k < |written| ::
           written[k].Some? ==> written[k].value.day == DayOf(Largest(readings, k + 1))
    }

    constructor Open(started: nat)
      ensures Valid() && readings == [started] && written == []
      ensures file == Some(Segment(DayAndClock(started).0, DayAndClock(started).1))
    {
      var (day, clock) := DayAndClock(started);
      nextBoundary := (started / DAY + 1) * DAY;
      file := Some(Segment(day, clock));
      written := [];
      readings := [started];
    }

    /** `roll_if_due`: `opens` says whether the new segment's file could be created. */
    method RollIfDue(now: nat, opens: bool)
      modifies this`nextBoundary, this`file
      ensures if now < old(nextBoundary) then nextBoundary == old(nextBoundary) && file == old(file)
              else && nextBoundary == (now / DAY + 1) * DAY
                   && file == if opens then Some(Segment(DayOf(now), Clock(0, 0, 0))) else None
    {
      if now < nextBoundary {
        return;
      }
      var (day, _) := DayAndClock(now);
      file := if opens then Some(Segment(day, Clock(0, 0, 0))) else None;
      nextBoundary := (now / DAY + 1) * DAY;
    }

    /** Whatever the clock does, a write lands in the segment of the largest reading so far, and the boundary
        only moves forward. Within the same day the open segment is not replaced. */
    method Write(now: nat, opens: bool)
      requires Valid()
      modifies this
      ensures Valid() && readings == old(readings) + [now] && written == old(written) + [file]
      ensures nextBoundary >= old(nextBoundary) && nextBoundary % DAY == 0
      ensures Largest(readings, |readings| - 1) / DAY == Largest(old(readings), |old(readings)| - 1) / DAY ==>
                file == old(file)
      ensures Largest(readings, |readings| - 1) / DAY > Largest(old(readings), |old(readings)| - 1) / DAY ==>
                file == if opens then Some(Segment(DayOf(now), Clock(0, 0, 0))) else None
    {
      hide DayOf, DayAndClock;
      RollIfDue(now, opens);
      ghost var before := readings;
      readings := readings + [now];
      written := written + [file];
      forall k | 0 <= k < |before| ensures Largest(readings, k) == Largest(before, k) {
        LargestOfPrefix(before, now, k);
      }
      SameDay(Largest(before, |before| - 1), now);
    }
  }

  lemma SameDay(a: nat, b: nat)
    ensures a / DAY == b / DAY ==> DayOf(a) == DayOf(b)
  {
  }
}
