/** Workload counters kept per person (`Conteggi` in both engines): the annual
    total, the total per month, per (month, weekday), per weekday of the year
    and per ISO week, and the weekday of the last assignment.

    The source keeps six dictionaries keyed by name that always gain a key
    together (`assicura_persona` fills all six); here they are one dictionary
    from name to an `Entry` holding the person's six values. Months 1..12 are
    positions 0..11 of a sequence, weekdays 0..6 positions 0..6. */
module Counters {
  import opened Util
  import opened Calendar

  datatype Entry = Entry(
    annual: int,
    perMonth: seq<int>,
    perMonthDay: seq<seq<int>>,
    perDow: seq<int>,
    perWeek: map<WeekKey, int>,
    lastDow: Option<int>)

  type Tally = map<string, Entry>

  /** Where one assignment is counted: its month, its weekday and its ISO week. */
  datatype Slot = Slot(month: int, dow: int, week: WeekKey)

  predicate ValidSlot(s: Slot) {
    1 <= s.month <= 12 && 0 <= s.dow <= 6
  }

  /** The slot `aggiungi` derives from a date. */
  function SlotOf(d: Date): (s: Slot)
    requires ValidDate(d)
    ensures ValidSlot(s)
  {
    Slot(d.month, Weekday(d), WeekOf(d))
  }

  function MonthTotal(pm: seq<int>): int
    requires |pm| == 12
  {
    pm[0] + pm[1] + pm[2] + pm[3] + pm[4] + pm[5] + pm[6] + pm[7] + pm[8] + pm[9] + pm[10] + pm[11]
  }

  function DowTotal(pd: seq<int>): int
    requires |pd| == 7
  {
    pd[0] + pd[1] + pd[2] + pd[3] + pd[4] + pd[5] + pd[6]
  }

  /** An entry has twelve months of seven weekdays and seven weekdays. */
  predicate EntryOk(e: Entry) {
    && |e.perMonth| == 12 && |e.perMonthDay| == 12 && |e.perDow| == 7
    && (forall i :: 0 <= i < 12 ==> |e.perMonthDay[i]| == 7)
  }

  /** No count is negative, and the counts agree: the monthly totals and the
      weekday totals each add up to the annual total, and each month's weekday
      totals add up to that month. */
  predicate EntryBalanced(e: Entry)
    requires EntryOk(e)
  {
    && e.annual >= 0
    && (forall k :: k in e.perWeek ==> e.perWeek[k] >= 0)
    && e.annual == MonthTotal(e.perMonth)
    && e.annual == DowTotal(e.perDow)
    && (forall i :: 0 <= i < 12 ==> e.perMonth[i] == DowTotal(e.perMonthDay[i]))
  }

  predicate WellFormed(t: Tally) {
    forall n :: n in t ==> EntryOk(t[n])
  }

  predicate Balanced(t: Tally)
    requires WellFormed(t)
  {
    forall n :: n in t ==> EntryBalanced(t[n])
  }

  /** The entry `assicura_persona` creates. */
  const ZeroWeek: seq<int> := [0, 0, 0, 0, 0, 0, 0]
  const ZeroEntry := Entry(
    0,
    [0, 0, 0, 0, 0, 0, 0, 0, 0, 0, 0, 0],
    [ZeroWeek, ZeroWeek, ZeroWeek, ZeroWeek, ZeroWeek, ZeroWeek,
     ZeroWeek, ZeroWeek, ZeroWeek, ZeroWeek, ZeroWeek, ZeroWeek],
    ZeroWeek,
    map[],
    None)

  lemma ZeroEntryOk()
    ensures EntryOk(ZeroEntry) && EntryBalanced(ZeroEntry)
  {
  }

  /** The entry the readers see: a missing person reads as a zero entry, which
      is what `tot_*` and `ultimo_dow` return after creating it. */
  function EntryOf(t: Tally, n: string): (e: Entry)
    requires WellFormed(t)
    ensures EntryOk(e)
  {
    if n in t then t[n] else ZeroEntryOk(); ZeroEntry
  }

  // ---------------------------------------------------------------------------
  // Readings (`tot_annuale`, `tot_mese`, `tot_mese_giorno`, `tot_giorno_anno`,
  // `tot_settimana`, `ultimo_dow`)

  function AnnualCount(t: Tally, n: string): int
    requires WellFormed(t)
  {
    EntryOf(t, n).annual
  }

  function MonthCount(t: Tally, n: string, m: int): int
    requires WellFormed(t) && 1 <= m <= 12
  {
    EntryOf(t, n).perMonth[m - 1]
  }

  function MonthDayCount(t: Tally, n: string, m: int, w: int): int
    requires WellFormed(t) && 1 <= m <= 12 && 0 <= w <= 6
  {
    EntryOf(t, n).perMonthDay[m - 1][w]
  }

  function DowCount(t: Tally, n: string, w: int): int
    requires WellFormed(t) && 0 <= w <= 6
  {
    EntryOf(t, n).perDow[w]
  }

  /** `per_settimana[nome].get(week_key, 0)` */
  function WeekCount(t: Tally, n: string, k: WeekKey): int
    requires WellFormed(t)
  {
    var e := EntryOf(t, n);
    if k in e.perWeek then e.perWeek[k] else 0
  }

  function LastDow(t: Tally, n: string): Option<int>
    requires WellFormed(t)
  {
    EntryOf(t, n).lastDow
  }

  // ---------------------------------------------------------------------------
  // Operations, as values

  /** `assicura_persona`: creates the zero entry of a person it does not know. */
  function Ensure(t: Tally, n: string): (r: Tally)
    requires WellFormed(t)
    ensures WellFormed(r)
    ensures r.Keys == t.Keys + {n}
    ensures n in t ==> r == t
  {
    if n in t then t else ZeroEntryOk(); t[n := ZeroEntry]
  }

  /** One more assignment in slot `s`, for one entry. */
  function BumpEntry(e: Entry, s: Slot): (r: Entry)
    requires EntryOk(e) && ValidSlot(s)
    ensures EntryOk(r)
  {
    Entry(
      e.annual + 1,
      e.perMonth[s.month - 1 := e.perMonth[s.month - 1] + 1],
      e.perMonthDay[s.month - 1 := e.perMonthDay[s.month - 1][s.dow := e.perMonthDay[s.month - 1][s.dow] + 1]],
      e.perDow[s.dow := e.perDow[s.dow] + 1],
      e.perWeek[s.week := (if s.week in e.perWeek then e.perWeek[s.week] else 0) + 1],
      Some(s.dow))
  }

  /** `aggiungi`: one more assignment of `n` in slot `s`. */
  function Record(t: Tally, n: string, s: Slot): (r: Tally)
    requires WellFormed(t) && ValidSlot(s)
    ensures WellFormed(r)
    ensures r.Keys == t.Keys + {n}
  {
    var e := Ensure(t, n);
    var b := BumpEntry(e[n], s);
    BumpKeepsWellFormed(e, n, b);
    e[n := b]
  }

  lemma BumpKeepsWellFormed(t: Tally, n: string, b: Entry)
    requires WellFormed(t) && EntryOk(b)
    ensures WellFormed(t[n := b])
    ensures t[n := b].Keys == t.Keys + {n}
  {
  }

  /** What `aggiungi` changes for the person recorded: the annual total goes
      up by one and the last weekday becomes the day's weekday ... */
  lemma RecordOwnCounts(t: Tally, n: string, s: Slot)
    requires WellFormed(t) && ValidSlot(s)
    ensures AnnualCount(Record(t, n, s), n) == AnnualCount(t, n) + 1
    ensures LastDow(Record(t, n, s), n) == Some(s.dow)
    ensures forall k :: WeekCount(Record(t, n, s), n, k) == WeekCount(t, n, k) + (if k == s.week then 1 else 0)
  {
    RecordEntry(t, n, s);
  }

  /** ... the month of the day and the weekday of the day go up by one, and no
      other month or weekday changes ... */
  lemma RecordMonthAndDow(t: Tally, n: string, s: Slot)
    requires WellFormed(t) && ValidSlot(s)
    ensures forall m :: 1 <= m <= 12 ==>
      MonthCount(Record(t, n, s), n, m) == MonthCount(t, n, m) + (if m == s.month then 1 else 0)
    ensures forall w :: 0 <= w <= 6 ==>
      DowCount(Record(t, n, s), n, w) == DowCount(t, n, w) + (if w == s.dow then 1 else 0)
  {
    RecordEntry(t, n, s);
  }

  /** ... and so does exactly one (month, weekday) cell. */
  lemma RecordMonthDay(t: Tally, n: string, s: Slot, m: int, w: int)
    requires WellFormed(t) && ValidSlot(s) && 1 <= m <= 12 && 0 <= w <= 6
    ensures MonthDayCount(Record(t, n, s), n, m, w) == MonthDayCount(t, n, m, w) + (if m == s.month && w == s.dow then 1 else 0)
  {
    RecordEntry(t, n, s);
    BumpMonthDay(EntryOf(t, n), s, m, w);
  }

  lemma BumpMonthDay(e: Entry, s: Slot, m: int, w: int)
    requires EntryOk(e) && ValidSlot(s) && 1 <= m <= 12 && 0 <= w <= 6
    ensures BumpEntry(e, s).perMonthDay[m - 1][w] == e.perMonthDay[m - 1][w] + (if m == s.month && w == s.dow then 1 else 0)
  {
  }

  lemma RecordEntry(t: Tally, n: string, s: Slot)
    requires WellFormed(t) && ValidSlot(s)
    ensures EntryOf(Record(t, n, s), n) == BumpEntry(EntryOf(t, n), s)
  {
  }

  /** ... and it changes nothing for anybody else. */
  lemma RecordOthersUnchanged(t: Tally, n: string, s: Slot, p: string)
    requires WellFormed(t) && ValidSlot(s) && p != n
    ensures EntryOf(Record(t, n, s), p) == EntryOf(t, p)
  {
  }

  /** Every `aggiungi` keeps all counts non-negative and in agreement. */
  lemma BumpBalanced(e: Entry, s: Slot)
    requires EntryOk(e) && EntryBalanced(e) && ValidSlot(s)
    ensures EntryBalanced(BumpEntry(e, s))
  {
    var b := BumpEntry(e, s);
    var i := s.month - 1;
    forall j | 0 <= j < 12
      ensures b.perMonth[j] == DowTotal(b.perMonthDay[j])
    {
      if j != i {
        assert b.perMonthDay[j] == e.perMonthDay[j];
      }
    }
  }

  lemma EnsureBalanced(t: Tally, n: string)
    requires WellFormed(t) && Balanced(t)
    ensures Balanced(Ensure(t, n))
  {
    ZeroEntryOk();
  }

  lemma RecordBalanced(t: Tally, n: string, s: Slot)
    requires WellFormed(t) && Balanced(t) && ValidSlot(s)
    ensures Balanced(Record(t, n, s))
  {
    EnsureBalanced(t, n);
    BumpBalanced(Ensure(t, n)[n], s);
  }

  lemma {:induction false} RecordAllBalanced(t: Tally, team: seq<string>, s: Slot)
    requires WellFormed(t) && Balanced(t) && ValidSlot(s)
    ensures Balanced(RecordAll(t, team, s))
    decreases |team|
  {
    if team != [] {
      RecordBalanced(t, team[0], s);
      RecordAllBalanced(Record(t, team[0], s), team[1..], s);
    }
  }

  /** The monthly totals of a person always add up to the annual total, and so
      do the weekday totals. */
  lemma TotalsAddUp(t: Tally, n: string)
    requires WellFormed(t) && Balanced(t)
    ensures AnnualCount(t, n) == MonthCount(t, n, 1) + MonthCount(t, n, 2) + MonthCount(t, n, 3)
      + MonthCount(t, n, 4) + MonthCount(t, n, 5) + MonthCount(t, n, 6) + MonthCount(t, n, 7)
      + MonthCount(t, n, 8) + MonthCount(t, n, 9) + MonthCount(t, n, 10) + MonthCount(t, n, 11)
      + MonthCount(t, n, 12)
    ensures AnnualCount(t, n) == DowCount(t, n, 0) + DowCount(t, n, 1) + DowCount(t, n, 2)
      + DowCount(t, n, 3) + DowCount(t, n, 4) + DowCount(t, n, 5) + DowCount(t, n, 6)
  {
  }

  /** `for nome in team: cont.aggiungi(nome, giorno)` */
  function RecordAll(t: Tally, team: seq<string>, s: Slot): (r: Tally)
    requires WellFormed(t) && ValidSlot(s)
    ensures WellFormed(r)
    ensures r.Keys == t.Keys + set x | x in team
    decreases |team|
  {
    if team == [] then t
    else RecordAll(Record(t, team[0], s), team[1..], s)
  }

  /** Recording a duplicate-free team raises each member's count in the day's
      week by one and leaves everybody else's week counts alone. */
  lemma {:induction false} RecordAllWeek(t: Tally, team: seq<string>, s: Slot, p: string, k: WeekKey)
    requires WellFormed(t) && ValidSlot(s) && Distinct(team)
    ensures WeekCount(RecordAll(t, team, s), p, k) == WeekCount(t, p, k) + (if p in team && k == s.week then 1 else 0)
    decreases |team|
  {
    if team != [] {
      var t1 := Record(t, team[0], s);
      DistinctTail(team);
      RecordAllWeek(t1, team[1..], s, p, k);
      RecordWeek(t, team[0], s, p, k);
      assert p in team <==> p == team[0] || p in team[1..] by {
        assert team == [team[0]] + team[1..];
      }
    }
  }

  /** One `aggiungi` and the week counts. */
  lemma RecordWeek(t: Tally, n: string, s: Slot, p: string, k: WeekKey)
    requires WellFormed(t) && ValidSlot(s)
    ensures WeekCount(Record(t, n, s), p, k) == WeekCount(t, p, k) + (if p == n && k == s.week then 1 else 0)
  {
    if p == n {
      RecordOwnCounts(t, n, s);
    } else {
      RecordOthersUnchanged(t, n, s, p);
    }
  }

  /** Counters only ever increase. */
  lemma RecordMonotone(t: Tally, n: string, s: Slot, p: string, k: WeekKey)
    requires WellFormed(t) && ValidSlot(s)
    ensures AnnualCount(Record(t, n, s), p) >= AnnualCount(t, p)
    ensures WeekCount(Record(t, n, s), p, k) >= WeekCount(t, p, k)
  {
    if p == n {
      RecordOwnCounts(t, n, s);
    } else {
      RecordOthersUnchanged(t, n, s, p);
    }
  }

  /** `assicura_persona` twice is `assicura_persona` once, and it changes no
      reading: a person it creates reads 0 everywhere, with no last weekday. */
  lemma EnsureIdempotent(t: Tally, n: string)
    requires WellFormed(t)
    ensures Ensure(Ensure(t, n), n) == Ensure(t, n)
    ensures forall p :: EntryOf(Ensure(t, n), p) == EntryOf(t, p)
  {
  }

  lemma UnseenReadsZero(t: Tally, n: string)
    requires WellFormed(t) && n !in t
    ensures AnnualCount(t, n) == 0 && LastDow(t, n) == None
    ensures forall k :: WeekCount(t, n, k) == 0
    ensures forall m :: 1 <= m <= 12 ==> MonthCount(t, n, m) == 0
    ensures forall w :: 0 <= w <= 6 ==> DowCount(t, n, w) == 0
    ensures forall m, w :: 1 <= m <= 12 && 0 <= w <= 6 ==> MonthDayCount(t, n, m, w) == 0
  {
  }

  // ---------------------------------------------------------------------------
  // The dictionary, updated in place

  class Counters {
    var entries: Tally

    predicate Valid()
      reads this
    {
      WellFormed(entries) && Balanced(entries)
    }

    constructor()
      ensures Valid() && entries == map[]
    {
      entries := map[];
    }

    /** `assicura_persona` */
    method EnsurePerson(n: string)
      requires Valid()
      modifies this
      ensures Valid() && entries == Ensure(old(entries), n)
    {
      if n !in entries {
        EnsureBalanced(entries, n);
        entries := entries[n := ZeroEntry];
      }
    }

    /** `aggiungi`: one more assignment of `n` on day `d`, in each of the
        person's counts. */
    method Add(n: string, d: Date)
      requires Valid() && ValidDate(d)
      modifies this
      ensures Valid() && entries == Record(old(entries), n, SlotOf(d))
    {
      var slot := SlotOf(d);
      RecordBalanced(entries, n, slot);
      EnsurePerson(n);
      entries := entries[n := BumpEntry(entries[n], slot)];
    }

    method TotMonth(n: string, m: int) returns (r: int)
      requires Valid() && 1 <= m <= 12
      modifies this
      ensures Valid() && entries == Ensure(old(entries), n)
      ensures r == MonthCount(old(entries), n, m)
    {
      EnsurePerson(n);
      r := entries[n].perMonth[m - 1];
    }

    method TotAnnual(n: string) returns (r: int)
      requires Valid()
      modifies this
      ensures Valid() && entries == Ensure(old(entries), n)
      ensures r == AnnualCount(old(entries), n)
    {
      EnsurePerson(n);
      r := entries[n].annual;
    }

    method TotMonthDay(n: string, m: int, w: int) returns (r: int)
      requires Valid() && 1 <= m <= 12 && 0 <= w <= 6
      modifies this
      ensures Valid() && entries == Ensure(old(entries), n)
      ensures r == MonthDayCount(old(entries), n, m, w)
    {
      EnsurePerson(n);
      r := entries[n].perMonthDay[m - 1][w];
    }

    method TotDow(n: string, w: int) returns (r: int)
      requires Valid() && 0 <= w <= 6
      modifies this
      ensures Valid() && entries == Ensure(old(entries), n)
      ensures r == DowCount(old(entries), n, w)
    {
      EnsurePerson(n);
      r := entries[n].perDow[w];
    }

    method TotWeek(n: string, k: WeekKey) returns (r: int)
      requires Valid()
      modifies this
      ensures Valid() && entries == Ensure(old(entries), n)
      ensures r == WeekCount(old(entries), n, k)
    {
      EnsurePerson(n);
      var weeks := entries[n].perWeek;
      r := if k in weeks then weeks[k] else 0;
    }

    method LastWeekday(n: string) returns (r: Option<int>)
      requires Valid()
      modifies this
      ensures Valid() && entries == Ensure(old(entries), n)
      ensures r == LastDow(old(entries), n)
    {
      EnsurePerson(n);
      r := entries[n].lastDow;
    }
  }
}
