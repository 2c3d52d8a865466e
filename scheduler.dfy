/** The `Scheduler` classes of both engines: the settings computed from the
    configuration, the two workload counters, the set of teams seen, the log
    and the recorded drivers, and the methods that fill a year's roster.

    The two classes have the same fields and, but for the places where the
    engines differ, the same method bodies; here they are one class whose
    `engine` constant says which source it follows. The selection rules
    themselves are the functions of `Selection`; each method here is proved
    against them. */
module Scheduling {
  import opened Util
  import opened Calendar
  import opened Counters
  import opened Rules
  import opened Database
  import opened Dates
  import opened Selection
  import Config

  // ---------------------------------------------------------------------------
  // `__init__`: the settings

  /** The pair of a rule, as the `frozenset` of its sorted tuple. */
  function PairOf(r: ConstraintRule): set<string> {
    var t := AsSortedTuple(r);
    {t.0, t.1}
  }

  /** `forbidden_hard` (hard = true) and `forbidden_soft` (hard = false). */
  function ForbiddenPairs(rules: seq<ConstraintRule>, hard: bool): (r: set<set<string>>)
    ensures forall i :: 0 <= i < |rules| && rules[i].isHard == hard ==> {rules[i].primo, rules[i].secondo} in r
    ensures forall p :: p in r ==> exists i :: 0 <= i < |rules| && rules[i].isHard == hard && p == {rules[i].primo, rules[i].secondo}
  {
    var r := set i | 0 <= i < |rules| && rules[i].isHard == hard :: PairOf(rules[i]);
    assert forall i :: 0 <= i < |rules| ==> PairOf(rules[i]) == {rules[i].primo, rules[i].secondo};
    r
  }

  /** `preferenze_hard` (hard = true) and `preferenze_soft` (hard = false):
      each driver mapped to the firefighters of its rules of that kind. */
  function Preferences(rules: seq<PreferredRule>, hard: bool): (r: map<string, set<string>>)
    ensures forall a, v :: a in r && v in r[a] <==>
      exists i :: 0 <= i < |rules| && rules[i].isHard == hard && rules[i].autista == a && rules[i].vigile == v
  {
    var drivers := set i | 0 <= i < |rules| && rules[i].isHard == hard :: rules[i].autista;
    map a | a in drivers :: set i | 0 <= i < |rules| && rules[i].isHard == hard && rules[i].autista == a :: rules[i].vigile
  }

  /** The mode of a rule: the merged configuration in the current engine,
      HARD in the legacy one, which has no rule modes. */
  function ModeOf(e: Engine, config: ProgramConfig, key: string): (r: RuleMode)
    requires key in Definitions
    ensures e.Legacy? ==> r.Hard?
  {
    if e.Current? then MergeWithDefaults(Some(config.generationRules))[key].mode else Hard
  }

  /** `enable_varchi_rule`: the flag, and in the current engine a rotation
      rule that is not OFF. */
  function EnableOf(e: Engine, config: ProgramConfig): bool {
    config.enableVarchiRule && !ModeOf(e, config, VarchiRotation).Off?
  }

  /** `min_esperti`, never negative: the `min_senior` value when the current
      engine's merged rule has one, the configuration's otherwise. */
  function MinEspertiOf(e: Engine, config: ProgramConfig): (r: int)
    ensures r >= 0
    ensures e.Legacy? ==> r == Max(0, config.minEsperti)
  {
    var rule := MergeWithDefaults(Some(config.generationRules))[MinSenior];
    Max(0, if e.Current? && rule.value.Some? then rule.value.value else config.minEsperti)
  }

  /** `esperienza_vigili`: every firefighter's level, JUNIOR when missing. */
  function EsperienzaOf(config: ProgramConfig, vigili: seq<string>): (r: map<string, string>)
    ensures forall n :: n in vigili ==> n in r
  {
    map n | n in vigili :: if n in config.esperienzaVigili then config.esperienzaVigili[n] else Config.LivJunior
  }

  /** The weekly caps, negative ones raised to 0. */
  function CapsOf(config: ProgramConfig): (r: map<string, int>)
    ensures r.Keys == config.weeklyCap.Keys
    ensures forall n :: n in r ==> r[n] >= 0
  {
    map n | n in config.weeklyCap :: Max(0, config.weeklyCap[n])
  }

  /** Whether the special firefighter is a SENIOR of the roster. */
  predicate VarchiSenior(enable: bool, varchi: Option<string>, vigili: seq<string>, esperienza: map<string, string>) {
    enable && varchi.Some? && varchi.value in vigili
    && (if varchi.value in esperienza then esperienza[varchi.value] else Config.LivJunior) == Config.LivSenior
  }

  /** The fields `__init__` computes from the configuration. In the legacy
      engine every rule is HARD, the special rule follows the flag alone and
      `min_esperti` comes from the configuration; in the current engine the
      merged rule modes decide, the special rule needs a mode other than OFF,
      the summer rule in OFF mode names nobody and the `min_senior` value,
      when present, overrides `min_esperti`. */
  function SettingsOf(e: Engine, config: ProgramConfig): (s: Settings)
    ensures SortedStrings(s.autisti) && multiset(s.autisti) == multiset(config.autisti)
    ensures SortedStrings(s.vigili) && multiset(s.vigili) == multiset(config.vigili)
    ensures s.minEsperti >= 0 && s.defaultCap == DefaultWeeklyCap
    ensures forall n :: n in s.weeklyCap ==> s.weeklyCap[n] >= 0
    ensures !s.enableVarchi ==> s.varchi.None? && s.pogliani.None? && !s.varchiIsSenior
    ensures s.varchiIsSenior ==> s.varchi.Some? && s.varchi.value in s.vigili && IsSenior(s, s.varchi.value)
    ensures e.Legacy? ==> s.capMode.Hard? && s.seniorMode.Hard? && s.summerMode.Hard? && s.varchiMode.Hard?
    ensures e.Current? && s.summerMode.Off? ==> s.summerExcluded.None?
    ensures s.varchiMode.Off? ==> !s.enableVarchi
    ensures s.activeWeekdays != {}
  {
    var summerMode := ModeOf(e, config, SummerExclusion);
    var enable := EnableOf(e, config);
    var vigili := SortStrings(config.vigili);
    var esperienza := EsperienzaOf(config, vigili);
    var varchi := if enable then config.autistaVarchi else None;
    assert 4 in DefaultActiveWeekdays;
    Settings(
      SortStrings(config.autisti), vigili, esperienza,
      ForbiddenPairs(config.coppieVietate, true), ForbiddenPairs(config.coppieVietate, false),
      Preferences(config.coppiePreferite, true), Preferences(config.coppiePreferite, false),
      CapsOf(config), Max(0, DefaultWeeklyCap),
      ModeOf(e, config, WeeklyCap), ModeOf(e, config, MinSenior), summerMode, ModeOf(e, config, VarchiRotation),
      enable, varchi, if enable then config.autistaPogliani else None,
      if summerMode.Off? then None else config.vigileEsclusoEstate,
      MinEspertiOf(e, config),
      if config.activeWeekdays == {} then DefaultActiveWeekdays else config.activeWeekdays,
      config.ferie,
      VarchiSenior(enable, varchi, vigili, esperienza))
  }

  /** `esegui`'s checks before any scheduling: a driver and a firefighter. */
  function RosterCheck(config: ProgramConfig): (r: Result<ProgramConfig>)
    ensures r.Ok? <==> config.autisti != [] && config.vigili != []
    ensures r.Ok? ==> r.value == config
  {
    if config.autisti == [] then Failure("Serve almeno un autista per generare il piano turni.")
    else if |config.vigili| < 1 then Failure("Serve almeno un vigile per generare il piano turni.")
    else Ok(config)
  }

  /** A fresh counter with every name of a roster at zero (`Conteggi()` and
      `assicura_persona` for each name). */
  method NewCounters(names: seq<string>) returns (c: Counters)
    ensures fresh(c) && c.Valid()
    ensures forall n :: n in c.entries <==> n in names
    ensures forall n :: n in c.entries ==> c.entries[n] == ZeroEntry
  {
    c := new Counters();
    for i := 0 to |names|
      invariant c.Valid()
      invariant forall n :: n in c.entries <==> n in names[..i]
      invariant forall n :: n in c.entries ==> c.entries[n] == ZeroEntry
    {
      c.EnsurePerson(names[i]);
      assert names[..i + 1] == names[..i] + [names[i]];
    }
    assert names[..|names|] == names;
  }

  /** The two counters of a new scheduler, every roster name at zero. */
  method NewCounterPair(e: Engine, s: Settings) returns (ca: Counters, cv: Counters)
    ensures fresh(ca) && fresh(cv) && ca != cv && ca.Valid() && cv.Valid()
    ensures ca.entries.Keys == Members(s.autisti) && cv.entries.Keys == Members(s.vigili)
    ensures CounterInvariant(e, s, s.autisti, ca.entries, true)
    ensures CounterInvariant(e, s, s.vigili, cv.entries, Distinct(s.vigili))
  {
    ca := NewCounters(s.autisti);
    cv := NewCounters(s.vigili);
    ZeroRespectsCap(s, ca.entries);
    ZeroRespectsCap(s, cv.entries);
  }

  /** The dates of the current engine's scheduler: those of `anno` whose
      weekday and month are active. */
  method CurrentDates(anno: int, weekdays: set<int>, months: Option<set<int>>) returns (date: seq<Date>)
    requires 1 <= anno <= 9998
    ensures YearDates(anno, date)
    ensures forall d :: d in date <==>
      ValidDate(d) && d.year == anno && Active(d, ActiveWeekdays(weekdays), ActiveMonths(months))
  {
    var mesi := ActiveMonths(months);
    assert ActiveMonths(Some(mesi)) == mesi;
    date := DateAttiveAnno(anno, weekdays, Some(mesi));
  }

  /** The dates of the legacy engine's scheduler: those of `anno` whose
      weekday is active. */
  method LegacyDates(anno: int, weekdays: set<int>) returns (date: seq<Date>)
    requires 1 <= anno <= 9998
    ensures YearDates(anno, date)
    ensures forall d :: d in date <==> ValidDate(d) && d.year == anno && Weekday(d) in ActiveWeekdays(weekdays)
  {
    date := LegacyDateAttiveAnno(anno, weekdays);
  }

  /** Counters whose entries are all zero respect every cap. */
  lemma ZeroRespectsCap(s: Settings, t: Tally)
    requires WellFormed(t) && forall n :: n in t ==> t[n] == ZeroEntry
    ensures CapRespected(s, t)
  {
    forall n, k ensures WeekCount(t, n, k) == 0 {
      if n !in t {
        UnseenReadsZero(t, n);
      }
    }
  }

  /** The winning team of a search with solutions: the team of a best
      solution, made of roster firefighters none of whom is at the cap where
      the cap is enforced, and with no member twice from a duplicate-free
      roster and iteration order. */
  method PickWinner(e: Engine, s: Settings, t: Tally, seen: set<set<string>>, excl: set<string>, d: Date,
                    a: Option<string>, k: nat, ob: seq<string>) returns (team: seq<string>)
    requires WellFormed(t) && ValidDate(d)
    requires Solutions(e, s, t, seen, excl, d, a, k, ob) != []
    ensures exists c :: Best(Solutions(e, s, t, seen, excl, d, a, k, ob), c) && c.team == team
    ensures |team| == k && forall x :: x in team ==> x in s.vigili
    ensures CapEnforced(e, s) ==> forall x :: x in team ==> !AtCap(s, t, x, d)
    ensures Distinct(s.vigili) && Distinct(ob) ==> Distinct(team)
  {
    var ci := CiSonoSenior(s, Disponibili(e, s, t, excl, d, k));
    var forced := ForcedOf(e, s, t, excl, d, k, ob);
    BestExists(e, s, t, seen, d, a, ci, forced, CombosOf(e, s, t, excl, d, k, ob));
    var c :| Best(Solutions(e, s, t, seen, excl, d, a, k, ob), c);
    CrewTeamMembers(e, s, t, seen, excl, d, a, k, ob, c);
    CrewTeamShape(e, s, t, seen, excl, d, a, k, ob, c);
    team := c.team;
  }

  /** What the crew search promises about a team it returns for `k`
      places: `k` admitted firefighters of the roster with no hard-forbidden
      pair among them. */
  predicate SearchedTeam(e: Engine, s: Settings, t: Tally, excl: set<string>, d: Date, k: int, team: seq<string>)
    requires WellFormed(t) && ValidDate(d)
  {
    && |team| == k
    && (forall x :: x in team ==> x in s.vigili && CrewAdmitted(e, s, t, excl, d, x))
    && (forall i, j :: 0 <= i < j < |team| ==> {team[i], team[j]} !in s.forbiddenHard)
  }

  /** The cap test of `_aggiungi_varchi_venerdi`, `_ha_raggiunto_limite`:
      it stops the special firefighter exactly where the cap is enforced
      and reached. */
  function CapStops(e: Engine, s: Settings, t: Tally, n: string, d: Date): (r: bool)
    requires WellFormed(t) && ValidDate(d)
    ensures r <==> CapEnforced(e, s) && AtCap(s, t, n, d)
  {
    if e.Current? then HaRaggiuntoLimite(s, t, n, d) else AtCap(s, t, n, d)
  }

  /** Whether `_aggiungi_varchi_venerdi` appends the special firefighter to
      the team `squadra`. */
  predicate BonusAdded(e: Engine, s: Settings, t: Tally, d: Date, squadra: seq<string>)
    requires WellFormed(t) && ValidDate(d)
  {
    Truthy(s.varchi) && s.varchi.value !in squadra && !InFerie(s, s.varchi.value, d) && !CapStops(e, s, t, s.varchi.value, d)
  }

  /** The entry `_aggiungi_varchi_venerdi` writes: none when there is no
      special firefighter or it is already in the team, otherwise one that
      says whether it was added and, if not, why. */
  function BonusLog(e: Engine, s: Settings, t: Tally, d: Date, squadra: seq<string>): (r: seq<LogEntry>)
    requires WellFormed(t) && ValidDate(d)
    ensures r == [] <==> !Truthy(s.varchi) || s.varchi.value in squadra
    ensures r == [LogEntry(d, Vigili, SpecialAdded)] <==> BonusAdded(e, s, t, d, squadra)
    ensures r == [LogEntry(d, Vigili, SpecialOnVacation)] <==>
      Truthy(s.varchi) && s.varchi.value !in squadra && InFerie(s, s.varchi.value, d)
    ensures r == [LogEntry(d, Vigili, SpecialAtCap)] <==>
      Truthy(s.varchi) && s.varchi.value !in squadra && !InFerie(s, s.varchi.value, d) && CapStops(e, s, t, s.varchi.value, d)
    ensures r == [LogEntry(d, Vigili, SpecialAtCap)] ==> CapEnforced(e, s) && AtCap(s, t, s.varchi.value, d)
  {
    if !Truthy(s.varchi) || s.varchi.value in squadra then []
    else if InFerie(s, s.varchi.value, d) then [LogEntry(d, Vigili, SpecialOnVacation)]
    else if CapStops(e, s, t, s.varchi.value, d) then [LogEntry(d, Vigili, SpecialAtCap)]
    else [LogEntry(d, Vigili, SpecialAdded)]
  }

  /** The tests of `_aggiungi_varchi_venerdi` on the counters `t`, in the
      source's order: whether the special firefighter is added, and the
      entry written. */
  method BonusDecision(e: Engine, s: Settings, t: Tally, d: Date, squadra: seq<string>)
    returns (add: bool, entries: seq<LogEntry>)
    requires WellFormed(t) && ValidDate(d)
    ensures add == BonusAdded(e, s, t, d, squadra)
    ensures entries == BonusLog(e, s, t, d, squadra)
  {
    if !Truthy(s.varchi) {
      return false, [];
    }
    var varchi := s.varchi.value;
    if varchi in squadra {
      return false, [];
    }
    if InFerie(s, varchi, d) {
      return false, [LogEntry(d, Vigili, SpecialOnVacation)];
    }
    if CapStops(e, s, t, varchi, d) {
      return false, [LogEntry(d, Vigili, SpecialAtCap)];
    }
    return true, [LogEntry(d, Vigili, SpecialAdded)];
  }

  /** `frozenset(x for x in squadra if x)`: the team's non-empty names. */
  function NamedMembers(team: seq<string>): (r: set<string>)
    ensures forall x :: x in r <==> x in team && |x| > 0
  {
    set x | x in team && |x| > 0
  }

  /** The entry written when the Friday rule keeps the special driver from
      driving. */
  function FridayLog(s: Settings, apply: bool, giorno: Date, sabato: Option<string>): seq<LogEntry>
    requires ValidDate(giorno)
  {
    if FridayRule(s, apply, Weekday(giorno), sabato) then [LogEntry(giorno, Autista, FridayExclusion)] else []
  }

  /** The entry written when the special driver is shown in place of the
      gating driver. */
  function ShowLog(s: Settings, apply: bool, giorno: Date, autista: Option<string>): seq<LogEntry>
    requires ValidDate(giorno)
  {
    if ShowsVarchi(s, apply, Weekday(giorno), autista) then [LogEntry(giorno, Autista, DisplaySubstitution)] else []
  }

  /** The state a day's assignment works on: the driver and firefighter
      counters, the teams seen and the log. */
  datatype DayState = DayState(aut: Tally, vig: Tally, seen: set<set<string>>, log: seq<LogEntry>)

  /** `vigili_base`: three places on a bonus Friday, four otherwise. */
  function BaseSize(s: Settings, apply: bool, dow: int, sabato: Option<string>): nat {
    CrewSize - (if IncludeVarchi(s, apply, dow, sabato) then 1 else 0)
  }

  /** The special firefighter when `_aggiungi_varchi_venerdi` runs (on a
      bonus Friday) and adds it to `team`. */
  function Bonus(e: Engine, s: Settings, t: Tally, d: Date, bonusDay: bool, team: seq<string>): (r: seq<string>)
    requires WellFormed(t) && ValidDate(d)
    ensures r == [] || (bonusDay && BonusAdded(e, s, t, d, team) && r == [s.varchi.value])
  {
    if bonusDay && BonusAdded(e, s, t, d, team) then [s.varchi.value] else []
  }

  /** Whether the special rule is applied on a first attempt: always in the
      legacy engine, which has no such switch, and in the current engine
      when `enable_varchi_rule` is set. */
  predicate ApplyVarchi(e: Engine, s: Settings) {
    e.Legacy? || s.enableVarchi
  }

  lemma SameWeekOnAt(giorno: Date, dow: int, x: Date)
    requires ValidDate(giorno) && ValidDate(x)
    ensures SameWeekOn(giorno, dow)(x) <==> WeekOf(x) == WeekOf(giorno) && Weekday(x) == dow
  {
  }

  /** `_trova_autista_settimanale`: the recorded driver of the first
      assigned date, in insertion order, of the week of `giorno` that falls
      on `dow` (the shown driver when none was recorded for it). */
  method FindWeekdayDriver(order: seq<Date>, assegnazioni: map<Date, Assegnazione>, reali: map<Date, Option<string>>,
                           giorno: Date, dow: int)
    returns (r: Option<string>)
    requires ValidDate(giorno) && forall x :: x in order ==> x in assegnazioni && ValidDate(x)
    ensures r == WeekdayDriver(order, assegnazioni, reali, giorno, dow)
  {
    var weekKey := WeekOf(giorno);
    ghost var p := SameWeekOn(giorno, dow);
    for i := 0 to |order|
      invariant NoneOnBefore(order, i, p)
    {
      var data := order[i];
      SameWeekOnAt(giorno, dow, data);
      if WeekOf(data) == weekKey && Weekday(data) == dow {
        FindFirstAt(order, i, p);
        return if data in reali then reali[data] else assegnazioni[data].autista;
      }
      NoneOnBeforeStep(order, i, p);
    }
    return None;
  }

  /** None of the first `i` dates satisfies `p`. */
  ghost predicate NoneOnBefore(order: seq<Date>, i: int, p: Date -> bool)
    requires 0 <= i <= |order|
  {
    forall j :: 0 <= j < i ==> !p(order[j])
  }

  lemma NoneOnBeforeStep(order: seq<Date>, i: int, p: Date -> bool)
    requires 0 <= i < |order| && NoneOnBefore(order, i, p) && !p(order[i])
    ensures NoneOnBefore(order, i + 1, p)
  {
  }

  /** `m` is below every other key of `keys`. */
  predicate LeastKey(m: WeekKey, keys: set<WeekKey>) {
    forall k :: k in keys && k != m ==> KeyLt(m, k)
  }

  /** The first notes `_log_vincitore` writes: soft pairs accepted,
      (legacy) repeated month-weekday turns, and a team already used. */
  method NoteTeam(e: Engine, s: Settings, t: Tally, seen: set<set<string>>, giorno: Date, team: seq<string>)
    returns (notes: seq<LogEntry>)
    requires WellFormed(t) && ValidDate(giorno)
    ensures notes == TeamNotes(e, s, t, seen, giorno, team)
  {
    var soft := SoftViolations(s, team);
    var meseDow := MonthDayRepeats(t, giorno, team);
    notes := if soft > 0 then [LogEntry(giorno, Vigili, SoftPairsAccepted(soft))] else [];
    if e.Legacy? && meseDow > 0 {
      notes := notes + [LogEntry(giorno, Vigili, MonthDayExceeded(meseDow))];
    }
    if Members(team) in seen {
      notes := notes + [LogEntry(giorno, Vigili, TeamSeenBefore(team))];
    }
  }

  /** A non-empty set of week keys has a least one. */
  lemma {:induction false} MinKeyExists(keys: set<WeekKey>)
    requires keys != {}
    ensures exists m :: m in keys && LeastKey(m, keys)
    decreases |keys|
  {
    var x :| x in keys;
    if keys == {x} {
      assert LeastKey(x, keys);
    } else {
      var rest := keys - {x};
      MinKeyExists(rest);
      var m :| m in rest && LeastKey(m, rest);
      if KeyLt(x, m) {
        forall k | k in keys && k != x ensures KeyLt(x, k) {
          if k != m {
            assert k in rest;
          }
        }
        assert LeastKey(x, keys);
      } else {
        assert KeyLt(m, x);
        forall k | k in keys && k != m ensures KeyLt(m, k) {
          if k != x {
            assert k in rest;
          }
        }
        assert LeastKey(m, keys);
      }
    }
  }

  /** Dates of one year and one ISO week. */
  predicate InWeek(anno: int, k: WeekKey, giorni: seq<Date>) {
    forall i :: 0 <= i < |giorni| ==> ValidDate(giorni[i]) && giorni[i].year == anno && WeekOf(giorni[i]) == k
  }

  /** The dates of one week in the order `costruisci` visits them: mapped
      by weekday, then taken in the order of `_ordine_giorni`. */
  method WeekVisit(anno: int, k: WeekKey, giorni: seq<Date>) returns (days: seq<Date>)
    requires InWeek(anno, k, giorni)
    ensures InWeek(anno, k, days) && Distinct(days)
    ensures forall x :: x in days <==> x in giorni
    ensures forall i, j :: 0 <= i < j < |days| ==> Rank(Weekday(days[i])) < Rank(Weekday(days[j]))
  {
    var giorniPerDow := ByWeekday(giorni);
    ByWeekdayKeepsAll(giorni, anno, k);
    var ordine := OrdineGiorni(giorniPerDow.Keys);
    days := [];
    for j := 0 to |ordine|
      invariant |days| == j
      invariant forall m :: 0 <= m < j ==> ordine[m] in giorniPerDow && days[m] == giorniPerDow[ordine[m]]
    {
      assert ordine[j] in ordine;
      days := days + [giorniPerDow[ordine[j]]];
    }
    WeekVisitFacts(anno, k, giorni, ordine, days);
  }

  /** The days picked by weekday, in the order of `ordine`, are exactly
      the week's days, each once, in increasing rank. */
  lemma WeekVisitFacts(anno: int, k: WeekKey, giorni: seq<Date>, ordine: seq<int>, days: seq<Date>)
    requires InWeek(anno, k, giorni)
    requires forall x :: x in giorni ==> Weekday(x) in ByWeekday(giorni) && ByWeekday(giorni)[Weekday(x)] == x
    requires forall w :: w in ordine <==> w in ByWeekday(giorni).Keys
    requires forall i, j :: 0 <= i < j < |ordine| ==> Rank(ordine[i]) < Rank(ordine[j])
    requires |days| == |ordine|
    requires forall m :: 0 <= m < |ordine| ==> ordine[m] in ByWeekday(giorni) && days[m] == ByWeekday(giorni)[ordine[m]]
    ensures InWeek(anno, k, days) && Distinct(days)
    ensures forall x :: x in days <==> x in giorni
    ensures forall i, j :: 0 <= i < j < |days| ==> Rank(Weekday(days[i])) < Rank(Weekday(days[j]))
  {
    var byDow := ByWeekday(giorni);
    forall m | 0 <= m < |days| ensures days[m] in giorni && Weekday(days[m]) == ordine[m] {
    }
    forall x | x in giorni ensures x in days {
      var m :| 0 <= m < |ordine| && ordine[m] == Weekday(x);
      assert days[m] == x;
    }
  }

  /** Valid dates of year `anno`. */
  predicate InYear(anno: int, xs: seq<Date>) {
    forall i :: 0 <= i < |xs| ==> ValidDate(xs[i]) && xs[i].year == anno
  }

  /** Dates in the order `ProcessedBefore`. */
  predicate VisitSorted(order: seq<Date>) {
    forall i, j :: 0 <= i < j < |order| ==> ValidDate(order[i]) && ValidDate(order[j]) && ProcessedBefore(order[i], order[j])
  }

  /** `per_settimana`: the dates of `date` grouped by ISO week. */
  method GroupByWeek(anno: int, date: seq<Date>) returns (m: map<WeekKey, seq<Date>>)
    requires InYear(anno, date) && Distinct(date)
    ensures forall k :: k in m ==> InWeek(anno, k, m[k]) && Distinct(m[k])
    ensures forall k, x :: k in m ==> (x in m[k] <==> x in date && WeekOf(x) == k)
    ensures forall x :: x in date ==> WeekOf(x) in m
  {
    m := map[];
    for i := 0 to |date|
      invariant Grouped(anno, date[..i], m)
    {
      m := FileDate(anno, date, i, m);
    }
    assert date[..|date|] == date;
  }

  /** The body of the grouping loop: `date[i]` appended to its week's list. */
  method FileDate(anno: int, date: seq<Date>, i: int, m0: map<WeekKey, seq<Date>>) returns (m: map<WeekKey, seq<Date>>)
    requires InYear(anno, date) && Distinct(date) && 0 <= i < |date|
    requires Grouped(anno, date[..i], m0)
    ensures Grouped(anno, date[..i + 1], m)
  {
    var k := WeekOf(date[i]);
    var giorni := if k in m0 then m0[k] else [];
    assert date[..i + 1] == date[..i] + [date[i]];
    GroupStep(anno, date[..i], date[i], m0, giorni);
    m := m0[k := giorni + [date[i]]];
  }

  /** `m` holds the dates of `xs` grouped by ISO week, each group without
      repeats. */
  ghost predicate Grouped(anno: int, xs: seq<Date>, m: map<WeekKey, seq<Date>>) {
    InYear(anno, xs)
    && (forall k :: k in m ==> InWeek(anno, k, m[k]) && Distinct(m[k]))
    && (forall k, x :: k in m ==> (x in m[k] <==> x in xs && WeekOf(x) == k))
    && (forall x :: x in xs ==> WeekOf(x) in m)
  }

  /** Filing one more date, not filed yet, under its week keeps the
      grouping. */
  lemma GroupStep(anno: int, xs: seq<Date>, d: Date, m: map<WeekKey, seq<Date>>, g: seq<Date>)
    requires ValidDate(d) && d.year == anno && d !in xs
    requires Grouped(anno, xs, m)
    requires g == if WeekOf(d) in m then m[WeekOf(d)] else []
    ensures Grouped(anno, xs + [d], m[WeekOf(d) := g + [d]])
  {
    var k := WeekOf(d);
    var m' := m[k := g + [d]];
    var ys := xs + [d];
    assert InWeek(anno, k, g) && Distinct(g) && d !in g;
    Filed(anno, k, g, d);
    assert InYear(anno, ys) by {
      forall i | 0 <= i < |ys| ensures ValidDate(ys[i]) && ys[i].year == anno {
        if i < |xs| {
          assert ys[i] == xs[i];
        }
      }
    }
    forall k' | k' in m' ensures InWeek(anno, k', m'[k']) && Distinct(m'[k']) {
      if k' != k {
        assert m'[k'] == m[k'];
      }
    }
    forall k', x | k' in m' ensures x in m'[k'] <==> x in ys && WeekOf(x) == k' {
      if k' != k {
        assert m'[k'] == m[k'];
      }
    }
    forall x | x in ys ensures WeekOf(x) in m' {
      if x != d {
        assert x in xs;
      }
    }
  }

  /** A week's dates with one more date of that week, not among them. */
  lemma Filed(anno: int, k: WeekKey, g: seq<Date>, d: Date)
    requires InWeek(anno, k, g) && Distinct(g) && d !in g
    requires ValidDate(d) && d.year == anno && WeekOf(d) == k
    ensures InWeek(anno, k, g + [d]) && Distinct(g + [d])
    ensures forall x :: x in g + [d] <==> x in g || x == d
  {
    var h := g + [d];
    forall a | 0 <= a < |h| ensures ValidDate(h[a]) && h[a].year == anno && WeekOf(h[a]) == k {
      if a < |g| {
        assert h[a] == g[a];
      }
    }
    forall a, b | 0 <= a < b < |h| ensures h[a] != h[b] {
      assert h[a] == g[a];
      if b < |g| {
        assert h[b] == g[b];
      }
    }
  }

  /** The order in which `costruisci` visits the dates: the dates grouped
      by ISO week (`per_settimana`), the weeks taken in ascending order of
      their key, each week's dates in the order of `WeekVisit`. */
  method VisitOrder(anno: int, date: seq<Date>) returns (order: seq<Date>)
    requires YearDates(anno, date)
    ensures InYear(anno, order) && Distinct(order) && forall x :: x in order <==> x in date
    ensures VisitSorted(order)
  {
    var perSettimana := GroupByWeek(anno, date);
    var rest := perSettimana.Keys;
    order := [];
    while rest != {}
      invariant rest <= perSettimana.Keys
      invariant InYear(anno, order) && Distinct(order) && VisitSorted(order)
      invariant forall x :: x in order <==> x in date && WeekOf(x) !in rest
      invariant forall x, k :: x in order && k in rest ==> KeyLt(WeekOf(x), k)
      decreases |rest|
    {
      MinKeyExists(rest);
      var k :| k in rest && LeastKey(k, rest);
      var days := WeekVisit(anno, k, perSettimana[k]);
      AppendWeek(anno, order, k, days, rest);
      order := order + days;
      rest := rest - {k};
    }
  }

  /** Appending the least remaining week keeps the visit order sorted and
      free of repeats, and every date visited before every remaining week. */
  lemma AppendWeek(anno: int, order: seq<Date>, k: WeekKey, days: seq<Date>, rest: set<WeekKey>)
    requires InYear(anno, order) && Distinct(order) && VisitSorted(order)
    requires k in rest && LeastKey(k, rest)
    requires forall x, k' :: x in order && k' in rest ==> KeyLt(WeekOf(x), k')
    requires InWeek(anno, k, days) && Distinct(days)
    requires forall i, j :: 0 <= i < j < |days| ==> Rank(Weekday(days[i])) < Rank(Weekday(days[j]))
    ensures InYear(anno, order + days) && Distinct(order + days) && VisitSorted(order + days)
    ensures forall x, k' :: x in order + days && k' in rest - {k} ==> KeyLt(WeekOf(x), k')
  {
    var all := order + days;
    forall i, j | 0 <= i < j < |all|
      ensures all[i] != all[j] && ProcessedBefore(all[i], all[j])
    {
      if j < |order| {
        assert all[i] == order[i] && all[j] == order[j];
      } else if i < |order| {
        assert all[i] == order[i] && all[i] in order;
        assert all[j] == days[j - |order|];
      } else {
        assert all[i] == days[i - |order|] && all[j] == days[j - |order|];
      }
    }
  }

  lemma AppendAssoc<T>(a: seq<T>, b: seq<T>, c: seq<T>, d: seq<T>)
    ensures a + b + c + d == a + (b + c + d)
  {
  }

  /** A processing order: ascending ISO weeks, and inside a week Saturday,
      Friday, Sunday and then the other weekdays ascending. */
  predicate ProcessedBefore(a: Date, b: Date)
    requires ValidDate(a) && ValidDate(b)
  {
    KeyLt(WeekOf(a), WeekOf(b)) || (WeekOf(a) == WeekOf(b) && Rank(Weekday(a)) < Rank(Weekday(b)))
  }

  /** The choice `_scegli_autista` makes on the counters `t`, and the log
      entries it writes: no driver exactly when no candidate survives the
      filters, otherwise a driver with a minimal key in the pool (the random
      tie-break is a free choice among the minimal ones). */
  method PickDriver(e: Engine, s: Settings, t: Tally, esclusioni: set<string>, giorno: Date)
    returns (r: Option<string>, entries: seq<LogEntry>)
    requires WellFormed(t) && ValidDate(giorno)
    ensures r.None? <==> Candidati(e, s, t, esclusioni, giorno) == []
    ensures r.Some? ==> DriverChoice(e, s, t, esclusioni, giorno, r.value)
    ensures r.Some? && CapEnforced(e, s) ==> !AtCap(s, t, r.value, giorno)
    ensures entries == DriverLog(e, s, t, esclusioni, giorno, r)
  {
    var candidati := CollectDrivers(e, s, t, esclusioni, giorno);
    if candidati == [] {
      return None, [LogEntry(giorno, Autista, NoDriverAvailable)];
    }
    var scelto;
    scelto, entries := PickFromCandidates(e, s, t, esclusioni, giorno, candidati);
    r := Some(scelto);
  }

  /** `_scegli_autista` once some candidate survives: the pool (the
      candidates without a turn on this month and weekday, or all of them,
      logged), the random pick from it, and the over-cap note. */
  method PickFromCandidates(e: Engine, s: Settings, t: Tally, esclusioni: set<string>, giorno: Date, candidati: seq<string>)
    returns (scelto: string, entries: seq<LogEntry>)
    requires WellFormed(t) && ValidDate(giorno)
    requires candidati == Candidati(e, s, t, esclusioni, giorno) && candidati != []
    ensures DriverChoice(e, s, t, esclusioni, giorno, scelto)
    ensures CapEnforced(e, s) ==> !AtCap(s, t, scelto, giorno)
    ensures entries == (if Preferiti(e, s, t, esclusioni, giorno) == [] then [LogEntry(giorno, Autista, MonthDayRelaxed)] else [])
      + (if e.Current? && s.capMode.Soft? && AtCap(s, t, scelto, giorno) then [LogEntry(giorno, Autista, DriverOverCap(scelto))] else [])
  {
    var mese, dow := giorno.month, Weekday(giorno);
    var preferiti := Filter(candidati, (n: string) => MonthDayCount(t, n, mese, dow) < 1);
    assert preferiti == Preferiti(e, s, t, esclusioni, giorno);
    var pool := preferiti;
    entries := [];
    if preferiti == [] {
      pool := candidati;
      entries := [LogEntry(giorno, Autista, MonthDayRelaxed)];
    }
    DriverChoiceExists(e, s, t, esclusioni, giorno);
    scelto :| DriverChoice(e, s, t, esclusioni, giorno, scelto);
    if e.Current? && s.capMode.Soft? && AtCap(s, t, scelto, giorno) {
      entries := entries + [LogEntry(giorno, Autista, DriverOverCap(scelto))];
    }
    DriverChoiceSound(e, s, t, esclusioni, giorno, scelto);
  }

  /** A counter that knows every name of its roster and, where the cap is
      enforced and `guarded` holds, respects it. */
  ghost predicate CounterInvariant(e: Engine, s: Settings, names: seq<string>, t: Tally, guarded: bool)
    requires WellFormed(t)
  {
    (forall n :: n in names ==> n in t) && (CapEnforced(e, s) && guarded ==> CapRespected(s, t))
  }

  /** Valid dates of year `anno`, ascending. */
  ghost predicate YearDates(anno: int, date: seq<Date>) {
    (forall i :: 0 <= i < |date| ==> ValidDate(date[i]) && date[i].year == anno) && StrictlyAscending(date)
  }

  /** Recording someone below the cap keeps the invariant. */
  lemma RecordInvariant(e: Engine, s: Settings, names: seq<string>, t: Tally, guarded: bool, n: string, d: Date)
    requires WellFormed(t) && ValidDate(d) && CounterInvariant(e, s, names, t, guarded)
    requires CapEnforced(e, s) && guarded ==> !AtCap(s, t, n, d)
    ensures CounterInvariant(e, s, names, Record(t, n, SlotOf(d)), guarded)
  {
    if CapEnforced(e, s) && guarded {
      RecordKeepsCap(s, t, n, d);
    }
  }

  /** Recording a duplicate-free team below the cap keeps the invariant. */
  lemma RecordAllInvariant(e: Engine, s: Settings, names: seq<string>, t: Tally, guarded: bool, team: seq<string>, d: Date)
    requires WellFormed(t) && ValidDate(d) && CounterInvariant(e, s, names, t, guarded)
    requires CapEnforced(e, s) && guarded ==> Distinct(team) && forall x :: x in team ==> !AtCap(s, t, x, d)
    ensures CounterInvariant(e, s, names, RecordAll(t, team, SlotOf(d)), guarded)
  {
    if CapEnforced(e, s) && guarded {
      RecordAllKeepsCap(s, t, team, d);
    }
  }

  class Scheduler {
    const engine: Engine
    const anno: int
    const cfg: Settings
    /** `date`: the active dates of the year, ascending. */
    const date: seq<Date>
    const contAut: Counters
    const contVig: Counters
    var squadreVisti: set<set<string>>
    var log: seq<LogEntry>
    var autistiReali: map<Date, Option<string>>

    /** The counters are two objects that know every roster name, and where
        the weekly cap is enforced no driver, and (from a duplicate-free
        roster) no firefighter, has more turns in an ISO week than the cap. */
    ghost predicate Valid()
      reads contAut, contVig
    {
      && contAut != contVig && contAut.Valid() && contVig.Valid()
      && CounterInvariant(engine, cfg, cfg.autisti, contAut.entries, true)
      && CounterInvariant(engine, cfg, cfg.vigili, contVig.entries, Distinct(cfg.vigili))
      && YearDates(anno, date)
    }

    /** `Scheduler(anno, config, months)` of the current engine. */
    constructor FromConfig(anno: int, config: ProgramConfig, months: Option<set<int>>)
      requires 1 <= anno <= 9998
      ensures Valid() && engine == Current && this.anno == anno && cfg == SettingsOf(Current, config)
      ensures forall d :: d in date <==>
        ValidDate(d) && d.year == anno && Active(d, ActiveWeekdays(cfg.activeWeekdays), ActiveMonths(months))
      ensures contAut.entries.Keys == Members(cfg.autisti) && contVig.entries.Keys == Members(cfg.vigili)
      ensures squadreVisti == {} && log == [] && autistiReali == map[]
      ensures fresh(contAut) && fresh(contVig)
    {
      var s := SettingsOf(Current, config);
      var giorni := CurrentDates(anno, s.activeWeekdays, months);
      var ca, cv := NewCounterPair(Current, s);
      this.engine := Current;
      this.anno := anno;
      cfg := s;
      date := giorni;
      contAut := ca;
      contVig := cv;
      squadreVisti := {};
      log := [];
      autistiReali := map[];
    }

    /** `Scheduler(anno, config)` of the legacy engine. */
    constructor LegacyFromConfig(anno: int, config: ProgramConfig)
      requires 1 <= anno <= 9998
      ensures Valid() && engine == Legacy && this.anno == anno && cfg == SettingsOf(Legacy, config)
      ensures forall d :: d in date <==> ValidDate(d) && d.year == anno && Weekday(d) in ActiveWeekdays(cfg.activeWeekdays)
      ensures contAut.entries.Keys == Members(cfg.autisti) && contVig.entries.Keys == Members(cfg.vigili)
      ensures squadreVisti == {} && log == [] && autistiReali == map[]
      ensures fresh(contAut) && fresh(contVig)
    {
      var s := SettingsOf(Legacy, config);
      var giorni := LegacyDates(anno, s.activeWeekdays);
      var ca, cv := NewCounterPair(Legacy, s);
      this.engine := Legacy;
      this.anno := anno;
      cfg := s;
      date := giorni;
      contAut := ca;
      contVig := cv;
      squadreVisti := {};
      log := [];
      autistiReali := map[];
    }

    /** `_scegli_autista`: no driver, with its log entry, exactly when no
        candidate survives the filters; otherwise a driver with a minimal
        key in the pool, recorded in `cont_aut`. */
    method ScegliAutista(giorno: Date, esclusioni: set<string>) returns (r: Option<string>)
      requires Valid() && ValidDate(giorno)
      modifies this, contAut
      ensures Valid()
      ensures r.None? <==> Candidati(engine, cfg, old(contAut.entries), esclusioni, giorno) == []
      ensures r.Some? ==> DriverChoice(engine, cfg, old(contAut.entries), esclusioni, giorno, r.value)
      ensures log == old(log) + DriverLog(engine, cfg, old(contAut.entries), esclusioni, giorno, r)
      ensures contAut.entries == if r.Some? then Record(old(contAut.entries), r.value, SlotOf(giorno)) else old(contAut.entries)
      ensures squadreVisti == old(squadreVisti) && autistiReali == old(autistiReali)
    {
      var t := contAut.entries;
      var entries;
      r, entries := PickDriver(engine, cfg, t, esclusioni, giorno);
      ApplyDriver(giorno, r, entries);
    }

    /** The effect of `_scegli_autista` once the choice is made: its entries,
        and the chosen driver's turn. */
    method ApplyDriver(giorno: Date, r: Option<string>, entries: seq<LogEntry>)
      requires Valid() && ValidDate(giorno)
      requires r.Some? && CapEnforced(engine, cfg) ==> !AtCap(cfg, contAut.entries, r.value, giorno)
      modifies this, contAut
      ensures Valid() && log == old(log) + entries
      ensures contAut.entries == if r.Some? then Record(old(contAut.entries), r.value, SlotOf(giorno)) else old(contAut.entries)
      ensures squadreVisti == old(squadreVisti) && autistiReali == old(autistiReali)
    {
      log := log + entries;
      if r.Some? {
        AssignDriver(r.value, giorno);
      }
    }

    /** `self.cont_aut.aggiungi(scelto, giorno)` for a driver below the cap
        where it is enforced. */
    method AssignDriver(n: string, giorno: Date)
      requires Valid() && ValidDate(giorno)
      requires CapEnforced(engine, cfg) ==> !AtCap(cfg, contAut.entries, n, giorno)
      modifies contAut
      ensures Valid() && contAut.entries == Record(old(contAut.entries), n, SlotOf(giorno))
    {
      RecordInvariant(engine, cfg, cfg.autisti, contAut.entries, true, n, giorno);
      contAut.Add(n, giorno);
    }
    /** `_scegli_squadra_vigili`: no place to fill gives the empty team and
        changes nothing; otherwise the search either fails, writing its
        entries and changing nothing else, or finds solutions, and the team
        is that of a best one, logged, recorded in `cont_vig` and added to
        the teams seen. `ob` is the order in which the set of the driver's
        hard preferences is iterated. */
    method ScegliSquadraVigili(giorno: Date, k: int, autista: Option<string>, esclusioni: set<string>)
      returns (r: Option<seq<string>>, ob: seq<string>)
      requires Valid() && ValidDate(giorno)
      modifies this, contVig
      ensures Valid()
      ensures k <= 0 ==> r == Some([]) && log == old(log) && contVig.entries == old(contVig.entries) && squadreVisti == old(squadreVisti)
      ensures k > 0 ==> Distinct(ob) && forall x :: x in ob <==> x in PreferenzeObbligatorie(cfg, autista)
      ensures k > 0 ==> CrewOutcome(old(contVig.entries), old(squadreVisti), old(log), esclusioni, giorno, autista, k, ob, r)
      ensures autistiReali == old(autistiReali)
    {
      if k <= 0 {
        return Some([]), [];
      }
      ob := EnumerateSet(PreferenzeObbligatorie(cfg, autista));
      r := Squadra(giorno, k, autista, esclusioni, ob);
    }

    /** What the search of `_scegli_squadra_vigili` for `k` places leaves
        behind, from the counters `t`, the teams seen `seen` and the log
        `before`. */
    ghost predicate CrewOutcome(t: Tally, seen: set<set<string>>, before: seq<LogEntry>, esclusioni: set<string>,
                                giorno: Date, autista: Option<string>, k: nat, ob: seq<string>, r: Option<seq<string>>)
      requires WellFormed(t) && ValidDate(giorno)
      reads this, contVig
    {
      var search := CrewSearch(engine, cfg, t, seen, esclusioni, giorno, autista, k, ob);
      match search
      case Failed(logs) =>
        r.None? && log == before + logs && contVig.entries == t && squadreVisti == seen
      case Found(sols, logs, _) =>
        && r.Some? && (exists c :: Best(sols, c) && c.team == r.value)
        && log == before + logs + WinnerLog(engine, cfg, t, seen, giorno, r.value)
        && contVig.entries == RecordAll(t, r.value, SlotOf(giorno))
        && squadreVisti == seen + {Members(r.value)}
    }

    /** The crew search only appends to the log. */
    lemma CrewOutcomeLog(t: Tally, seen: set<set<string>>, before: seq<LogEntry>, esclusioni: set<string>,
                         giorno: Date, autista: Option<string>, k: nat, ob: seq<string>, r: Option<seq<string>>)
      requires WellFormed(t) && ValidDate(giorno)
      requires CrewOutcome(t, seen, before, esclusioni, giorno, autista, k, ob, r)
      ensures before <= log
    {
      var search := CrewSearch(engine, cfg, t, seen, esclusioni, giorno, autista, k, ob);
      if search.Failed? {
        PrefixOfAppend(before, search.logs);
      } else {
        PrefixOfAppend(before, search.logs + WinnerLog(engine, cfg, t, seen, giorno, r.value));
      }
    }

    /** `_scegli_squadra_vigili` for `k > 0` places. */
    method Squadra(giorno: Date, k: nat, autista: Option<string>, esclusioni: set<string>, ob: seq<string>)
      returns (r: Option<seq<string>>)
      requires Valid() && ValidDate(giorno)
      requires Distinct(ob)
      modifies this, contVig
      ensures Valid()
      ensures CrewOutcome(old(contVig.entries), old(squadreVisti), old(log), esclusioni, giorno, autista, k, ob, r)
      ensures autistiReali == old(autistiReali)
    {
      var t := contVig.entries;
      var seen := squadreVisti;
      var search := SearchCrew(engine, cfg, t, seen, esclusioni, giorno, autista, k, ob);
      log := log + search.logs;
      if search.Failed? {
        return None;
      }
      var team := PickWinner(engine, cfg, t, seen, esclusioni, giorno, autista, k, ob);
      Commit(giorno, team);
      r := Some(team);
    }

    /** The end of `_scegli_squadra_vigili` once the team is chosen: the
        entries about it, its turns in `cont_vig` and its set among the
        teams seen. */
    method Commit(giorno: Date, team: seq<string>)
      requires Valid() && ValidDate(giorno)
      requires forall x :: x in team ==> x in cfg.vigili
      requires CapEnforced(engine, cfg) && Distinct(cfg.vigili) ==>
        Distinct(team) && forall x :: x in team ==> !AtCap(cfg, contVig.entries, x, giorno)
      modifies this, contVig
      ensures Valid()
      ensures log == old(log) + WinnerLog(engine, cfg, old(contVig.entries), old(squadreVisti), giorno, team)
      ensures contVig.entries == RecordAll(old(contVig.entries), team, SlotOf(giorno))
      ensures squadreVisti == old(squadreVisti) + {Members(team)}
      ensures autistiReali == old(autistiReali)
    {
      var t := contVig.entries;
      LogWinner(giorno, t, team);
      RecordAllInvariant(engine, cfg, cfg.vigili, t, Distinct(cfg.vigili), team, giorno);
      RecordTeam(giorno, team);
      squadreVisti := squadreVisti + {Members(team)};
    }

    /** One entry per name, in order. */
    method LogEach(giorno: Date, names: seq<string>, ev: string -> Event)
      modifies this
      ensures log == old(log) + Entries(giorno, names, ev)
      ensures squadreVisti == old(squadreVisti) && autistiReali == old(autistiReali)
    {
      ghost var start := log;
      for i := 0 to |names|
        invariant log == start + Entries(giorno, names[..i], ev)
        invariant squadreVisti == old(squadreVisti) && autistiReali == old(autistiReali)
      {
        assert Entries(giorno, names[..i + 1], ev) == Entries(giorno, names[..i], ev) + [LogEntry(giorno, Vigili, ev(names[i]))];
        log := log + [LogEntry(giorno, Vigili, ev(names[i]))];
      }
      assert names[..|names|] == names;
    }

    /** The entries about the winning team, before it is recorded. */
    method LogWinner(giorno: Date, t: Tally, team: seq<string>)
      requires WellFormed(t) && ValidDate(giorno)
      modifies this
      ensures log == old(log) + WinnerLog(engine, cfg, t, old(squadreVisti), giorno, team)
      ensures squadreVisti == old(squadreVisti) && autistiReali == old(autistiReali)
    {
      var notes := NoteTeam(engine, cfg, t, squadreVisti, giorno, team);
      log := log + notes;
      if engine.Current? && cfg.capMode.Soft? {
        LogEach(giorno, Filter(team, OverCap(cfg, t, giorno)), OverCapEvent());
      }
      assert log == old(log) + notes + CapNotes(engine, cfg, t, giorno, team);
      if engine.Current? && cfg.summerMode.Soft? {
        LogEach(giorno, Filter(team, Blocked(engine, cfg, giorno)), WaivedEvent());
      }
      assert log == old(log) + notes + CapNotes(engine, cfg, t, giorno, team) + SummerNotes(engine, cfg, giorno, team);
      AppendAssoc(old(log), notes, CapNotes(engine, cfg, t, giorno, team), SummerNotes(engine, cfg, giorno, team));
    }

    /** `for nome in team: self.cont_vig.aggiungi(nome, giorno)` */
    method RecordTeam(giorno: Date, team: seq<string>)
      requires contVig.Valid() && ValidDate(giorno)
      modifies contVig
      ensures contVig.Valid() && contVig.entries == RecordAll(old(contVig.entries), team, SlotOf(giorno))
    {
      for i := 0 to |team|
        invariant contVig.Valid()
        invariant RecordAll(contVig.entries, team[i..], SlotOf(giorno)) == RecordAll(old(contVig.entries), team, SlotOf(giorno))
      {
        assert team[i..][1..] == team[i + 1..];
        contVig.Add(team[i], giorno);
      }
    }

    /** `_aggiungi_varchi_venerdi`: the special firefighter joins the team
        unless none is configured, it is already in the team, it is on
        vacation or the cap stops it; each refusal but the first two is
        logged, and an addition is recorded, logged and makes the team's
        set of names a team seen. */
    method AggiungiVarchiVenerdi(giorno: Date, squadra: seq<string>) returns (r: seq<string>)
      requires Valid() && ValidDate(giorno)
      modifies this, contVig
      ensures Valid()
      ensures r == squadra + if BonusAdded(engine, cfg, old(contVig.entries), giorno, squadra) then [cfg.varchi.value] else []
      ensures contVig.entries ==
        if BonusAdded(engine, cfg, old(contVig.entries), giorno, squadra)
        then Record(old(contVig.entries), cfg.varchi.value, SlotOf(giorno)) else old(contVig.entries)
      ensures squadreVisti ==
        old(squadreVisti) + if BonusAdded(engine, cfg, old(contVig.entries), giorno, squadra) then {NamedMembers(r)} else {}
      ensures log == old(log) + BonusLog(engine, cfg, old(contVig.entries), giorno, squadra)
      ensures autistiReali == old(autistiReali)
    {
      var add, entries := BonusDecision(engine, cfg, contVig.entries, giorno, squadra);
      log := log + entries;
      r := squadra;
      if add {
        r := JoinTeam(giorno, squadra, cfg.varchi.value);
      }
    }

    /** The addition itself: `squadra.append`, `self.cont_vig.aggiungi` and
        the team's names among the teams seen, for someone the cap does not
        stop. */
    method JoinTeam(giorno: Date, squadra: seq<string>, n: string) returns (r: seq<string>)
      requires Valid() && ValidDate(giorno)
      requires !CapStops(engine, cfg, contVig.entries, n, giorno)
      modifies this, contVig
      ensures Valid() && r == squadra + [n]
      ensures contVig.entries == Record(old(contVig.entries), n, SlotOf(giorno))
      ensures squadreVisti == old(squadreVisti) + {NamedMembers(r)}
      ensures log == old(log) && autistiReali == old(autistiReali)
    {
      r := squadra + [n];
      AssignSpecial(n, giorno);
      AddSeen(NamedMembers(r));
    }

    /** `self.squadre_visti.add(team)` */
    method AddSeen(team: set<string>)
      modifies this
      ensures squadreVisti == old(squadreVisti) + {team}
      ensures log == old(log) && autistiReali == old(autistiReali)
    {
      squadreVisti := squadreVisti + {team};
    }

    /** `self.cont_vig.aggiungi` for someone the cap does not stop. */
    method AssignSpecial(n: string, giorno: Date)
      requires Valid() && ValidDate(giorno)
      requires !CapStops(engine, cfg, contVig.entries, n, giorno)
      modifies contVig
      ensures Valid() && contVig.entries == Record(old(contVig.entries), n, SlotOf(giorno))
    {
      RecordInvariant(engine, cfg, cfg.vigili, contVig.entries, Distinct(cfg.vigili), n, giorno);
      contVig.Add(n, giorno);
    }

    /** The driver part of `_costruisci_per_data_internal`: the special
        driver's exclusions (the Friday one logged) and `_scegli_autista`. */
    method ChooseDriver(giorno: Date, sabato: Option<string>, apply: bool) returns (r: Option<string>)
      requires Valid() && ValidDate(giorno)
      modifies this, contAut
      ensures Valid() && unchanged(contVig)
      ensures ChosenDriver(old(contAut.entries), giorno, sabato, apply, r, contAut.entries)
      ensures log == old(log) + FridayLog(cfg, apply, giorno, sabato)
                    + DriverLog(engine, cfg, old(contAut.entries), DriverExclusions(cfg, apply, Weekday(giorno), sabato), giorno, r)
      ensures squadreVisti == old(squadreVisti) && autistiReali == old(autistiReali)
    {
      var dow := Weekday(giorno);
      var esclusioni := DriverExclusions(cfg, apply, dow, sabato);
      log := log + FridayLog(cfg, apply, giorno, sabato);
      r := ScegliAutista(giorno, esclusioni);
    }

    /** `display_autista`, with the entry written when the special driver is
        shown in place of the gating driver. */
    method ShowDriver(giorno: Date, apply: bool, autista: Option<string>) returns (display: Option<string>)
      requires ValidDate(giorno)
      modifies this
      ensures display == DisplayDriver(cfg, apply, Weekday(giorno), autista)
      ensures log == old(log) + ShowLog(cfg, apply, giorno, autista)
      ensures squadreVisti == old(squadreVisti) && autistiReali == old(autistiReali)
    {
      display := autista;
      if ShowsVarchi(cfg, apply, Weekday(giorno), autista) {
        display := cfg.varchi;
        log := log + [LogEntry(giorno, Autista, DisplaySubstitution)];
      }
    }

    /** `_scegli_squadra_vigili` as the day's assignment sees it: for no
        place the empty team and nothing changed; otherwise no team exactly
        when the search fails, else a best solution's team, which the search
        admits, and the state after the search (`AfterSearch`). `ob` is the
        order in which the driver's hard preferences are iterated. */
    method BaseTeam(giorno: Date, k: int, autista: Option<string>, esclusioni: set<string>)
      returns (r: Option<seq<string>>, ghost ob: seq<string>)
      requires Valid() && ValidDate(giorno)
      modifies this, contVig
      ensures Valid() && unchanged(contAut) && autistiReali == old(autistiReali)
      ensures k <= 0 ==> r == Some([]) && State() == old(State())
      ensures k > 0 ==> Distinct(ob) && forall x :: x in ob <==> x in PreferenzeObbligatorie(cfg, autista)
      ensures k > 0 ==> SearchPick(old(contVig.entries), old(squadreVisti), esclusioni, giorno, autista, k, ob, r)
      ensures k > 0 ==> State() == AfterSearch(old(State()), esclusioni, giorno, autista, k, ob, r)
      ensures k > 0 && r.Some? ==> SearchedTeam(engine, cfg, old(contVig.entries), esclusioni, giorno, k, r.value)
    {
      ghost var t, seen, before := contVig.entries, squadreVisti, log;
      r, ob := ScegliSquadraVigili(giorno, k, autista, esclusioni);
      if k > 0 {
        CrewOutcomeFacts(t, seen, before, esclusioni, giorno, autista, k, ob, r);
      }
    }

    /** The driver and firefighter counters, the teams seen and the log. */
    ghost function State(): DayState
      reads this, contAut, contVig
    {
      DayState(contAut.entries, contVig.entries, squadreVisti, log)
    }

    /** The team `_scegli_squadra_vigili` may return for `k > 0` places from
        the counters `t` and the teams seen `seen`: none exactly when the
        search fails, otherwise the team of a best solution. */
    ghost predicate SearchPick(t: Tally, seen: set<set<string>>, excl: set<string>, giorno: Date, autista: Option<string>,
                               k: nat, ob: seq<string>, r: Option<seq<string>>)
      requires WellFormed(t) && ValidDate(giorno)
    {
      match CrewSearch(engine, cfg, t, seen, excl, giorno, autista, k, ob)
      case Failed(_) => r.None?
      case Found(sols, _, _) => r.Some? && exists c :: Best(sols, c) && c.team == r.value
    }

    /** The state after the search of `_scegli_squadra_vigili` returns `r`:
        its entries logged and, for a team, the entries about the winner,
        its turns in `cont_vig` and its names among the teams seen. */
    function AfterSearch(s0: DayState, excl: set<string>, giorno: Date, autista: Option<string>, k: nat, ob: seq<string>,
                         r: Option<seq<string>>): (s1: DayState)
      requires WellFormed(s0.vig) && ValidDate(giorno)
      ensures s1.aut == s0.aut && WellFormed(s1.vig) && s0.log <= s1.log
      ensures r.None? ==> s1.vig == s0.vig && s1.seen == s0.seen
      ensures r.Some? ==> s1.vig == RecordAll(s0.vig, r.value, SlotOf(giorno)) && s1.seen == s0.seen + {Members(r.value)}
    {
      var logs := CrewSearch(engine, cfg, s0.vig, s0.seen, excl, giorno, autista, k, ob).logs;
      if r.None? then DayState(s0.aut, s0.vig, s0.seen, s0.log + logs)
      else DayState(s0.aut, RecordAll(s0.vig, r.value, SlotOf(giorno)), s0.seen + {Members(r.value)},
                    s0.log + logs + WinnerLog(engine, cfg, s0.vig, s0.seen, giorno, r.value))
    }

    /** The state after `_aggiungi_varchi_venerdi` on the team `squadra`,
        when `bonusDay` calls it: its entry logged and, when the special
        firefighter joins, its turn in `cont_vig` and the new team's names
        among the teams seen. */
    function BonusState(m: DayState, giorno: Date, bonusDay: bool, squadra: seq<string>): (s1: DayState)
      requires WellFormed(m.vig) && ValidDate(giorno)
      ensures s1.aut == m.aut && WellFormed(s1.vig) && m.log <= s1.log
      ensures !bonusDay ==> s1 == m
    {
      if !bonusDay then m
      else
        var added := BonusAdded(engine, cfg, m.vig, giorno, squadra);
        DayState(m.aut,
                 if added then Record(m.vig, cfg.varchi.value, SlotOf(giorno)) else m.vig,
                 m.seen + (if added then {NamedMembers(squadra + [cfg.varchi.value])} else {}),
                 m.log + BonusLog(engine, cfg, m.vig, giorno, squadra))
    }

    /** The team of a search outcome is one the search admits and is what
        `cont_vig` recorded; a search without a team recorded nothing. */
    lemma CrewOutcomeFacts(t: Tally, seen: set<set<string>>, before: seq<LogEntry>, esclusioni: set<string>,
                           giorno: Date, autista: Option<string>, k: nat, ob: seq<string>, r: Option<seq<string>>)
      requires WellFormed(t) && ValidDate(giorno)
      requires CrewOutcome(t, seen, before, esclusioni, giorno, autista, k, ob, r)
      ensures r.Some? ==> SearchedTeam(engine, cfg, t, esclusioni, giorno, k, r.value)
      ensures contVig.entries == if r.Some? then RecordAll(t, r.value, SlotOf(giorno)) else t
    {
      var search := CrewSearch(engine, cfg, t, seen, esclusioni, giorno, autista, k, ob);
      if search.Found? {
        var c :| Best(search.sols, c) && c.team == r.value;
        CrewTeamMembers(engine, cfg, t, seen, esclusioni, giorno, autista, k, ob, c);
        CrewTeamShape(engine, cfg, t, seen, esclusioni, giorno, autista, k, ob, c);
        CrewTeamRules(engine, cfg, t, seen, esclusioni, giorno, autista, k, ob, c);
      }
    }

    /** The crew part of `_costruisci_per_data_internal`: a base team of
        three on a bonus Friday and four otherwise, searched without the
        excluded names; no team leaves the shift uncovered (logged) and the
        tuple empty under the chosen driver; otherwise on a bonus Friday the
        special firefighter may join, and the tuple is the team padded to
        four under the shown driver. */
    method ComposeCrew(giorno: Date, sabato: Option<string>, apply: bool, reale: Option<string>, display: Option<string>)
      returns (a: Assegnazione, ghost ob: seq<string>, ghost base: Option<seq<string>>)
      requires Valid() && ValidDate(giorno)
      modifies this, contVig
      ensures Valid() && unchanged(contAut)
      ensures ComposedCrew(old(State()), giorno, sabato, apply, reale, display, a, ob, base, State())
      ensures autistiReali == old(autistiReali)
    {
      var dow := Weekday(giorno);
      var bonusDay := IncludeVarchi(cfg, apply, dow, sabato);
      var k := BaseSize(cfg, apply, dow, sabato);
      var esclusioni := CrewExclusions(engine, cfg, apply, dow, bonusDay, reale);
      var squadra;
      squadra, ob := BaseTeam(giorno, k, reale, esclusioni);
      base := squadra;
      if squadra.None? {
        a := Uncovered(giorno, reale);
        return;
      }
      a := FinishCrew(giorno, bonusDay, display, squadra.value);
    }

    /** The end of `_costruisci_per_data_internal` when no team is found:
        the shift is logged as uncovered, under the chosen driver with four
        empty slots. */
    method Uncovered(giorno: Date, reale: Option<string>) returns (a: Assegnazione)
      modifies this
      ensures a == Assegnazione(giorno, reale, Padded([]))
      ensures State() == DayState(old(State()).aut, old(State()).vig, old(State()).seen, old(log) + [LogEntry(giorno, Vigili, ShiftUncovered)])
      ensures autistiReali == old(autistiReali)
    {
      log := log + [LogEntry(giorno, Vigili, ShiftUncovered)];
      a := Assegnazione(giorno, reale, [None, None, None, None]);
      assert a.vigili == Padded([]);
    }

    /** The end of `_costruisci_per_data_internal` once a team is found: on
        a bonus Friday the special firefighter may join, then the team is
        padded to four slots under the shown driver. */
    method FinishCrew(giorno: Date, bonusDay: bool, display: Option<string>, squadra: seq<string>) returns (a: Assegnazione)
      requires Valid() && ValidDate(giorno)
      modifies this, contVig
      ensures Valid() && unchanged(contAut)
      ensures a.giorno == giorno && a.autista == display
      ensures a.vigili == Padded(squadra + Bonus(engine, cfg, old(contVig.entries), giorno, bonusDay, squadra))
      ensures State() == BonusState(old(State()), giorno, bonusDay, squadra)
      ensures autistiReali == old(autistiReali)
    {
      var lista := squadra;
      if bonusDay {
        lista := AggiungiVarchiVenerdi(giorno, lista);
      }
      var slots := PadCrew(lista);
      a := Assegnazione(giorno, display, slots);
    }

    /** The driver part of `_costruisci_per_data_internal`, from the driver
        counters `aut0` to `aut1`: no driver exactly when no candidate is
        left; otherwise a minimal-key candidate, counted once in `cont_aut`. */
    ghost predicate ChosenDriver(aut0: Tally, giorno: Date, sabato: Option<string>, apply: bool, reale: Option<string>, aut1: Tally)
      requires WellFormed(aut0) && ValidDate(giorno)
    {
      && (reale.None? <==> Candidati(engine, cfg, aut0, DriverExclusions(cfg, apply, Weekday(giorno), sabato), giorno) == [])
      && (reale.Some? ==> DriverChoice(engine, cfg, aut0, DriverExclusions(cfg, apply, Weekday(giorno), sabato), giorno, reale.value))
      && aut1 == (if reale.Some? then Record(aut0, reale.value, SlotOf(giorno)) else aut0)
    }

    /** The crew part of `_costruisci_per_data_internal`, from the state
        `s0` to `s1`: `ob` enumerates the driver's hard preferences and the
        search for the base team picks `base`; no team leaves the shift
        uncovered (logged) with the chosen driver and four empty slots; a
        team is the one the search admits, joined on a bonus Friday by the
        special firefighter when `_aggiungi_varchi_venerdi` adds it, and
        padded to four slots under the shown driver. */
    ghost predicate ComposedCrew(s0: DayState, giorno: Date, sabato: Option<string>, apply: bool, reale: Option<string>,
                                display: Option<string>, a: Assegnazione, ob: seq<string>, base: Option<seq<string>>, s1: DayState)
      requires WellFormed(s0.vig) && ValidDate(giorno)
    {
      var bonusDay := IncludeVarchi(cfg, apply, Weekday(giorno), sabato);
      var k := BaseSize(cfg, apply, Weekday(giorno), sabato);
      var excl := CrewExclusions(engine, cfg, apply, Weekday(giorno), bonusDay, reale);
      var m := AfterSearch(s0, excl, giorno, reale, k, ob, base);
      && a.giorno == giorno && |a.vigili| == CrewSize
      && Distinct(ob) && (forall x :: x in ob <==> x in PreferenzeObbligatorie(cfg, reale))
      && SearchPick(s0.vig, s0.seen, excl, giorno, reale, k, ob, base)
      && (base.None? ==>
            a == Assegnazione(giorno, reale, Padded([])) && s1 == DayState(m.aut, m.vig, m.seen, m.log + [LogEntry(giorno, Vigili, ShiftUncovered)]))
      && (base.Some? ==>
            && a.autista == display
            && SearchedTeam(engine, cfg, s0.vig, excl, giorno, k, base.value)
            && a.vigili == Padded(base.value + Bonus(engine, cfg, m.vig, giorno, bonusDay, base.value))
            && s1 == BonusState(m, giorno, bonusDay, base.value))
    }

    /** The state after the driver part of `_costruisci_per_data_internal`:
        the chosen driver counted, and the Friday entry, the entries of
        `_scegli_autista` and the display entry logged. */
    function DriverState(s0: DayState, giorno: Date, sabato: Option<string>, apply: bool, reale: Option<string>): (s1: DayState)
      requires WellFormed(s0.aut) && WellFormed(s0.vig) && ValidDate(giorno)
      ensures WellFormed(s1.aut) && s1.vig == s0.vig && s1.seen == s0.seen && s0.log <= s1.log
    {
      DayState(if reale.Some? then Record(s0.aut, reale.value, SlotOf(giorno)) else s0.aut, s0.vig, s0.seen,
               s0.log + FridayLog(cfg, apply, giorno, sabato)
               + DriverLog(engine, cfg, s0.aut, DriverExclusions(cfg, apply, Weekday(giorno), sabato), giorno, reale)
               + ShowLog(cfg, apply, giorno, reale))
    }

    /** What one call of `_costruisci_per_data_internal` does, from the
        state `s0` to `s1`: the driver part, then the crew part under the
        name shown for the chosen driver. */
    ghost predicate InternalOutcome(s0: DayState, giorno: Date, sabato: Option<string>, apply: bool,
                                    a: Assegnazione, reale: Option<string>, ob: seq<string>, base: Option<seq<string>>, s1: DayState)
      requires WellFormed(s0.aut) && WellFormed(s0.vig) && ValidDate(giorno)
    {
      var d := DriverState(s0, giorno, sabato, apply, reale);
      && ChosenDriver(s0.aut, giorno, sabato, apply, reale, d.aut)
      && ComposedCrew(d, giorno, sabato, apply, reale, DisplayDriver(cfg, apply, Weekday(giorno), reale), a, ob, base, s1)
    }

    /** `_costruisci_per_data_internal`: the driver chosen without the
        excluded names and counted in `cont_aut`, the name shown for it, and
        the crew. Returns the assignment and the driver actually chosen. */
    method CostruisciPerDataInternal(giorno: Date, sabato: Option<string>, apply: bool)
      returns (a: Assegnazione, reale: Option<string>, ghost ob: seq<string>, ghost base: Option<seq<string>>)
      requires Valid() && ValidDate(giorno)
      modifies this, contAut, contVig
      ensures Valid()
      ensures InternalOutcome(old(State()), giorno, sabato, apply, a, reale, ob, base, State())
      ensures autistiReali == old(autistiReali)
    {
      ghost var s0 := State();
      reale := ChooseDriver(giorno, sabato, apply);
      var display := ShowDriver(giorno, apply, reale);
      assert State() == DriverState(s0, giorno, sabato, apply, reale);
      a, ob, base := ComposeCrew(giorno, sabato, apply, reale, display);
    }

    /** `_trova_autista_settimanale` on this engine's recorded drivers. */
    method TrovaAutistaSettimanale(order: seq<Date>, assegnazioni: map<Date, Assegnazione>, giorno: Date, dow: int)
      returns (r: Option<string>)
      requires ValidDate(giorno) && forall x :: x in order ==> x in assegnazioni && ValidDate(x)
      ensures r == WeekdayDriver(order, assegnazioni, autistiReali, giorno, dow)
    {
      r := FindWeekdayDriver(order, assegnazioni, autistiReali, giorno, dow);
    }

    /** `_costruisci_per_data`: the Saturday driver of the week, one attempt
        with the special rule where it applies and, in the current engine
        with the rule in SOFT mode, a second attempt without it (logged)
        when the first leaves the shift incomplete. The second attempt starts
        from the state the first left: nothing is rolled back. The driver
        actually chosen is recorded for the day. */
    method CostruisciPerData(giorno: Date, order: seq<Date>, assegnazioni: map<Date, Assegnazione>)
      returns (a: Assegnazione, ghost first: Assegnazione, ghost firstDriver: Option<string>, ghost firstOb: seq<string>,
               ghost firstBase: Option<seq<string>>, ghost mid: DayState, ghost retried: bool, ghost reale: Option<string>,
               ghost ob: seq<string>, ghost base: Option<seq<string>>, ghost sabato: Option<string>)
      requires Valid() && ValidDate(giorno)
      requires forall x :: x in order ==> x in assegnazioni && ValidDate(x)
      modifies this, contAut, contVig
      ensures Valid() && WellFormed(mid.aut) && WellFormed(mid.vig)
      ensures sabato == WeekdayDriver(order, assegnazioni, old(autistiReali), giorno, 5)
      ensures InternalOutcome(old(State()), giorno, sabato, ApplyVarchi(engine, cfg), first, firstDriver, firstOb, firstBase, mid)
      ensures retried <==> engine.Current? && cfg.enableVarchi && cfg.varchiMode.Soft? && TurnoIncompleto(first)
      ensures !retried ==> a == first && reale == firstDriver && base == firstBase && State() == mid
      ensures retried ==> InternalOutcome(Retried(mid, giorno), giorno, sabato, false, a, reale, ob, base, State())
      ensures autistiReali == old(autistiReali)[giorno := reale]
    {
      var saturday := TrovaAutistaSettimanale(order, assegnazioni, giorno, 5);
      sabato := saturday;
      var driver;
      a, driver, first, firstDriver, firstOb, firstBase, mid, retried, ob, base := Attempts(giorno, saturday);
      RecordRealDriver(giorno, driver);
      reale := driver;
    }

    /** The state once the retry entry is logged. */
    function Retried(s: DayState, giorno: Date): (r: DayState)
      ensures r.aut == s.aut && r.vig == s.vig && r.seen == s.seen
    {
      DayState(s.aut, s.vig, s.seen, s.log + [LogEntry(giorno, Autista, SpecialRuleRetry)])
    }

    /** The two attempts of `_costruisci_per_data` for the given Saturday
        driver: the first with the special rule where it applies, the second,
        logged, without it, only when the current engine's SOFT rule left the
        shift incomplete. */
    method Attempts(giorno: Date, sabato: Option<string>)
      returns (a: Assegnazione, reale: Option<string>, ghost first: Assegnazione, ghost firstDriver: Option<string>,
               ghost firstOb: seq<string>, ghost firstBase: Option<seq<string>>, ghost mid: DayState, ghost retried: bool,
               ghost ob: seq<string>, ghost base: Option<seq<string>>)
      requires Valid() && ValidDate(giorno)
      modifies this, contAut, contVig
      ensures Valid() && WellFormed(mid.aut) && WellFormed(mid.vig)
      ensures InternalOutcome(old(State()), giorno, sabato, ApplyVarchi(engine, cfg), first, firstDriver, firstOb, firstBase, mid)
      ensures retried <==> engine.Current? && cfg.enableVarchi && cfg.varchiMode.Soft? && TurnoIncompleto(first)
      ensures !retried ==> a == first && reale == firstDriver && base == firstBase && State() == mid
      ensures retried ==> InternalOutcome(Retried(mid, giorno), giorno, sabato, false, a, reale, ob, base, State())
      ensures autistiReali == old(autistiReali)
    {
      var apply := ApplyVarchi(engine, cfg);
      a, reale, firstOb, firstBase := Attempt(giorno, sabato, apply);
      first, firstDriver := a, reale;
      mid := State();
      var retry := engine.Current? && cfg.enableVarchi && cfg.varchiMode.Soft? && TurnoIncompleto(a);
      retried := retry;
      a, reale, ob, base := MaybeRetry(giorno, sabato, retry, a, reale, firstOb, firstBase);
    }

    /** The retry does not roll back the first attempt's driver count: over
        the two attempts a person's annual count rises once for each attempt
        that chose them. */
    lemma RetryCountsBothAttempts(aut0: Tally, midAut: Tally, aut2: Tally, giorno: Date, sabato: Option<string>, apply: bool,
                                  d1: Option<string>, d2: Option<string>, n: string)
      requires WellFormed(aut0) && WellFormed(midAut) && WellFormed(aut2) && ValidDate(giorno)
      requires ChosenDriver(aut0, giorno, sabato, apply, d1, midAut) && ChosenDriver(midAut, giorno, sabato, false, d2, aut2)
      ensures AnnualCount(aut2, n) == AnnualCount(aut0, n) + (if d1 == Some(n) then 1 else 0) + (if d2 == Some(n) then 1 else 0)
    {
      if d1.Some? {
        if d1.value == n {
          RecordOwnCounts(aut0, n, SlotOf(giorno));
        } else {
          RecordOthersUnchanged(aut0, d1.value, SlotOf(giorno), n);
        }
      }
      if d2.Some? {
        if d2.value == n {
          RecordOwnCounts(midAut, n, SlotOf(giorno));
        } else {
          RecordOthersUnchanged(midAut, d2.value, SlotOf(giorno), n);
        }
      }
    }

    /** `autisti_reali[giorno] = autista`. */
    method RecordRealDriver(giorno: Date, driver: Option<string>)
      requires Valid()
      modifies this
      ensures Valid()
      ensures autistiReali == old(autistiReali)[giorno := driver]
      ensures log == old(log) && squadreVisti == old(squadreVisti) && State() == old(State())
    {
      autistiReali := autistiReali[giorno := driver];
    }

    /** The retry of `_costruisci_per_data` when `retry` holds; otherwise the
        first attempt's result stands and nothing changes. */
    method MaybeRetry(giorno: Date, sabato: Option<string>, retry: bool, a0: Assegnazione, driver0: Option<string>,
                      ghost ob0: seq<string>, ghost base0: Option<seq<string>>)
      returns (a: Assegnazione, driver: Option<string>, ghost ob: seq<string>, ghost base: Option<seq<string>>)
      requires Valid() && ValidDate(giorno)
      modifies this, contAut, contVig
      ensures Valid()
      ensures !retry ==> a == a0 && driver == driver0 && base == base0 && State() == old(State())
      ensures retry ==> InternalOutcome(Retried(old(State()), giorno), giorno, sabato, false, a, driver, ob, base, State())
      ensures autistiReali == old(autistiReali)
    {
      a, driver, ob, base := a0, driver0, ob0, base0;
      if retry {
        a, driver, ob, base := Retry(giorno, sabato);
      }
    }

    /** The second attempt of `_costruisci_per_data`: the retry entry is
        logged, then `_costruisci_per_data_internal` runs again without the
        special rule, from the counters as they are. */
    method Retry(giorno: Date, sabato: Option<string>)
      returns (a: Assegnazione, reale: Option<string>, ghost ob: seq<string>, ghost base: Option<seq<string>>)
      requires Valid() && ValidDate(giorno)
      modifies this, contAut, contVig
      ensures Valid()
      ensures InternalOutcome(Retried(old(State()), giorno), giorno, sabato, false, a, reale, ob, base, State())
      ensures autistiReali == old(autistiReali)
    {
      log := log + [LogEntry(giorno, Autista, SpecialRuleRetry)];
      a, reale, ob, base := Attempt(giorno, sabato, false);
    }

    /** One call of `_costruisci_per_data_internal`, with what the day's
        assignment needs of the driver it returns: a roster driver outside
        the exclusions. */
    method Attempt(giorno: Date, sabato: Option<string>, apply: bool)
      returns (a: Assegnazione, reale: Option<string>, ghost ob: seq<string>, ghost base: Option<seq<string>>)
      requires Valid() && ValidDate(giorno)
      modifies this, contAut, contVig
      ensures Valid()
      ensures InternalOutcome(old(State()), giorno, sabato, apply, a, reale, ob, base, State())
      ensures reale.Some? ==> reale.value in cfg.autisti && reale.value !in DriverExclusions(cfg, apply, Weekday(giorno), sabato)
      ensures autistiReali == old(autistiReali)
    {
      ghost var t := contAut.entries;
      a, reale, ob, base := CostruisciPerDataInternal(giorno, sabato, apply);
      if reale.Some? {
        DriverChoiceSound(engine, cfg, t, DriverExclusions(cfg, apply, Weekday(giorno), sabato), giorno, reale.value);
      }
    }

    /** One step of the loop of `costruisci`: `_costruisci_per_data`, with
        what the plan keeps of it. */
    method VisitDay(giorno: Date, order: seq<Date>, assegnazioni: map<Date, Assegnazione>)
      returns (a: Assegnazione, ghost reale: Option<string>, ghost retried: bool, ghost base: Option<seq<string>>)
      requires Valid() && ValidDate(giorno)
      requires forall x :: x in order ==> x in assegnazioni && ValidDate(x)
      modifies this, contAut, contVig
      ensures Valid() && a.giorno == giorno && DayOk(a, reale, retried, base)
      ensures autistiReali == old(autistiReali)[giorno := reale]
    {
      ghost var s0 := State();
      ghost var first, firstDriver, firstOb, firstBase, mid, ob, sabato;
      a, first, firstDriver, firstOb, firstBase, mid, retried, reale, ob, base, sabato := CostruisciPerData(giorno, order, assegnazioni);
      ghost var s1 := State();
      if retried {
        OutcomeDay(Retried(mid, giorno), giorno, sabato, false, a, reale, ob, base, s1);
      } else {
        OutcomeDay(s0, giorno, sabato, ApplyVarchi(engine, cfg), first, firstDriver, firstOb, firstBase, mid);
      }
    }

    /** The crew of a day's assignment `a` under the shown driver
        `display`: an uncovered day shows the real driver over four empty
        slots; otherwise `display` over a base team of roster firefighters,
        none on vacation, none the driver and no two a hard-forbidden pair,
        followed at most by the special firefighter. */
    ghost predicate CrewFacts(a: Assegnazione, reale: Option<string>, display: Option<string>, base: Option<seq<string>>)
      requires ValidDate(a.giorno)
    {
      && |a.vigili| == CrewSize
      && (base.None? ==> a.autista == reale && a.vigili == Padded([]))
      && (base.Some? ==>
            && a.autista == display
            && (forall x :: x in base.value ==> x in cfg.vigili && !InFerie(cfg, x, a.giorno))
            && (Truthy(reale) ==> reale.value !in base.value)
            && (forall i, j :: 0 <= i < j < |base.value| ==> {base.value[i], base.value[j]} !in cfg.forbiddenHard)
            && (a.vigili == Padded(base.value) || (Truthy(cfg.varchi) && a.vigili == Padded(base.value + [cfg.varchi.value]))))
    }

    /** What the plan keeps of a day's assignment `a`, made with the special
        rule applied or not, that later days do not change: a roster driver,
        and the crew under the driver shown for it. */
    ghost predicate DayFacts(a: Assegnazione, reale: Option<string>, apply: bool, base: Option<seq<string>>)
      requires ValidDate(a.giorno)
    {
      && (reale.Some? ==> reale.value in cfg.autisti)
      && CrewFacts(a, reale, DisplayDriver(cfg, apply, Weekday(a.giorno), reale), base)
    }

    /** The facts of a day's assignment `a`, made by a first attempt, or
        by a retry that only the current engine's SOFT special rule allows. */
    ghost predicate DayOk(a: Assegnazione, reale: Option<string>, retried: bool, base: Option<seq<string>>) {
      && ValidDate(a.giorno)
      && (retried ==> engine.Current? && cfg.enableVarchi && cfg.varchiMode.Soft?)
      && DayFacts(a, reale, ApplyVarchi(engine, cfg) && !retried, base)
    }

    /** One call of `_costruisci_per_data_internal` gives an assignment with
        the facts the plan keeps. */
    lemma OutcomeDay(s0: DayState, giorno: Date, sabato: Option<string>, apply: bool,
                     a: Assegnazione, reale: Option<string>, ob: seq<string>, base: Option<seq<string>>, s1: DayState)
      requires WellFormed(s0.aut) && WellFormed(s0.vig) && ValidDate(giorno)
      requires InternalOutcome(s0, giorno, sabato, apply, a, reale, ob, base, s1)
      ensures a.giorno == giorno && DayFacts(a, reale, apply, base)
    {
      var d := DriverState(s0, giorno, sabato, apply, reale);
      if reale.Some? {
        DriverChoiceSound(engine, cfg, s0.aut, DriverExclusions(cfg, apply, Weekday(giorno), sabato), giorno, reale.value);
      }
      ComposedCrewFacts(d, giorno, sabato, apply, reale, DisplayDriver(cfg, apply, Weekday(giorno), reale), a, ob, base, s1);
    }

    /** The crew part of `_costruisci_per_data_internal` gives a crew with
        the facts the plan keeps. */
    lemma ComposedCrewFacts(s0: DayState, giorno: Date, sabato: Option<string>, apply: bool, reale: Option<string>,
                            display: Option<string>, a: Assegnazione, ob: seq<string>, base: Option<seq<string>>, s1: DayState)
      requires WellFormed(s0.vig) && ValidDate(giorno)
      requires ComposedCrew(s0, giorno, sabato, apply, reale, display, a, ob, base, s1)
      ensures a.giorno == giorno && CrewFacts(a, reale, display, base)
    {
      if base.Some? {
        var bonusDay := IncludeVarchi(cfg, apply, Weekday(giorno), sabato);
        var k := BaseSize(cfg, apply, Weekday(giorno), sabato);
        var excl := CrewExclusions(engine, cfg, apply, Weekday(giorno), bonusDay, reale);
        var m := AfterSearch(s0, excl, giorno, reale, k, ob, base);
        SearchedTeamFacts(s0.vig, excl, giorno, k, base.value, reale);
        var extra := Bonus(engine, cfg, m.vig, giorno, bonusDay, base.value);
        if extra != [] {
          assert extra == [cfg.varchi.value];
        } else {
          assert base.value + extra == base.value;
        }
      }
    }

    /** A team the search admits under exclusions that hold the driver:
        roster firefighters, none on vacation, none the driver, no two a
        hard-forbidden pair. */
    lemma SearchedTeamFacts(t: Tally, excl: set<string>, giorno: Date, k: int, team: seq<string>, reale: Option<string>)
      requires WellFormed(t) && ValidDate(giorno)
      requires SearchedTeam(engine, cfg, t, excl, giorno, k, team)
      requires Truthy(reale) ==> reale.value in excl
      ensures forall x :: x in team ==> x in cfg.vigili && !InFerie(cfg, x, giorno)
      ensures Truthy(reale) ==> reale.value !in team
    {
    }

    /** Every assigned day of `m` has the facts the plan keeps, under its
        recorded driver, retry flag and base team. */
    ghost predicate Planned(m: map<Date, Assegnazione>, reali: map<Date, Option<string>>,
                            retried: map<Date, bool>, bases: map<Date, Option<seq<string>>>)
    {
      forall x :: x in m ==> x in reali && x in retried && x in bases && DayOk(m[x], reali[x], retried[x], bases[x])
    }

    /** One more assigned day keeps `Planned`. */
    lemma PlannedUpdate(m: map<Date, Assegnazione>, reali: map<Date, Option<string>>,
                        retried: map<Date, bool>, bases: map<Date, Option<seq<string>>>,
                        d: Date, a: Assegnazione, r: Option<string>, rt: bool, b: Option<seq<string>>)
      requires Planned(m, reali, retried, bases) && DayOk(a, r, rt, b)
      ensures Planned(m[d := a], reali[d := r], retried[d := rt], bases[d := b])
    {
    }

    /** `costruisci`: every active date visited once, weeks in ascending
        order and inside a week Saturday, Friday, Sunday and then the other
        weekdays; the result has one assignment per active date, by date,
        each with the facts of its day's outcome. */
    method Costruisci() returns (result: seq<Assegnazione>, ghost order: seq<Date>,
                                 ghost retried: map<Date, bool>, ghost bases: map<Date, Option<seq<string>>>)
      requires Valid()
      modifies this, contAut, contVig
      ensures Valid()
      ensures |result| == |date| && forall i :: 0 <= i < |date| ==> result[i].giorno == date[i] && |result[i].vigili| == CrewSize
      ensures Distinct(order) && forall x :: x in order <==> x in date
      ensures forall i, j :: 0 <= i < j < |order| ==> ValidDate(order[i]) && ValidDate(order[j]) && ProcessedBefore(order[i], order[j])
      ensures forall x :: x in date ==> x in autistiReali && x in retried && x in bases
      ensures forall i :: 0 <= i < |date| ==> DayOk(result[i], autistiReali[date[i]], retried[date[i]], bases[date[i]])
    {
      var visit := VisitOrder(anno, date);
      order := visit;
      retried, bases := map[], map[];
      var assegnazioni: map<Date, Assegnazione> := map[];
      for i := 0 to |visit|
        invariant Valid()
        invariant forall x :: x in visit[..i] ==> x in assegnazioni && ValidDate(x)
        invariant Dated(assegnazioni) && Planned(assegnazioni, autistiReali, retried, bases)
      {
        var giorno := visit[i];
        var a;
        ghost var reale, rt, b;
        ghost var reali0 := autistiReali;
        a, reale, rt, b := VisitDay(giorno, visit[..i], assegnazioni);
        DatedUpdate(assegnazioni, giorno, a);
        PlannedUpdate(assegnazioni, reali0, retried, bases, giorno, a, reale, rt, b);
        assegnazioni := assegnazioni[giorno := a];
        retried, bases := retried[giorno := rt], bases[giorno := b];
        SliceSnoc(visit, i);
      }
      assert visit[..|visit|] == visit;
      // `sorted(assegnazioni)`: the assigned dates are the active dates, and `date` lists them ascending
      result := seq(|date|, i requires 0 <= i < |date| => assegnazioni[date[i]]);
    }
  }

  /** Every assignment of `m` is for its own date and has four crew slots. */
  ghost predicate Dated(m: map<Date, Assegnazione>) {
    forall x :: x in m ==> m[x].giorno == x && |m[x].vigili| == CrewSize
  }

  /** Adding a day's assignment for that day keeps `Dated`. */
  lemma DatedUpdate(m: map<Date, Assegnazione>, d: Date, a: Assegnazione)
    requires Dated(m) && a.giorno == d && |a.vigili| == CrewSize
    ensures Dated(m[d := a])
  {
  }

  /** The dates of a plan, in its order. */
  function Days(plan: seq<Assegnazione>): (r: seq<Date>)
    ensures |r| == |plan| && forall i :: 0 <= i < |plan| ==> r[i] == plan[i].giorno
  {
    seq(|plan|, i requires 0 <= i < |plan| => plan[i].giorno)
  }

  /** `esegui` of the legacy engine, up to the plan: it refuses an empty
      driver or firefighter roster, and otherwise returns one assignment of
      four crew slots for every active date of the year, ascending, each
      with the facts of its day under the legacy settings of `config`
      (`sched` is the scheduler that built the plan, `reali` its recorded
      real drivers, `bases` each day's base team). */
  method Esegui(anno: int, config: ProgramConfig)
    returns (r: Result<seq<Assegnazione>>, ghost sched: Scheduler?, ghost reali: map<Date, Option<string>>,
             ghost retried: map<Date, bool>, ghost bases: map<Date, Option<seq<string>>>)
    requires 1 <= anno <= 9998
    ensures r.Ok? <==> config.autisti != [] && config.vigili != []
    ensures r.Failure? ==> r == Failure(RosterCheck(config).error)
    ensures r.Ok? ==> StrictlyAscending(Days(r.value))
    ensures r.Ok? ==> forall d :: d in Days(r.value) <==>
      ValidDate(d) && d.year == anno && Weekday(d) in ActiveWeekdays(SettingsOf(Legacy, config).activeWeekdays)
    ensures r.Ok? ==> forall i :: 0 <= i < |r.value| ==> |r.value[i].vigili| == CrewSize
    ensures r.Ok? ==> sched != null && sched.engine == Legacy && sched.cfg == SettingsOf(Legacy, config)
    ensures r.Ok? ==> forall i :: 0 <= i < |r.value| ==>
      var d := r.value[i].giorno;
      d in reali && d in retried && d in bases && !retried[d] && sched.DayOk(r.value[i], reali[d], false, bases[d])
  {
    sched, reali, retried, bases := null, map[], map[], map[];
    var checked := RosterCheck(config);
    if checked.Failure? {
      return Failure(checked.error), sched, reali, retried, bases;
    }
    var scheduler := new Scheduler.LegacyFromConfig(anno, config);
    var plan;
    ghost var order;
    plan, order, retried, bases := scheduler.Costruisci();
    sched, reali := scheduler, scheduler.autistiReali;
    assert Days(plan) == scheduler.date;
    return Ok(plan), sched, reali, retried, bases;
  }
}
