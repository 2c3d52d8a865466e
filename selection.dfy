/** What the two `Scheduler` classes share: the settings fixed when a
    scheduler is built, the filters that admit drivers and firefighters, the
    sort keys and team scores, the team checks, the order of the days inside
    a week and the log entries. Everything here reads the counters as a
    `Tally` value and changes nothing; the class that updates the counters,
    for either engine, is `Scheduler` in the module `Scheduling`.

    Where the engines differ a definition takes an `Engine`: `Current` is
    `vvf_scheduler/core.py`, `Legacy` is `turnivvf.py`. */
module Selection {
  import opened Util
  import opened Calendar
  import opened Counters
  import opened Rules
  import opened Database
  import opened Combinations
  import Config

  datatype Engine = Current | Legacy

  /** `SUMMER_EXCLUDED_MONTHS` */
  const SummerExcludedMonths: set<int> := {7, 8}

  /** `_numero_vigili_previsti`: four firefighters on every weekday. */
  const CrewSize := 4

  /** The scheduler's fields that `__init__` computes and nothing changes
      afterwards. The legacy engine has no rule modes: its settings carry
      `Hard` in every mode field and its definitions never read them. */
  datatype Settings = Settings(
    autisti: seq<string>,
    vigili: seq<string>,
    esperienza: map<string, string>,
    forbiddenHard: set<set<string>>,
    forbiddenSoft: set<set<string>>,
    prefHard: map<string, set<string>>,
    prefSoft: map<string, set<string>>,
    weeklyCap: map<string, int>,
    defaultCap: int,
    capMode: RuleMode,
    seniorMode: RuleMode,
    summerMode: RuleMode,
    varchiMode: RuleMode,
    enableVarchi: bool,
    varchi: Option<string>,
    pogliani: Option<string>,
    summerExcluded: Option<string>,
    minEsperti: int,
    activeWeekdays: set<int>,
    ferie: map<string, seq<Vacation>>,
    varchiIsSenior: bool)

  /** `Assegnazione`: the day, the driver shown for it and four crew slots. */
  datatype Assegnazione = Assegnazione(giorno: Date, autista: Option<string>, vigili: seq<Option<string>>)

  // ---------------------------------------------------------------------------
  // The log: each `_log` call is one entry (day, category, kind of message)

  datatype Category = Autista | Vigili

  datatype Event =
    | NoDriverAvailable
    | MonthDayRelaxed
    | DriverOverCap(driver: string)
    | FridayExclusion
    | DisplaySubstitution
    | SpecialRuleRetry
    | ShiftUncovered
    | SoftCandidatesAdded(capReason: bool, summerReason: bool, names: seq<string>)
    | TooFewCandidates(available: int, needed: int)
    | HardPreferenceMissing(name: string)
    | HardPreferencesTruncated
    | CannotComplete(slots: int, candidates: int)
    | NoSeniorAvailable
    | FewSeniors(count: int)
    | NoValidTeam
    | SoftPairsAccepted(count: int)
    | MonthDayExceeded(count: int)
    | TeamSeenBefore(team: seq<string>)
    | FirefighterOverCap(name: string)
    | SummerRuleWaived(name: string)
    | SpecialOnVacation
    | SpecialAtCap
    | SpecialAdded

  datatype LogEntry = LogEntry(day: Date, category: Category, event: Event)

  // ---------------------------------------------------------------------------
  // Caps, vacations, preferences

  /** `_limite_settimanale`: the person's own cap, else the default cap. */
  function Cap(s: Settings, n: string): int {
    if n in s.weeklyCap then s.weeklyCap[n] else s.defaultCap
  }

  /** `_limite_raggiunto_raw` of the current engine, which is
      `_ha_raggiunto_limite` of the legacy engine: a positive cap that the
      person's count in the day's ISO week has reached. */
  predicate AtCap(s: Settings, t: Tally, n: string, d: Date)
    requires WellFormed(t) && ValidDate(d)
  {
    Cap(s, n) > 0 && WeekCount(t, n, WeekOf(d)) >= Cap(s, n)
  }

  /** Whether a cap that has been reached keeps the person out: only in HARD
      mode in the current engine, always in the legacy one. */
  predicate CapEnforced(e: Engine, s: Settings) {
    e.Legacy? || s.capMode.Hard?
  }

  /** `_ha_raggiunto_limite` of the current engine: never in OFF or SOFT mode,
      and in HARD mode exactly when the cap is reached. */
  function HaRaggiuntoLimite(s: Settings, t: Tally, n: string, d: Date): (r: bool)
    requires WellFormed(t) && ValidDate(d)
    ensures r <==> s.capMode.Hard? && AtCap(s, t, n, d)
  {
    if s.capMode.Off? then false
    else
      var raggiunto := AtCap(s, t, n, d);
      if raggiunto && s.capMode.Soft? then false else raggiunto
  }

  /** `_in_ferie`: one of the person's vacations covers the day, both ends
      included. */
  predicate InFerie(s: Settings, n: string, d: Date) {
    n in s.ferie && exists i :: 0 <= i < |s.ferie[n]| && AtOrBefore(s.ferie[n][i].start, d) && AtOrBefore(d, s.ferie[n][i].end)
  }

  /** `_preferenze_obbligatorie`: the firefighters a driver must be paired
      with; none without a driver. */
  function PreferenzeObbligatorie(s: Settings, a: Option<string>): set<string> {
    if !Truthy(a) then {} else if a.value in s.prefHard then s.prefHard[a.value] else {}
  }

  /** `_preferenze_soft` */
  function PreferenzeSoft(s: Settings, a: Option<string>): set<string> {
    if !Truthy(a) then {} else if a.value in s.prefSoft then s.prefSoft[a.value] else {}
  }

  /** The summer rule's test: the configured firefighter in July or August
      (and, in the current engine, the rule not switched off). */
  predicate SummerBlocked(e: Engine, s: Settings, n: string, d: Date) {
    && Truthy(s.summerExcluded) && n == s.summerExcluded.value && d.month in SummerExcludedMonths
    && (e.Legacy? || !s.summerMode.Off?)
  }

  predicate SummerEnforced(e: Engine, s: Settings) {
    e.Legacy? || s.summerMode.Hard?
  }

  // ---------------------------------------------------------------------------
  // Driver selection (`_scegli_autista`)

  /** The driver filter: not excluded, not on vacation, not kept out by the
      weekly cap. */
  predicate DriverAdmitted(e: Engine, s: Settings, t: Tally, excl: set<string>, d: Date, n: string)
    requires WellFormed(t) && ValidDate(d)
  {
    n !in excl && !InFerie(s, n, d) && !(CapEnforced(e, s) && AtCap(s, t, n, d))
  }

  /** One pass of the candidate loop of `_scegli_autista`. */
  method AdmitDriver(e: Engine, s: Settings, t: Tally, excl: set<string>, d: Date, nome: string) returns (ok: bool)
    requires WellFormed(t) && ValidDate(d)
    ensures ok == Admitted(e, s, t, excl, d)(nome)
  {
    if nome in excl {
      return false;
    }
    if InFerie(s, nome, d) {
      return false;
    }
    var limitRaw := AtCap(s, t, nome, d);
    if CapEnforced(e, s) && limitRaw {
      return false;
    }
    return true;
  }

  /** `candidati`: the admitted drivers, in roster order. */
  function Candidati(e: Engine, s: Settings, t: Tally, excl: set<string>, d: Date): seq<string>
    requires WellFormed(t) && ValidDate(d)
  {
    Filter(s.autisti, Admitted(e, s, t, excl, d))
  }

  function Admitted(e: Engine, s: Settings, t: Tally, excl: set<string>, d: Date): string -> bool
    requires WellFormed(t) && ValidDate(d)
  {
    (n: string) => DriverAdmitted(e, s, t, excl, d, n)
  }

  /** `preferiti`: candidates with no turn yet on this (month, weekday). */
  function Preferiti(e: Engine, s: Settings, t: Tally, excl: set<string>, d: Date): seq<string>
    requires WellFormed(t) && ValidDate(d)
  {
    Filter(Candidati(e, s, t, excl, d), (n: string) => MonthDayCount(t, n, d.month, Weekday(d)) < 1)
  }

  /** `pool`: the preferred candidates, or all candidates when none is
      preferred. */
  function DriverPool(e: Engine, s: Settings, t: Tally, excl: set<string>, d: Date): seq<string>
    requires WellFormed(t) && ValidDate(d)
  {
    var preferiti := Preferiti(e, s, t, excl, d);
    if preferiti == [] then Candidati(e, s, t, excl, d) else preferiti
  }

  /** The deterministic part of the driver sort key; the current engine puts
      drivers over their cap (admitted in SOFT mode) last. */
  function DriverKey(e: Engine, s: Settings, t: Tally, d: Date, n: string): (r: seq<int>)
    requires WellFormed(t) && ValidDate(d)
    ensures |r| == DriverKeyLength(e)
    ensures e.Current? ==> r[0] == (if AtCap(s, t, n, d) then 1 else 0)
  {
    var w := Weekday(d);
    var counts := [WeekCount(t, n, WeekOf(d)), MonthCount(t, n, d.month), AnnualCount(t, n),
                   DowCount(t, n, w), if LastDow(t, n) == Some(w) then 1 else 0];
    if e.Current? then [if AtCap(s, t, n, d) then 1 else 0] + counts else counts
  }

  function DriverKeyLength(e: Engine): nat {
    if e.Current? then 6 else 5
  }

  /** What a sort of the pool on the key followed by a random number puts
      first: some pool member whose key is minimal. */
  predicate DriverChoice(e: Engine, s: Settings, t: Tally, excl: set<string>, d: Date, x: string)
    requires WellFormed(t) && ValidDate(d)
  {
    x in DriverPool(e, s, t, excl, d)
    && forall y :: y in DriverPool(e, s, t, excl, d) ==> LexLe(DriverKey(e, s, t, d, x), DriverKey(e, s, t, d, y))
  }

  /** The log entries `_scegli_autista` writes. */
  function DriverLog(e: Engine, s: Settings, t: Tally, excl: set<string>, d: Date, r: Option<string>): seq<LogEntry>
    requires WellFormed(t) && ValidDate(d)
  {
    if Candidati(e, s, t, excl, d) == [] then [LogEntry(d, Autista, NoDriverAvailable)]
    else
      (if Preferiti(e, s, t, excl, d) == [] then [LogEntry(d, Autista, MonthDayRelaxed)] else [])
      + (if e.Current? && s.capMode.Soft? && r.Some? && AtCap(s, t, r.value, d)
         then [LogEntry(d, Autista, DriverOverCap(r.value))] else [])
  }

  /** The candidate loop of `_scegli_autista`. */
  method CollectDrivers(e: Engine, s: Settings, t: Tally, excl: set<string>, d: Date) returns (candidati: seq<string>)
    requires WellFormed(t) && ValidDate(d)
    ensures candidati == Candidati(e, s, t, excl, d)
  {
    candidati := [];
    for i := 0 to |s.autisti|
      invariant candidati == Filter(s.autisti[..i], Admitted(e, s, t, excl, d))
    {
      var ok := AdmitDriver(e, s, t, excl, d, s.autisti[i]);
      FilterSnoc(s.autisti, i, Admitted(e, s, t, excl, d));
      candidati := candidati + if ok then [s.autisti[i]] else [];
    }
    assert s.autisti[..|s.autisti|] == s.autisti;
  }

  /** The driver picked from a non-empty pool exists, and every driver it can
      be is admitted: not excluded, not on vacation and, where the cap is
      enforced, under it; it has no turn yet on this (month, weekday)
      whenever some candidate has none; in the current engine it is under
      its cap whenever some pool member is. */
  lemma DriverChoiceSound(e: Engine, s: Settings, t: Tally, excl: set<string>, d: Date, x: string)
    requires WellFormed(t) && ValidDate(d)
    requires DriverChoice(e, s, t, excl, d, x)
    ensures x in s.autisti && x !in excl && !InFerie(s, x, d)
    ensures CapEnforced(e, s) ==> !AtCap(s, t, x, d)
    ensures Preferiti(e, s, t, excl, d) != [] ==> MonthDayCount(t, x, d.month, Weekday(d)) < 1
    ensures e.Current? && (exists y :: y in DriverPool(e, s, t, excl, d) && !AtCap(s, t, y, d)) ==> !AtCap(s, t, x, d)
  {
    var pool := DriverPool(e, s, t, excl, d);
    assert x in Candidati(e, s, t, excl, d);
    if e.Current? && exists y :: y in pool && !AtCap(s, t, y, d) {
      var y :| y in pool && !AtCap(s, t, y, d);
      LexLeHead(DriverKey(e, s, t, d, x), DriverKey(e, s, t, d, y));
    }
  }

  /** A driver can be chosen exactly when some candidate survives the
      filters. */
  lemma DriverChoiceExists(e: Engine, s: Settings, t: Tally, excl: set<string>, d: Date)
    requires WellFormed(t) && ValidDate(d)
    ensures Candidati(e, s, t, excl, d) != [] <==> exists x :: DriverChoice(e, s, t, excl, d, x)
  {
    var pool := DriverPool(e, s, t, excl, d);
    if Candidati(e, s, t, excl, d) != [] {
      assert pool != [];
      var m := MinimalExists(pool, (n: string) => DriverKey(e, s, t, d, n), DriverKeyLength(e));
      assert DriverChoice(e, s, t, excl, d, m);
    } else {
      assert pool == [];
    }
  }

  /** A lexicographically smaller key has a first component no larger. */
  lemma LexLeHead(a: seq<int>, b: seq<int>)
    requires |a| == |b| > 0 && LexLe(a, b)
    ensures a[0] <= b[0]
  {
  }

  // ---------------------------------------------------------------------------
  // Crew selection (`_scegli_squadra_vigili`)

  /** The firefighter filter: not excluded, not on vacation, and not kept out
      by the summer rule or the weekly cap where those are enforced. */
  predicate CrewAdmitted(e: Engine, s: Settings, t: Tally, excl: set<string>, d: Date, n: string)
    requires WellFormed(t) && ValidDate(d)
  {
    && n !in excl && !InFerie(s, n, d)
    && !(SummerEnforced(e, s) && SummerBlocked(e, s, n, d))
    && !(CapEnforced(e, s) && AtCap(s, t, n, d))
  }

  /** An admitted firefighter that the summer rule or the cap would keep out
      in HARD mode. */
  predicate SoftBlocked(e: Engine, s: Settings, t: Tally, d: Date, n: string)
    requires WellFormed(t) && ValidDate(d)
  {
    SummerBlocked(e, s, n, d) || AtCap(s, t, n, d)
  }

  /** Admitted and not soft-blocked. */
  function Unblocked(e: Engine, s: Settings, t: Tally, excl: set<string>, d: Date): string -> bool
    requires WellFormed(t) && ValidDate(d)
  {
    (n: string) => CrewAdmitted(e, s, t, excl, d, n) && !SoftBlocked(e, s, t, d, n)
  }

  /** Admitted although soft-blocked. */
  function Fallback(e: Engine, s: Settings, t: Tally, excl: set<string>, d: Date): string -> bool
    requires WellFormed(t) && ValidDate(d)
  {
    (n: string) => CrewAdmitted(e, s, t, excl, d, n) && SoftBlocked(e, s, t, d, n)
  }

  /** `candidati_base` (the legacy engine's `base`) */
  function CandidatiBase(e: Engine, s: Settings, t: Tally, excl: set<string>, d: Date): seq<string>
    requires WellFormed(t) && ValidDate(d)
  {
    Filter(s.vigili, Unblocked(e, s, t, excl, d))
  }

  /** `fallback_candidates` */
  function FallbackCandidates(e: Engine, s: Settings, t: Tally, excl: set<string>, d: Date): seq<string>
    requires WellFormed(t) && ValidDate(d)
  {
    Filter(s.vigili, Fallback(e, s, t, excl, d))
  }

  /** `disponibili`: the unblocked candidates, followed by the soft-blocked
      ones when the unblocked ones are too few for `k` places. */
  function Disponibili(e: Engine, s: Settings, t: Tally, excl: set<string>, d: Date, k: int): seq<string>
    requires WellFormed(t) && ValidDate(d)
  {
    var base := CandidatiBase(e, s, t, excl, d);
    var fallback := FallbackCandidates(e, s, t, excl, d);
    if |base| < k && fallback != [] then base + fallback else base
  }

  /** One pass of the candidate loop of `_scegli_squadra_vigili`: whether
      the firefighter joins `candidati_base` or `fallback_candidates`. */
  method ClassifyFirefighter(e: Engine, s: Settings, t: Tally, excl: set<string>, d: Date, nome: string)
    returns (toBase: bool, toFallback: bool)
    requires WellFormed(t) && ValidDate(d)
    ensures toBase == Unblocked(e, s, t, excl, d)(nome)
    ensures toFallback == Fallback(e, s, t, excl, d)(nome)
  {
    if nome in excl {
      return false, false;
    }
    if InFerie(s, nome, d) {
      return false, false;
    }
    var summerBlock := SummerBlocked(e, s, nome, d);
    var limitRaw := AtCap(s, t, nome, d);
    if SummerEnforced(e, s) && summerBlock {
      return false, false;
    }
    if CapEnforced(e, s) && limitRaw {
      return false, false;
    }
    if summerBlock || limitRaw {
      return false, true;
    }
    return true, false;
  }

  /** The candidate loop of `_scegli_squadra_vigili`. */
  method CollectCrew(e: Engine, s: Settings, t: Tally, excl: set<string>, d: Date)
    returns (base: seq<string>, fallback: seq<string>)
    requires WellFormed(t) && ValidDate(d)
    ensures base == CandidatiBase(e, s, t, excl, d)
    ensures fallback == FallbackCandidates(e, s, t, excl, d)
  {
    base, fallback := [], [];
    for i := 0 to |s.vigili|
      invariant Collected(e, s, t, excl, d, s.vigili[..i], base, fallback)
    {
      var toBase, toFallback := ClassifyFirefighter(e, s, t, excl, d, s.vigili[i]);
      CollectedStep(e, s, t, excl, d, s.vigili, i, base, fallback);
      base := base + if toBase then [s.vigili[i]] else [];
      fallback := fallback + if toFallback then [s.vigili[i]] else [];
    }
    CollectedAll(e, s, t, excl, d, base, fallback);
  }

  /** The two lists of `CollectCrew` after the firefighters `done`. */
  ghost predicate Collected(e: Engine, s: Settings, t: Tally, excl: set<string>, d: Date, done: seq<string>,
                            base: seq<string>, fallback: seq<string>)
    requires WellFormed(t) && ValidDate(d)
  {
    base == Filter(done, Unblocked(e, s, t, excl, d)) && fallback == Filter(done, Fallback(e, s, t, excl, d))
  }

  lemma CollectedStep(e: Engine, s: Settings, t: Tally, excl: set<string>, d: Date, names: seq<string>, i: nat,
                      base: seq<string>, fallback: seq<string>)
    requires WellFormed(t) && ValidDate(d) && i < |names|
    requires Collected(e, s, t, excl, d, names[..i], base, fallback)
    ensures Collected(e, s, t, excl, d, names[..i + 1],
                      base + (if Unblocked(e, s, t, excl, d)(names[i]) then [names[i]] else []),
                      fallback + (if Fallback(e, s, t, excl, d)(names[i]) then [names[i]] else []))
  {
    FilterSnoc(names, i, Unblocked(e, s, t, excl, d));
    FilterSnoc(names, i, Fallback(e, s, t, excl, d));
  }

  lemma CollectedAll(e: Engine, s: Settings, t: Tally, excl: set<string>, d: Date, base: seq<string>, fallback: seq<string>)
    requires WellFormed(t) && ValidDate(d)
    requires Collected(e, s, t, excl, d, s.vigili[..|s.vigili|], base, fallback)
    ensures base == CandidatiBase(e, s, t, excl, d)
    ensures fallback == FallbackCandidates(e, s, t, excl, d)
  {
    assert s.vigili[..|s.vigili|] == s.vigili;
  }

  /** In the legacy engine nobody admitted is soft-blocked: there is no
      fallback, and the pool is the base list. */
  lemma LegacyHasNoFallback(s: Settings, t: Tally, excl: set<string>, d: Date, k: int)
    requires WellFormed(t) && ValidDate(d)
    ensures FallbackCandidates(Legacy, s, t, excl, d) == []
    ensures Disponibili(Legacy, s, t, excl, d, k) == CandidatiBase(Legacy, s, t, excl, d)
  {
    FilterNone(s.vigili, Fallback(Legacy, s, t, excl, d));
  }

  /** Every member of the pool is an admitted firefighter, and a soft-blocked
      one is there only because the unblocked candidates were too few. From a
      duplicate-free roster the pool has no duplicates. */
  lemma DisponibiliSound(e: Engine, s: Settings, t: Tally, excl: set<string>, d: Date, k: int)
    requires WellFormed(t) && ValidDate(d)
    ensures forall x :: x in Disponibili(e, s, t, excl, d, k) ==> x in s.vigili && CrewAdmitted(e, s, t, excl, d, x)
    ensures forall x :: x in Disponibili(e, s, t, excl, d, k) && SoftBlocked(e, s, t, d, x) ==>
      |CandidatiBase(e, s, t, excl, d)| < k
    ensures Distinct(s.vigili) ==> Distinct(Disponibili(e, s, t, excl, d, k))
  {
    var base := CandidatiBase(e, s, t, excl, d);
    var fallback := FallbackCandidates(e, s, t, excl, d);
    if Distinct(s.vigili) && |base| < k && fallback != [] {
      var pool := base + fallback;
      forall i, j | 0 <= i < j < |pool| ensures pool[i] != pool[j] {
        if j >= |base| && i < |base| {
          assert pool[i] in base && pool[j] in fallback;
        } else if i >= |base| {
          assert pool[i] == fallback[i - |base|] && pool[j] == fallback[j - |base|];
        }
      }
    }
  }

  // ---------------------------------------------------------------------------
  // Experience

  predicate IsSenior(s: Settings, n: string) {
    (if n in s.esperienza then s.esperienza[n] else Config.LivJunior) == Config.LivSenior
  }

  /** `ci_sono_senior` */
  predicate CiSonoSenior(s: Settings, pool: seq<string>) {
    exists n :: n in pool && IsSenior(s, n)
  }

  function SeniorCount(s: Settings, team: seq<string>): nat {
    CountOf(team, (n: string) => IsSenior(s, n))
  }

  /** `_team_ok_by_experience` of the legacy engine. */
  function TeamOkByExperience(s: Settings, team: seq<string>, ci: bool): (r: bool)
    ensures r <==> s.minEsperti <= 0 || !ci || SeniorCount(s, team) >= s.minEsperti
  {
    if s.minEsperti <= 0 then true
    else if !ci then true
    else SeniorCount(s, team) >= s.minEsperti
  }

  /** The teams the SENIOR rule turns away: too few SENIORs although the
      pool has one, except when the current engine runs the rule in SOFT
      mode. */
  predicate SeniorRejected(e: Engine, s: Settings, ci: bool, team: seq<string>) {
    if e.Current? then s.minEsperti > 0 && ci && SeniorCount(s, team) < s.minEsperti && !s.seniorMode.Soft?
    else !TeamOkByExperience(s, team, ci) && ci
  }

  /** The teams for which the SENIOR rule is waived, which the first time it
      happens is logged. */
  predicate Derogates(e: Engine, s: Settings, ci: bool, team: seq<string>) {
    HardPairFree(s, team)
    && if e.Current? then s.minEsperti > 0 && (!ci || (SeniorCount(s, team) < s.minEsperti && s.seniorMode.Soft?))
       else !TeamOkByExperience(s, team, ci) && !ci
  }

  /** The legacy engine's "no SENIOR available" entry is never written: a
      team fails `_team_ok_by_experience` only when the pool has a SENIOR. */
  lemma LegacyDerogationNeverLogged(s: Settings, d: Date, ci: bool, forced: seq<string>, combos: seq<seq<string>>)
    ensures DerogationLog(Legacy, s, d, ci, forced, combos) == []
  {
    assert forall j :: 0 <= j < |combos| ==> !Waived(Legacy, s, ci, forced)(combos[j]);
  }

  // ---------------------------------------------------------------------------
  // Pairs

  /** `itertools.combinations(team, 2)`, each pair as a `frozenset`. */
  function Pairs(team: seq<string>): (r: seq<set<string>>)
    ensures |r| == |Combinations.Combinations(team, 2)|
  {
    var cs := Combinations.Combinations(team, 2);
    seq(|cs|, i requires 0 <= i < |cs| => {cs[i][0], cs[i][1]})
  }

  /** No pair of the team is hard-forbidden. */
  predicate HardPairFree(s: Settings, team: seq<string>) {
    forall p :: p in Pairs(team) ==> p !in s.forbiddenHard
  }

  /** `violazioni_soft`: the pairs of the team that are soft-forbidden. */
  function SoftViolations(s: Settings, team: seq<string>): nat {
    CountOf(Pairs(team), (p: set<string>) => p in s.forbiddenSoft)
  }

  /** Any two positions of the team make one of its pairs. */
  lemma PairOfPositions(team: seq<string>, i: int, j: int)
    requires 0 <= i < j < |team|
    ensures {team[i], team[j]} in Pairs(team)
  {
    var idx := [i, j];
    assert Increasing(idx, |team|);
    CombinationsComplete(team, 2, idx);
    var cs := Combinations.Combinations(team, 2);
    var w :| 0 <= w < |cs| && cs[w] == Pick(team, idx);
    assert Pairs(team)[w] == {team[i], team[j]};
  }

  /** A team that passes the hard-pair test has no hard-forbidden pair at any
      two positions. */
  lemma HardPairFreeSound(s: Settings, team: seq<string>)
    requires HardPairFree(s, team)
    ensures forall i, j :: 0 <= i < j < |team| ==> {team[i], team[j]} !in s.forbiddenHard
  {
    forall i, j | 0 <= i < j < |team| ensures {team[i], team[j]} !in s.forbiddenHard {
      PairOfPositions(team, i, j);
    }
  }

  // ---------------------------------------------------------------------------
  // Scores

  /** The deterministic part of the team score: soft-forbidden pairs, members
      already out on this (month, weekday), a team seen before, then the
      week, month, year and weekday loads, and last the members whose last
      turn fell on this weekday and the soft preferences matched (negated),
      in that order in the current engine and the other way round in the
      legacy one. */
  function Score(e: Engine, s: Settings, t: Tally, seen: set<set<string>>, d: Date, a: Option<string>, team: seq<string>): (r: seq<int>)
    requires WellFormed(t) && ValidDate(d)
    ensures |r| == 9
  {
    var soft := SoftViolations(s, team);
    var meseDow := MonthDayRepeats(t, d, team);
    var nuova := if Members(team) in seen then 1 else 0;
    var loads := Loads(t, d, team);
    var ripetizioni := WeekdayRepeats(t, d, team);
    var preferenze := 0 - SoftPreferenceMatches(s, a, team) as int;
    if e.Current? then [soft, meseDow, nuova] + loads + [ripetizioni, preferenze]
    else [soft, meseDow, nuova] + loads + [preferenze, ripetizioni]
  }

  /** The members the driver has a soft preference for. */
  function SoftPreferenceMatches(s: Settings, a: Option<string>, team: seq<string>): nat {
    var preferiti := PreferenzeSoft(s, a);
    CountOf(team, (n: string) => n in preferiti)
  }

  /** `violazioni_mese_dow`: members already out on this (month, weekday). */
  function MonthDayRepeats(t: Tally, d: Date, team: seq<string>): nat
    requires WellFormed(t) && ValidDate(d)
  {
    var m, w := d.month, Weekday(d);
    CountOf(team, (n: string) => MonthDayCount(t, n, m, w) >= 1)
  }

  /** The week, month, year and weekday loads of the team. */
  function Loads(t: Tally, d: Date, team: seq<string>): (r: seq<int>)
    requires WellFormed(t) && ValidDate(d)
    ensures |r| == 4
  {
    var m, w, k := d.month, Weekday(d), WeekOf(d);
    [SumOf(team, (n: string) => WeekCount(t, n, k)), SumOf(team, (n: string) => MonthCount(t, n, m)),
     SumOf(team, (n: string) => AnnualCount(t, n)), SumOf(team, (n: string) => DowCount(t, n, w))]
  }

  /** `ripetizioni_recenti`: members whose last turn fell on this weekday. */
  function WeekdayRepeats(t: Tally, d: Date, team: seq<string>): nat
    requires WellFormed(t) && ValidDate(d)
  {
    var w := Weekday(d);
    CountOf(team, (n: string) => LastDow(t, n) == Some(w))
  }

  /** The two engines rank teams alike on the first seven components and swap
      the last two. */
  lemma ScoreEnginesSwapLastTwo(s: Settings, t: Tally, seen: set<set<string>>, d: Date, a: Option<string>, team: seq<string>)
    requires WellFormed(t) && ValidDate(d)
    ensures Score(Legacy, s, t, seen, d, a, team)[..7] == Score(Current, s, t, seen, d, a, team)[..7]
    ensures Score(Legacy, s, t, seen, d, a, team)[7] == Score(Current, s, t, seen, d, a, team)[8]
    ensures Score(Legacy, s, t, seen, d, a, team)[8] == Score(Current, s, t, seen, d, a, team)[7]
  {
  }

  datatype Candidate = Candidate(score: seq<int>, team: seq<string>)

  /** One combination: the forced members followed by `extra`, dropped when a
      pair is hard-forbidden or the SENIOR rule turns it away, scored
      otherwise. */
  function Evaluate(e: Engine, s: Settings, t: Tally, seen: set<set<string>>, d: Date, a: Option<string>,
                    ci: bool, forced: seq<string>, extra: seq<string>): (r: Option<Candidate>)
    requires WellFormed(t) && ValidDate(d)
    ensures r.Some? <==> HardPairFree(s, forced + extra) && !SeniorRejected(e, s, ci, forced + extra)
    ensures r.Some? ==> r.value.team == forced + extra && |r.value.score| == 9
  {
    var team := forced + extra;
    if !HardPairFree(s, team) then None
    else if SeniorRejected(e, s, ci, team) then None
    else Some(Candidate(Score(e, s, t, seen, d, a, team), team))
  }

  function Evaluator(e: Engine, s: Settings, t: Tally, seen: set<set<string>>, d: Date, a: Option<string>,
                     ci: bool, forced: seq<string>): seq<string> -> Option<Candidate>
    requires WellFormed(t) && ValidDate(d)
  {
    (extra: seq<string>) => Evaluate(e, s, t, seen, d, a, ci, forced, extra)
  }

  function Waived(e: Engine, s: Settings, ci: bool, forced: seq<string>): seq<string> -> bool {
    (extra: seq<string>) => Derogates(e, s, ci, forced + extra)
  }

  /** The entry written the first time the SENIOR rule is waived. */
  function DerogationLog(e: Engine, s: Settings, d: Date, ci: bool, forced: seq<string>, combos: seq<seq<string>>): seq<LogEntry> {
    DerogationEntry(s, d, ci, forced, combos, FindFirst(combos, Waived(e, s, ci, forced)))
  }

  function DerogationEntry(s: Settings, d: Date, ci: bool, forced: seq<string>, combos: seq<seq<string>>, first: Option<nat>): seq<LogEntry>
    requires first.Some? ==> first.value < |combos|
  {
    match first
    case None => []
    case Some(i) =>
      [LogEntry(d, Vigili, if ci then FewSeniors(SeniorCount(s, forced + combos[i])) else NoSeniorAvailable)]
  }

  /** The loop over the combinations of `_scegli_squadra_vigili`: the scored
      survivors in combination order, and the derogation entry. */
  method ValutaCombinazioni(e: Engine, s: Settings, t: Tally, seen: set<set<string>>, d: Date, a: Option<string>,
                            ci: bool, forced: seq<string>, combos: seq<seq<string>>)
    returns (sols: seq<Candidate>, logs: seq<LogEntry>)
    requires WellFormed(t) && ValidDate(d)
    ensures sols == FilterMap(combos, Evaluator(e, s, t, seen, d, a, ci, forced))
    ensures logs == DerogationLog(e, s, d, ci, forced, combos)
  {
    sols, logs := [], [];
    var logged := false;
    ghost var first: Option<nat> := None;
    for i := 0 to |combos|
      invariant Evaluated(e, s, t, seen, d, a, ci, forced, combos, i, sols, logs, logged, first)
    {
      sols, logs, logged, first := ExamineNext(e, s, t, seen, d, a, ci, forced, combos, i, sols, logs, logged, first);
    }
    assert combos[..|combos|] == combos;
  }

  /** The body of the loop over the combinations: combination `i` examined,
      its candidate and entry appended. */
  method ExamineNext(e: Engine, s: Settings, t: Tally, seen: set<set<string>>, d: Date, a: Option<string>,
                     ci: bool, forced: seq<string>, combos: seq<seq<string>>, i: int,
                     sols0: seq<Candidate>, logs0: seq<LogEntry>, logged0: bool, ghost first0: Option<nat>)
    returns (sols: seq<Candidate>, logs: seq<LogEntry>, logged: bool, ghost first: Option<nat>)
    requires WellFormed(t) && ValidDate(d) && i < |combos|
    requires Evaluated(e, s, t, seen, d, a, ci, forced, combos, i, sols0, logs0, logged0, first0)
    ensures Evaluated(e, s, t, seen, d, a, ci, forced, combos, i + 1, sols, logs, logged, first)
  {
    var sol, entry := Examine(e, s, t, seen, d, a, ci, forced, combos[i], logged0);
    first := EvaluatedStep(e, s, t, seen, d, a, ci, forced, combos, i, sols0, logs0, logged0, first0, sol, entry);
    logs := logs0 + entry;
    logged := logged0 || entry != [];
    sols := sols0 + if sol.Some? then [sol.value] else [];
  }

  /** What `valuta_combinazioni` holds after the first `i` combinations:
      the candidates so far, and the one derogation entry of the first
      waived team so far. */
  ghost predicate Evaluated(e: Engine, s: Settings, t: Tally, seen: set<set<string>>, d: Date, a: Option<string>,
                            ci: bool, forced: seq<string>, combos: seq<seq<string>>, i: int,
                            sols: seq<Candidate>, logs: seq<LogEntry>, logged: bool, first: Option<nat>)
    requires WellFormed(t) && ValidDate(d)
  {
    && 0 <= i <= |combos|
    && sols == FilterMap(combos[..i], Evaluator(e, s, t, seen, d, a, ci, forced))
    && first == FindFirst(combos[..i], Waived(e, s, ci, forced))
    && (first.Some? ==> first.value < i)
    && logs == DerogationEntry(s, d, ci, forced, combos, first)
    && (logged <==> first.Some?)
  }

  /** One more combination examined keeps `Evaluated`. */
  lemma EvaluatedStep(e: Engine, s: Settings, t: Tally, seen: set<set<string>>, d: Date, a: Option<string>,
                      ci: bool, forced: seq<string>, combos: seq<seq<string>>, i: int,
                      sols: seq<Candidate>, logs: seq<LogEntry>, logged: bool, first: Option<nat>,
                      sol: Option<Candidate>, entry: seq<LogEntry>)
    returns (next: Option<nat>)
    requires WellFormed(t) && ValidDate(d) && i < |combos|
    requires Evaluated(e, s, t, seen, d, a, ci, forced, combos, i, sols, logs, logged, first)
    requires sol == Evaluate(e, s, t, seen, d, a, ci, forced, combos[i])
    requires entry == if !logged && Derogates(e, s, ci, forced + combos[i]) then
      [LogEntry(d, Vigili, if ci then FewSeniors(SeniorCount(s, forced + combos[i])) else NoSeniorAvailable)] else []
    ensures Evaluated(e, s, t, seen, d, a, ci, forced, combos, i + 1, sols + (if sol.Some? then [sol.value] else []),
                      logs + entry, logged || entry != [], next)
  {
    next := DerogationStep(e, s, d, ci, forced, combos, i, first, logged, entry);
    SolutionStep(e, s, t, seen, d, a, ci, forced, combos, i, sols, sol);
  }

  lemma SolutionStep(e: Engine, s: Settings, t: Tally, seen: set<set<string>>, d: Date, a: Option<string>,
                     ci: bool, forced: seq<string>, combos: seq<seq<string>>, i: nat, sols: seq<Candidate>, sol: Option<Candidate>)
    requires WellFormed(t) && ValidDate(d) && i < |combos|
    requires sols == FilterMap(combos[..i], Evaluator(e, s, t, seen, d, a, ci, forced))
    requires sol == Evaluate(e, s, t, seen, d, a, ci, forced, combos[i])
    ensures FilterMap(combos[..i + 1], Evaluator(e, s, t, seen, d, a, ci, forced)) == sols + (if sol.Some? then [sol.value] else [])
  {
    FilterMapSnoc(combos, i, Evaluator(e, s, t, seen, d, a, ci, forced));
  }

  /** The first waived combination after looking at combination `i`, and
      the entry it brings. */
  lemma DerogationStep(e: Engine, s: Settings, d: Date, ci: bool, forced: seq<string>, combos: seq<seq<string>>,
                       i: nat, first: Option<nat>, logged: bool, entry: seq<LogEntry>)
    returns (next: Option<nat>)
    requires i < |combos| && first == FindFirst(combos[..i], Waived(e, s, ci, forced))
    requires first.Some? ==> first.value < i
    requires logged <==> first.Some?
    requires entry == if !logged && Derogates(e, s, ci, forced + combos[i]) then
      [LogEntry(d, Vigili, if ci then FewSeniors(SeniorCount(s, forced + combos[i])) else NoSeniorAvailable)] else []
    ensures next == FindFirst(combos[..i + 1], Waived(e, s, ci, forced))
    ensures next.Some? ==> next.value < i + 1
    ensures next == if entry != [] then Some(i) else first
    ensures DerogationEntry(s, d, ci, forced, combos, next) ==
      DerogationEntry(s, d, ci, forced, combos, first) + entry
  {
    FindFirstSnoc(combos, i, Waived(e, s, ci, forced));
    next := if entry != [] then Some(i) else first;
  }

  /** One pass of the loop over the combinations: the scored team, unless
      a hard pair or the SENIOR rule rejects it, and the derogation entry
      when the SENIOR rule is waived and nothing was logged yet. */
  method Examine(e: Engine, s: Settings, t: Tally, seen: set<set<string>>, d: Date, a: Option<string>,
                 ci: bool, forced: seq<string>, extra: seq<string>, logged: bool)
    returns (sol: Option<Candidate>, entry: seq<LogEntry>)
    requires WellFormed(t) && ValidDate(d)
    ensures sol == Evaluate(e, s, t, seen, d, a, ci, forced, extra)
    ensures entry == if !logged && Derogates(e, s, ci, forced + extra) then
      [LogEntry(d, Vigili, if ci then FewSeniors(SeniorCount(s, forced + extra)) else NoSeniorAvailable)] else []
  {
    var team := forced + extra;
    entry := [];
    if !HardPairFree(s, team) {
      return None, [];
    }
    var seniorCount := SeniorCount(s, team);
    if e.Current? {
      if s.minEsperti > 0 {
        if !ci && !logged {
          entry := [LogEntry(d, Vigili, NoSeniorAvailable)];
        }
        if ci && seniorCount < s.minEsperti {
          if s.seniorMode.Soft? {
            if !logged {
              entry := [LogEntry(d, Vigili, FewSeniors(seniorCount))];
            }
          } else {
            return None, entry;
          }
        }
      }
    } else {
      if !TeamOkByExperience(s, team, ci) {
        if !ci && !logged {
          entry := [LogEntry(d, Vigili, NoSeniorAvailable)];
        }
        if ci {
          return None, entry;
        }
      }
    }
    sol := Some(Candidate(Score(e, s, t, seen, d, a, team), team));
  }

  // ---------------------------------------------------------------------------
  // The winning team

  /** What sorting the solutions on their score followed by a random number
      puts first: some solution whose score is minimal. */
  predicate Best(sols: seq<Candidate>, c: Candidate) {
    c in sols && forall y :: y in sols ==> |c.score| == |y.score| && LexLe(c.score, y.score)
  }

  /** Every solution is a scored combination: its team is the forced members
      followed by one of the combinations, it passes the hard-pair and SENIOR
      tests, and its score is the team's score. */
  lemma SolutionOrigin(e: Engine, s: Settings, t: Tally, seen: set<set<string>>, d: Date, a: Option<string>,
                       ci: bool, forced: seq<string>, combos: seq<seq<string>>, c: Candidate)
    requires WellFormed(t) && ValidDate(d)
    requires c in FilterMap(combos, Evaluator(e, s, t, seen, d, a, ci, forced))
    ensures exists i :: 0 <= i < |combos| && c.team == forced + combos[i]
    ensures HardPairFree(s, c.team) && !SeniorRejected(e, s, ci, c.team)
    ensures c.score == Score(e, s, t, seen, d, a, c.team)
  {
    var i :| 0 <= i < |combos| && Evaluator(e, s, t, seen, d, a, ci, forced)(combos[i]) == Some(c);
    assert Evaluate(e, s, t, seen, d, a, ci, forced, combos[i]) == Some(c);
  }

  /** A non-empty list of solutions has a best one. */
  lemma BestExists(e: Engine, s: Settings, t: Tally, seen: set<set<string>>, d: Date, a: Option<string>,
                   ci: bool, forced: seq<string>, combos: seq<seq<string>>)
    requires WellFormed(t) && ValidDate(d)
    requires FilterMap(combos, Evaluator(e, s, t, seen, d, a, ci, forced)) != []
    ensures exists c :: Best(FilterMap(combos, Evaluator(e, s, t, seen, d, a, ci, forced)), c)
  {
    var sols := FilterMap(combos, Evaluator(e, s, t, seen, d, a, ci, forced));
    forall c | c in sols ensures |c.score| == 9 {
      SolutionOrigin(e, s, t, seen, d, a, ci, forced, combos, c);
    }
    var m := MinimalExists(sols, (c: Candidate) => c.score, 9);
    assert Best(sols, m);
  }

  /** The best team has no more soft-forbidden pairs than any other solution:
      that count leads the score. */
  lemma BestMinimisesSoftViolations(e: Engine, s: Settings, t: Tally, seen: set<set<string>>, d: Date, a: Option<string>,
                                    ci: bool, forced: seq<string>, combos: seq<seq<string>>, c: Candidate)
    requires WellFormed(t) && ValidDate(d)
    requires Best(FilterMap(combos, Evaluator(e, s, t, seen, d, a, ci, forced)), c)
    ensures forall y :: y in FilterMap(combos, Evaluator(e, s, t, seen, d, a, ci, forced)) ==>
      SoftViolations(s, c.team) <= SoftViolations(s, y.team)
  {
    var sols := FilterMap(combos, Evaluator(e, s, t, seen, d, a, ci, forced));
    SolutionOrigin(e, s, t, seen, d, a, ci, forced, combos, c);
    forall y | y in sols ensures SoftViolations(s, c.team) <= SoftViolations(s, y.team) {
      SolutionOrigin(e, s, t, seen, d, a, ci, forced, combos, y);
      LexLeHead(c.score, y.score);
    }
  }

  // ---------------------------------------------------------------------------
  // The search for a crew, as a value

  /** How the search ends: with no team and the entries written on the way,
      or with the solutions, the entries written before the winner is
      picked, and the forced members. */
  datatype Search =
    | Failed(logs: seq<LogEntry>)
    | Found(sols: seq<Candidate>, logs: seq<LogEntry>, forced: seq<string>)

  /** The first `k` elements, or all of them when there are fewer. */
  function Take(xs: seq<string>, k: nat): (r: seq<string>)
    ensures |r| <= k && (|xs| <= k ==> r == xs) && (|xs| > k ==> |r| == k)
    ensures forall i :: 0 <= i < |r| ==> r[i] == xs[i]
  {
    if |xs| > k then xs[..k] else xs
  }

  /** `residui`: the pool without the forced members. */
  function Residui(pool: seq<string>, forced: seq<string>): seq<string> {
    Filter(pool, NotIn(forced))
  }

  function In(xs: seq<string>): string -> bool {
    (n: string) => n in xs
  }

  function NotIn(xs: seq<string>): string -> bool {
    (n: string) => n !in xs
  }

  function MissingEvent(): string -> Event {
    (n: string) => HardPreferenceMissing(n)
  }

  /** One entry per name, in order. */
  function Entries(d: Date, names: seq<string>, ev: string -> Event): (r: seq<LogEntry>)
    ensures |r| == |names| && forall i :: 0 <= i < |r| ==> r[i] == LogEntry(d, Vigili, ev(names[i]))
  {
    seq(|names|, i requires 0 <= i < |names| => LogEntry(d, Vigili, ev(names[i])))
  }

  /** The entry announcing that soft-blocked candidates join the pool, and
      which of the two rules they break. */
  function SoftAddedLog(e: Engine, s: Settings, t: Tally, excl: set<string>, d: Date, k: int): seq<LogEntry>
    requires WellFormed(t) && ValidDate(d)
  {
    var fallback := FallbackCandidates(e, s, t, excl, d);
    if |CandidatiBase(e, s, t, excl, d)| < k && fallback != [] then
      [LogEntry(d, Vigili, SoftCandidatesAdded(exists n :: n in fallback && AtCap(s, t, n, d),
                                               exists n :: n in fallback && SummerBlocked(e, s, n, d), fallback))]
    else []
  }

  /** `disponibili_obbligatori` after the cut to `k`: the driver's hard
      preferences present in the pool, in the order `ob` in which their set
      is iterated. */
  function ForcedOf(e: Engine, s: Settings, t: Tally, excl: set<string>, d: Date, k: nat, ob: seq<string>): (r: seq<string>)
    requires WellFormed(t) && ValidDate(d)
    ensures |r| <= k
  {
    Take(Filter(ob, In(Disponibili(e, s, t, excl, d, k))), k)
  }

  function ResiduiOf(e: Engine, s: Settings, t: Tally, excl: set<string>, d: Date, k: nat, ob: seq<string>): seq<string>
    requires WellFormed(t) && ValidDate(d)
  {
    Residui(Disponibili(e, s, t, excl, d, k), ForcedOf(e, s, t, excl, d, k, ob))
  }

  /** `combinazioni`: the selections of the places left after the forced
      members (`[()]` when none is left, as `Combinations` gives for 0). */
  function CombosOf(e: Engine, s: Settings, t: Tally, excl: set<string>, d: Date, k: nat, ob: seq<string>): seq<seq<string>>
    requires WellFormed(t) && ValidDate(d)
  {
    Combinations.Combinations(ResiduiOf(e, s, t, excl, d, k, ob), SlotsOf(e, s, t, excl, d, k, ob))
  }

  /** `slot_rimanenti`: the places left after the forced members. */
  function SlotsOf(e: Engine, s: Settings, t: Tally, excl: set<string>, d: Date, k: nat, ob: seq<string>): (r: nat)
    requires WellFormed(t) && ValidDate(d)
    ensures r + |ForcedOf(e, s, t, excl, d, k, ob)| == k
  {
    k - |ForcedOf(e, s, t, excl, d, k, ob)|
  }

  /** `soluzioni` */
  function Solutions(e: Engine, s: Settings, t: Tally, seen: set<set<string>>, excl: set<string>, d: Date,
                     a: Option<string>, k: nat, ob: seq<string>): seq<Candidate>
    requires WellFormed(t) && ValidDate(d)
  {
    FilterMap(CombosOf(e, s, t, excl, d, k, ob),
              Evaluator(e, s, t, seen, d, a, CiSonoSenior(s, Disponibili(e, s, t, excl, d, k)), ForcedOf(e, s, t, excl, d, k, ob)))
  }

  /** The search of `_scegli_squadra_vigili` for `k > 0` places, given the
      order `ob` in which the set of the driver's hard preferences is
      iterated: the pool, the forced members, the combinations of the rest
      and their scores, with the entries written on the way. */
  function CrewSearch(e: Engine, s: Settings, t: Tally, seen: set<set<string>>, excl: set<string>, d: Date,
                      a: Option<string>, k: nat, ob: seq<string>): (r: Search)
    requires WellFormed(t) && ValidDate(d)
    ensures r.Found? ==> r.sols == Solutions(e, s, t, seen, excl, d, a, k, ob) && r.sols != []
    ensures r.Found? ==> r.forced == ForcedOf(e, s, t, excl, d, k, ob)
  {
    var pool := Disponibili(e, s, t, excl, d, k);
    var before := SoftAddedLog(e, s, t, excl, d, k);
    if |pool| < k then Failed(before + [LogEntry(d, Vigili, TooFewCandidates(|pool|, k))])
    else
      var logs := before + PreferenceLog(d, pool, ob, k);
      var residui := ResiduiOf(e, s, t, excl, d, k, ob);
      var slots := SlotsOf(e, s, t, excl, d, k, ob);
      if slots > |residui| then Failed(logs + [LogEntry(d, Vigili, CannotComplete(slots, |residui|))])
      else SolutionSearch(e, s, t, seen, excl, d, a, k, ob, logs)
  }

  /** The entries about the driver's hard preferences: one per preference
      missing from the pool, and one when those present exceed `k`. */
  function PreferenceLog(d: Date, pool: seq<string>, ob: seq<string>, k: nat): seq<LogEntry> {
    Entries(d, Filter(ob, NotIn(pool)), MissingEvent())
    + (if |Filter(ob, In(pool))| > k then [LogEntry(d, Vigili, HardPreferencesTruncated)] else [])
  }

  /** The end of the search: the solutions, or the entry saying there is
      none. */
  function SolutionSearch(e: Engine, s: Settings, t: Tally, seen: set<set<string>>, excl: set<string>, d: Date,
                          a: Option<string>, k: nat, ob: seq<string>, logs: seq<LogEntry>): (r: Search)
    requires WellFormed(t) && ValidDate(d)
    ensures r.Found? ==> r.sols == Solutions(e, s, t, seen, excl, d, a, k, ob) && r.sols != []
    ensures r.Found? ==> r.forced == ForcedOf(e, s, t, excl, d, k, ob)
  {
    var sols := Solutions(e, s, t, seen, excl, d, a, k, ob);
    var forced := ForcedOf(e, s, t, excl, d, k, ob);
    var all := logs + DerogationLog(e, s, d, CiSonoSenior(s, Disponibili(e, s, t, excl, d, k)), forced, CombosOf(e, s, t, excl, d, k, ob));
    if sols == [] then Failed(all + [LogEntry(d, Vigili, NoValidTeam)])
    else Found(sols, all, forced)
  }

  /** `disponibili` and the entry written when the soft-blocked candidates
      join it. */
  method Pool(e: Engine, s: Settings, t: Tally, excl: set<string>, d: Date, k: nat)
    returns (disponibili: seq<string>, before: seq<LogEntry>)
    requires WellFormed(t) && ValidDate(d)
    ensures disponibili == Disponibili(e, s, t, excl, d, k)
    ensures before == SoftAddedLog(e, s, t, excl, d, k)
  {
    var base, fallback := CollectCrew(e, s, t, excl, d);
    disponibili := base;
    before := [];
    if |base| < k && fallback != [] {
      var overCap := exists n :: n in fallback && AtCap(s, t, n, d);
      var summer := exists n :: n in fallback && SummerBlocked(e, s, n, d);
      before := [LogEntry(d, Vigili, SoftCandidatesAdded(overCap, summer, fallback))];
      disponibili := base + fallback;
    }
  }

  /** The steps of `_scegli_squadra_vigili` from the candidate loop to the
      list of solutions, each with the entries it writes. */
  method SearchCrew(e: Engine, s: Settings, t: Tally, seen: set<set<string>>, excl: set<string>, d: Date,
                    a: Option<string>, k: nat, ob: seq<string>) returns (r: Search)
    requires WellFormed(t) && ValidDate(d)
    ensures r == CrewSearch(e, s, t, seen, excl, d, a, k, ob)
  {
    var disponibili, before := Pool(e, s, t, excl, d, k);
    if |disponibili| < k {
      return Failed(before + [LogEntry(d, Vigili, TooFewCandidates(|disponibili|, k))]);
    }
    var ci := CiSonoSenior(s, disponibili);
    var forced := Filter(ob, In(disponibili));
    var missing := Entries(d, Filter(ob, NotIn(disponibili)), MissingEvent());
    var truncated := [];
    if |forced| > k {
      truncated := [LogEntry(d, Vigili, HardPreferencesTruncated)];
      forced := forced[..k];
    }
    var logs := before + (missing + truncated);
    assert logs == before + PreferenceLog(d, disponibili, ob, k);
    assert forced == ForcedOf(e, s, t, excl, d, k, ob);
    var slots := k - |forced|;
    var residui := Residui(disponibili, forced);
    assert residui == ResiduiOf(e, s, t, excl, d, k, ob);
    assert slots == SlotsOf(e, s, t, excl, d, k, ob);
    if slots > |residui| {
      return Failed(logs + [LogEntry(d, Vigili, CannotComplete(slots, |residui|))]);
    }
    r := Conclude(e, s, t, seen, excl, d, a, k, ob, logs, ci, forced, Combinations.Combinations(residui, slots));
  }

  /** The loop over the combinations and the choice between the two
      outcomes. */
  method Conclude(e: Engine, s: Settings, t: Tally, seen: set<set<string>>, excl: set<string>, d: Date,
                  a: Option<string>, k: nat, ob: seq<string>, logs: seq<LogEntry>,
                  ci: bool, forced: seq<string>, combos: seq<seq<string>>) returns (r: Search)
    requires WellFormed(t) && ValidDate(d)
    requires ci == CiSonoSenior(s, Disponibili(e, s, t, excl, d, k)) && forced == ForcedOf(e, s, t, excl, d, k, ob)
    requires combos == CombosOf(e, s, t, excl, d, k, ob)
    ensures r == SolutionSearch(e, s, t, seen, excl, d, a, k, ob, logs)
  {
    var sols, derogation := ValutaCombinazioni(e, s, t, seen, d, a, ci, forced, combos);
    if sols == [] {
      return Failed(logs + derogation + [LogEntry(d, Vigili, NoValidTeam)]);
    }
    r := Found(sols, logs + derogation, forced);
  }

  /** The pieces of a solution: the forced members followed by `k` minus
      their number of other pool members, a team that passes the hard-pair
      and SENIOR tests. */
  lemma FoundTeam(e: Engine, s: Settings, t: Tally, seen: set<set<string>>, excl: set<string>, d: Date,
                  a: Option<string>, k: nat, ob: seq<string>, c: Candidate)
    returns (extra: seq<string>)
    requires WellFormed(t) && ValidDate(d)
    requires c in Solutions(e, s, t, seen, excl, d, a, k, ob)
    ensures c.team == ForcedOf(e, s, t, excl, d, k, ob) + extra
    ensures |extra| == SlotsOf(e, s, t, excl, d, k, ob)
    ensures Drawn(extra, ResiduiOf(e, s, t, excl, d, k, ob))
    ensures Distinct(ResiduiOf(e, s, t, excl, d, k, ob)) ==> Distinct(extra)
    ensures HardPairFree(s, c.team) && !SeniorRejected(e, s, CiSonoSenior(s, Disponibili(e, s, t, excl, d, k)), c.team)
  {
    var ci := CiSonoSenior(s, Disponibili(e, s, t, excl, d, k));
    var forced := ForcedOf(e, s, t, excl, d, k, ob);
    var residui := ResiduiOf(e, s, t, excl, d, k, ob);
    extra := PickedCombination(e, s, t, seen, d, a, ci, forced, residui, SlotsOf(e, s, t, excl, d, k, ob), c);
  }

  /** `FoundTeam` for given forced members and remaining candidates. */
  lemma PickedCombination(e: Engine, s: Settings, t: Tally, seen: set<set<string>>, d: Date, a: Option<string>,
                          ci: bool, forced: seq<string>, residui: seq<string>, slots: nat, c: Candidate)
    returns (extra: seq<string>)
    requires WellFormed(t) && ValidDate(d)
    requires c in FilterMap(Combinations.Combinations(residui, slots), Evaluator(e, s, t, seen, d, a, ci, forced))
    ensures c.team == forced + extra && |extra| == slots
    ensures Drawn(extra, residui) && (Distinct(residui) ==> Distinct(extra))
    ensures HardPairFree(s, c.team) && !SeniorRejected(e, s, ci, c.team)
  {
    var combos := Combinations.Combinations(residui, slots);
    SolutionOrigin(e, s, t, seen, d, a, ci, forced, combos, c);
    var i :| 0 <= i < |combos| && c.team == forced + combos[i];
    extra := combos[i];
    CombinationMember(residui, slots, i);
  }

  /** The forced members are distinct pool members when the roster and the
      iteration order are duplicate-free. */
  lemma ForcedDistinct(e: Engine, s: Settings, t: Tally, excl: set<string>, d: Date, k: nat, ob: seq<string>)
    requires WellFormed(t) && ValidDate(d)
    ensures forall x :: x in ForcedOf(e, s, t, excl, d, k, ob) ==> x in ob && x in Disponibili(e, s, t, excl, d, k)
    ensures Distinct(ob) ==> Distinct(ForcedOf(e, s, t, excl, d, k, ob))
  {
    var wanted := Filter(ob, In(Disponibili(e, s, t, excl, d, k)));
    var forced := ForcedOf(e, s, t, excl, d, k, ob);
    assert forall i :: 0 <= i < |forced| ==> forced[i] == wanted[i];
    assert forall x :: x in forced ==> x in wanted;
  }

  /** The team of any solution has exactly `k` members, the forced ones among
      them, and from a duplicate-free roster no member twice. */
  lemma CrewTeamShape(e: Engine, s: Settings, t: Tally, seen: set<set<string>>, excl: set<string>, d: Date,
                      a: Option<string>, k: nat, ob: seq<string>, c: Candidate)
    requires WellFormed(t) && ValidDate(d)
    requires c in Solutions(e, s, t, seen, excl, d, a, k, ob)
    ensures |c.team| == k
    ensures forall x :: x in ForcedOf(e, s, t, excl, d, k, ob) ==> x in c.team
    ensures Distinct(s.vigili) && Distinct(ob) ==> Distinct(c.team)
  {
    var extra := FoundTeam(e, s, t, seen, excl, d, a, k, ob, c);
    var forced := ForcedOf(e, s, t, excl, d, k, ob);
    if Distinct(s.vigili) && Distinct(ob) {
      DisponibiliSound(e, s, t, excl, d, k);
      ForcedDistinct(e, s, t, excl, d, k, ob);
      assert Distinct(ResiduiOf(e, s, t, excl, d, k, ob));
      AppendDistinct(forced, extra);
    }
  }

  /** Two duplicate-free lists with no common element make a duplicate-free
      list. */
  lemma AppendDistinct(xs: seq<string>, ys: seq<string>)
    requires Distinct(xs) && Distinct(ys) && forall y :: y in ys ==> y !in xs
    ensures Distinct(xs + ys)
  {
    var zs := xs + ys;
    forall i, j | 0 <= i < j < |zs| ensures zs[i] != zs[j] {
      if j < |xs| {
        assert zs[i] == xs[i] && zs[j] == xs[j];
      } else if i < |xs| {
        assert zs[i] == xs[i] && zs[j] == ys[j - |xs|] && ys[j - |xs|] in ys;
      } else {
        assert zs[i] == ys[i - |xs|] && zs[j] == ys[j - |xs|];
      }
    }
  }

  /** Every member of the team of any solution is an admitted firefighter of
      the roster (so not excluded, not on vacation, and neither at the cap
      nor summer-excluded where those rules are enforced), and a
      soft-blocked member is there only because the unblocked candidates
      were fewer than `k`. */
  lemma CrewTeamMembers(e: Engine, s: Settings, t: Tally, seen: set<set<string>>, excl: set<string>, d: Date,
                        a: Option<string>, k: nat, ob: seq<string>, c: Candidate)
    requires WellFormed(t) && ValidDate(d)
    requires c in Solutions(e, s, t, seen, excl, d, a, k, ob)
    ensures forall x :: x in c.team ==> x in s.vigili && CrewAdmitted(e, s, t, excl, d, x)
    ensures forall x :: x in c.team && SoftBlocked(e, s, t, d, x) ==> |CandidatiBase(e, s, t, excl, d)| < k
  {
    var extra := FoundTeam(e, s, t, seen, excl, d, a, k, ob, c);
    DisponibiliSound(e, s, t, excl, d, k);
    ForcedDistinct(e, s, t, excl, d, k, ob);
    assert forall x :: x in extra ==> x in ResiduiOf(e, s, t, excl, d, k, ob);
  }

  /** The team of any solution has no hard-forbidden pair; it has at least
      `min_esperti` SENIORs whenever the pool has a SENIOR, `min_esperti` is
      positive and the rule is not in SOFT mode; and when the hard
      preferences present in the pool fit in `k` places, all of them are in
      it. */
  lemma CrewTeamRules(e: Engine, s: Settings, t: Tally, seen: set<set<string>>, excl: set<string>, d: Date,
                      a: Option<string>, k: nat, ob: seq<string>, c: Candidate)
    requires WellFormed(t) && ValidDate(d)
    requires c in Solutions(e, s, t, seen, excl, d, a, k, ob)
    ensures forall i, j :: 0 <= i < j < |c.team| ==> {c.team[i], c.team[j]} !in s.forbiddenHard
    ensures CiSonoSenior(s, Disponibili(e, s, t, excl, d, k)) && s.minEsperti > 0 && (e.Legacy? || !s.seniorMode.Soft?) ==>
      SeniorCount(s, c.team) >= s.minEsperti
    ensures |Filter(ob, In(Disponibili(e, s, t, excl, d, k)))| <= k ==>
      forall x :: x in ob && x in Disponibili(e, s, t, excl, d, k) ==> x in c.team
  {
    var extra := FoundTeam(e, s, t, seen, excl, d, a, k, ob, c);
    HardPairFreeSound(s, c.team);
    var forced := ForcedOf(e, s, t, excl, d, k, ob);
    assert forall x :: x in forced ==> x in c.team;
  }

  /** The entries written about the winning team before it is recorded: soft
      pairs accepted, (legacy engine) members already out on this (month,
      weekday), a team seen before, and (current engine, SOFT modes) each
      member over the cap or under the summer rule. */
  function WinnerLog(e: Engine, s: Settings, t: Tally, seen: set<set<string>>, d: Date, team: seq<string>): seq<LogEntry>
    requires WellFormed(t) && ValidDate(d)
  {
    TeamNotes(e, s, t, seen, d, team) + CapNotes(e, s, t, d, team) + SummerNotes(e, s, d, team)
  }

  /** Accepted soft pairs, (legacy) repeated month-weekday turns, and a team
      seen before. */
  function TeamNotes(e: Engine, s: Settings, t: Tally, seen: set<set<string>>, d: Date, team: seq<string>): (r: seq<LogEntry>)
    requires WellFormed(t) && ValidDate(d)
    ensures LogEntry(d, Vigili, SoftPairsAccepted(SoftViolations(s, team))) in r <==> SoftViolations(s, team) > 0
    ensures LogEntry(d, Vigili, MonthDayExceeded(MonthDayRepeats(t, d, team))) in r <==> e.Legacy? && MonthDayRepeats(t, d, team) > 0
    ensures LogEntry(d, Vigili, TeamSeenBefore(team)) in r <==> Members(team) in seen
    ensures forall i :: 0 <= i < |r| ==>
      r[i] == LogEntry(d, Vigili, SoftPairsAccepted(SoftViolations(s, team)))
      || r[i] == LogEntry(d, Vigili, MonthDayExceeded(MonthDayRepeats(t, d, team)))
      || r[i] == LogEntry(d, Vigili, TeamSeenBefore(team))
    ensures forall i, j :: 0 <= i < j < |r| ==> r[i] != r[j]
  {
    var soft := SoftViolations(s, team);
    var meseDow := MonthDayRepeats(t, d, team);
    (if soft > 0 then [LogEntry(d, Vigili, SoftPairsAccepted(soft))] else [])
    + (if e.Legacy? && meseDow > 0 then [LogEntry(d, Vigili, MonthDayExceeded(meseDow))] else [])
    + (if Members(team) in seen then [LogEntry(d, Vigili, TeamSeenBefore(team))] else [])
  }

  /** The members over their cap, when the cap rule is SOFT. */
  function CapNotes(e: Engine, s: Settings, t: Tally, d: Date, team: seq<string>): seq<LogEntry>
    requires WellFormed(t) && ValidDate(d)
  {
    if e.Current? && s.capMode.Soft? then Entries(d, Filter(team, OverCap(s, t, d)), OverCapEvent()) else []
  }

  /** The members the summer rule would keep out, when it is SOFT. */
  function SummerNotes(e: Engine, s: Settings, d: Date, team: seq<string>): seq<LogEntry>
    requires ValidDate(d)
  {
    if e.Current? && s.summerMode.Soft? then Entries(d, Filter(team, Blocked(e, s, d)), WaivedEvent()) else []
  }

  /** The team members over their weekly cap. */
  function OverCap(s: Settings, t: Tally, d: Date): string -> bool
    requires WellFormed(t) && ValidDate(d)
  {
    (n: string) => AtCap(s, t, n, d)
  }

  /** The team members the summer rule would keep out. */
  function Blocked(e: Engine, s: Settings, d: Date): string -> bool
    requires ValidDate(d)
  {
    (n: string) => SummerBlocked(e, s, n, d)
  }

  function OverCapEvent(): string -> Event {
    (n: string) => FirefighterOverCap(n)
  }

  function WaivedEvent(): string -> Event {
    (n: string) => SummerRuleWaived(n)
  }

  /** `for nome in obbligatori`: the elements of a set, each once, in some
      order. */
  method EnumerateSet(xs: set<string>) returns (r: seq<string>)
    ensures Distinct(r) && forall x :: x in r <==> x in xs
  {
    r := [];
    var rest := xs;
    while rest != {}
      invariant Distinct(r)
      invariant forall x :: x in r <==> x in xs && x !in rest
      invariant rest <= xs
      decreases |rest|
    {
      var x :| x in rest;
      r := r + [x];
      rest := rest - {x};
    }
  }

  // ---------------------------------------------------------------------------
  // The Varchi/Pogliani rules

  /** The Friday rule: Saturday's recorded driver is the gating driver. */
  predicate FridayRule(s: Settings, apply: bool, dow: int, sabato: Option<string>) {
    apply && dow == 4 && Truthy(s.varchi) && Truthy(s.pogliani) && sabato == s.pogliani
  }

  /** `esclusioni_autista`: the special driver drives on no day but Friday,
      and on a Friday only when Saturday's driver is not the gating driver. */
  function DriverExclusions(s: Settings, apply: bool, dow: int, sabato: Option<string>): (r: set<string>)
    ensures forall n :: n in r <==>
      apply && Truthy(s.varchi) && n == s.varchi.value && (dow != 4 || (Truthy(s.pogliani) && sabato == s.pogliani))
  {
    (if apply && Truthy(s.varchi) && dow != 4 then {s.varchi.value} else {})
    + (if FridayRule(s, apply, dow, sabato) then {s.varchi.value} else {})
  }

  /** `include_varchi`: on a Friday whose Saturday driver is not the gating
      driver, a SENIOR special driver joins the crew as a bonus member. */
  predicate IncludeVarchi(s: Settings, apply: bool, dow: int, sabato: Option<string>) {
    apply && s.varchiIsSenior && dow == 4 && Truthy(s.varchi) && (s.pogliani.None? || sabato != s.pogliani)
  }

  /** On a Friday where the rule applies, the special driver either is kept
      from driving or joins the crew, never both and never neither. */
  lemma FridayExclusionOrBonus(s: Settings, apply: bool, sabato: Option<string>)
    requires apply && s.varchiIsSenior && Truthy(s.varchi) && Truthy(s.pogliani)
    ensures s.varchi.value in DriverExclusions(s, apply, 4, sabato) <==> !IncludeVarchi(s, apply, 4, sabato)
  {
  }

  /** The Saturday display rule: the special driver is shown in place of the
      gating driver. The test compares optional values, so with no gating
      driver configured it also holds on a Saturday that found no driver. */
  predicate ShowsVarchi(s: Settings, apply: bool, dow: int, autista: Option<string>) {
    apply && s.varchiIsSenior && dow == 5 && autista == s.pogliani && Truthy(s.varchi)
  }

  /** `display_autista` */
  function DisplayDriver(s: Settings, apply: bool, dow: int, autista: Option<string>): (r: Option<string>)
    ensures r == autista || (r == s.varchi && Truthy(r))
    ensures Truthy(s.varchi) && s.varchi != autista ==> (r == s.varchi <==> ShowsVarchi(s, apply, dow, autista))
  {
    if ShowsVarchi(s, apply, dow, autista) then s.varchi else autista
  }

  /** With the special rule on, a SENIOR special driver and no gating driver,
      a Saturday without a driver still shows the special driver. */
  lemma DisplayWithoutDriver(s: Settings)
    requires s.varchiIsSenior && Truthy(s.varchi) && s.pogliani.None?
    ensures DisplayDriver(s, true, 5, None) == s.varchi
  {
  }

  /** `esclusioni_vigili`: the day's driver, and the special driver: always
      while the rule applies in the current engine, and in the legacy engine
      on every day but a bonus Friday. */
  function CrewExclusions(e: Engine, s: Settings, apply: bool, dow: int, bonus: bool, autista: Option<string>): (r: set<string>)
    ensures Truthy(autista) ==> autista.value in r
    ensures forall n :: n in r ==> (Truthy(autista) && n == autista.value) || (Truthy(s.varchi) && n == s.varchi.value)
    ensures e.Current? && apply && Truthy(s.varchi) ==> s.varchi.value in r
    ensures e.Legacy? && Truthy(s.varchi) && s.varchi != autista ==> (s.varchi.value in r <==> dow != 4 || !bonus)
  {
    (if Truthy(autista) then {autista.value} else {})
    + (if Truthy(s.varchi) && (if e.Current? then apply else dow != 4 || !bonus) then {s.varchi.value} else {})
  }

  // ---------------------------------------------------------------------------
  // The day's assignment

  /** The crew tuple: the team padded with `None` to four slots, cut to four. */
  function Padded(squadra: seq<string>): (r: seq<Option<string>>)
    ensures |r| == CrewSize
    ensures forall i :: 0 <= i < CrewSize ==> r[i] == if i < |squadra| then Some(squadra[i]) else None
  {
    seq(CrewSize, i requires 0 <= i < CrewSize => if i < |squadra| then Some(squadra[i]) else None)
  }

  /** `list(squadra)`, then `append(None)` until four slots, then `[:4]`. */
  method PadCrew(squadra: seq<string>) returns (slots: seq<Option<string>>)
    ensures slots == Padded(squadra)
  {
    var list := seq(|squadra|, i requires 0 <= i < |squadra| => Some(squadra[i]));
    while |list| < CrewSize
      invariant |list| >= |squadra|
      invariant forall i :: 0 <= i < |list| ==> list[i] == if i < |squadra| then Some(squadra[i]) else None
      decreases CrewSize - |list|
    {
      list := list + [None];
    }
    slots := list[..CrewSize];
  }

  /** `_turno_incompleto` */
  function TurnoIncompleto(a: Assegnazione): (r: bool)
    ensures r <==> a.autista.None? || exists i :: 0 <= i < |a.vigili| && a.vigili[i].None?
  {
    a.autista.None? || FindFirst(a.vigili, (v: Option<string>) => v.None?).Some?
  }

  /** A day is incomplete exactly when it shows no driver or its team has
      fewer than four members. */
  lemma IncompleteIffShort(g: Date, autista: Option<string>, squadra: seq<string>)
    ensures TurnoIncompleto(Assegnazione(g, autista, Padded(squadra))) <==> autista.None? || |squadra| < CrewSize
  {
    var slots := Padded(squadra);
    if |squadra| < CrewSize {
      assert slots[CrewSize - 1].None?;
    }
  }

  // ---------------------------------------------------------------------------
  // The order of the days inside a week

  /** Position of a weekday in the processing order: Saturday, Friday,
      Sunday, then the other weekdays ascending. */
  function Rank(w: int): int {
    if w == 5 then 0 else if w == 4 then 1 else if w == 6 then 2 else 3 + w
  }

  /** `_ordine_giorni` on the weekdays present in a week: each once, in
      increasing rank. */
  method OrdineGiorni(giorni: set<int>) returns (ordine: seq<int>)
    requires forall w :: w in giorni ==> 0 <= w <= 6
    ensures forall w :: w in ordine <==> w in giorni
    ensures forall i, j :: 0 <= i < j < |ordine| ==> Rank(ordine[i]) < Rank(ordine[j])
    ensures Distinct(ordine)
  {
    ordine := [];
    var firsts := [5, 4, 6];
    for i := 0 to 3
      invariant forall w :: w in ordine <==> w in giorni && w in firsts[..i]
      invariant forall a, b :: 0 <= a < b < |ordine| ==> Rank(ordine[a]) < Rank(ordine[b])
      invariant forall a :: 0 <= a < |ordine| ==> Rank(ordine[a]) < i
    {
      if firsts[i] in giorni {
        ordine := ordine + [firsts[i]];
      }
    }
    assert firsts[..3] == firsts;
    // `sorted(giorni)`: the weekdays are 0..6, visited in ascending order.
    for w := 0 to 7
      invariant forall v :: v in ordine <==> v in giorni && (v in {4, 5, 6} || v < w)
      invariant forall a, b :: 0 <= a < b < |ordine| ==> Rank(ordine[a]) < Rank(ordine[b])
      invariant forall a :: 0 <= a < |ordine| ==> Rank(ordine[a]) < 3 + w
    {
      if w in giorni && w !in {4, 5, 6} {
        ordine := ordine + [w];
      }
    }
  }

  /** `{d.weekday(): d for d in giorni}`: each weekday mapped to the last of
      the days that fall on it. */
  function ByWeekday(giorni: seq<Date>): (r: map<int, Date>)
    requires forall i :: 0 <= i < |giorni| ==> ValidDate(giorni[i])
    ensures forall w :: w in r <==> exists i :: 0 <= i < |giorni| && Weekday(giorni[i]) == w
    ensures forall w :: w in r ==> r[w] in giorni && Weekday(r[w]) == w
    decreases |giorni|
  {
    if giorni == [] then map[]
    else
      var init := giorni[..|giorni| - 1];
      var last := giorni[|giorni| - 1];
      assert forall i :: 0 <= i < |init| ==> init[i] == giorni[i];
      ByWeekday(init)[Weekday(last) := last]
  }

  /** The days of one ISO week of one year are told apart by their weekday:
      mapping them by weekday loses none. */
  lemma ByWeekdayKeepsAll(giorni: seq<Date>, anno: int, k: WeekKey)
    requires forall i :: 0 <= i < |giorni| ==> ValidDate(giorni[i]) && giorni[i].year == anno && WeekOf(giorni[i]) == k
    ensures forall x :: x in giorni ==> Weekday(x) in ByWeekday(giorni) && ByWeekday(giorni)[Weekday(x)] == x
  {
    var m := ByWeekday(giorni);
    forall x | x in giorni ensures Weekday(x) in m && m[Weekday(x)] == x {
      var y := m[Weekday(x)];
      SameWeekSameWeekday(x, y);
    }
  }

  // ---------------------------------------------------------------------------
  // The weekly cap as an invariant

  /** Nobody with a positive cap has more turns in any ISO week than the cap. */
  ghost predicate CapRespected(s: Settings, t: Tally)
    requires WellFormed(t)
  {
    forall n, k :: Cap(s, n) > 0 ==> WeekCount(t, n, k) <= Cap(s, n)
  }

  /** Recording a person below the cap keeps every week within the cap. */
  lemma RecordKeepsCap(s: Settings, t: Tally, n: string, d: Date)
    requires WellFormed(t) && ValidDate(d) && CapRespected(s, t) && !AtCap(s, t, n, d)
    ensures CapRespected(s, Record(t, n, SlotOf(d)))
  {
    forall p, k | Cap(s, p) > 0 ensures WeekCount(Record(t, n, SlotOf(d)), p, k) <= Cap(s, p) {
      RecordWeek(t, n, SlotOf(d), p, k);
    }
  }

  /** Recording a duplicate-free team whose members are all below the cap
      keeps every week within the cap. */
  lemma RecordAllKeepsCap(s: Settings, t: Tally, team: seq<string>, d: Date)
    requires WellFormed(t) && ValidDate(d) && CapRespected(s, t) && Distinct(team)
    requires forall x :: x in team ==> !AtCap(s, t, x, d)
    ensures CapRespected(s, RecordAll(t, team, SlotOf(d)))
  {
    forall p, k | Cap(s, p) > 0 ensures WeekCount(RecordAll(t, team, SlotOf(d)), p, k) <= Cap(s, p) {
      RecordAllWeek(t, team, SlotOf(d), p, k);
    }
  }

  /** Counters at zero respect every cap. */
  lemma EmptyRespectsCap(s: Settings)
    ensures CapRespected(s, map[])
  {
    forall n, k ensures WeekCount(map[], n, k) == 0 {
      UnseenReadsZero(map[], n);
    }
  }

  /** `assicura_persona` keeps the cap invariant: it changes no reading. */
  lemma EnsureKeepsCap(s: Settings, t: Tally, n: string)
    requires WellFormed(t) && CapRespected(s, t)
    ensures CapRespected(s, Ensure(t, n))
  {
    EnsureIdempotent(t, n);
    forall p, k ensures WeekCount(Ensure(t, n), p, k) == WeekCount(t, p, k) {
      assert EntryOf(Ensure(t, n), p) == EntryOf(t, p);
    }
  }

  // ---------------------------------------------------------------------------
  // `_trova_autista_settimanale`

  /** A date of the week of `giorno` that falls on weekday `dow`. */
  function SameWeekOn(giorno: Date, dow: int): Date -> bool
    requires ValidDate(giorno)
  {
    (x: Date) => ValidDate(x) && WeekOf(x) == WeekOf(giorno) && Weekday(x) == dow
  }

  /** The recorded driver of the first assigned date, in insertion order, in
      the week of `giorno` on weekday `dow`; the shown driver when none was
      recorded for it. */
  function WeekdayDriver(order: seq<Date>, ass: map<Date, Assegnazione>, reali: map<Date, Option<string>>,
                         giorno: Date, dow: int): Option<string>
    requires ValidDate(giorno) && forall x :: x in order ==> x in ass
  {
    match FindFirst(order, SameWeekOn(giorno, dow))
    case None => None
    case Some(i) => if order[i] in reali then reali[order[i]] else ass[order[i]].autista
  }

  /** With all assigned dates in one year, the weekday driver is the driver
      of the one date of that week on that weekday, whatever the insertion
      order; with no such date there is none. */
  lemma WeekdayDriverOf(order: seq<Date>, ass: map<Date, Assegnazione>, reali: map<Date, Option<string>>,
                        giorno: Date, dow: int, anno: int)
    requires ValidDate(giorno) && forall x :: x in order ==> x in ass && ValidDate(x) && x.year == anno
    ensures forall x :: x in order && SameWeekOn(giorno, dow)(x) ==>
      WeekdayDriver(order, ass, reali, giorno, dow) == if x in reali then reali[x] else ass[x].autista
    ensures (forall x :: x in order ==> !SameWeekOn(giorno, dow)(x)) ==> WeekdayDriver(order, ass, reali, giorno, dow) == None
  {
    forall x | x in order && SameWeekOn(giorno, dow)(x)
      ensures WeekdayDriver(order, ass, reali, giorno, dow) == if x in reali then reali[x] else ass[x].autista
    {
      var i := FindFirst(order, SameWeekOn(giorno, dow));
      var j :| 0 <= j < |order| && order[j] == x;
      assert i.Some?;
      SameWeekSameWeekday(order[i.value], x);
    }
  }
}
