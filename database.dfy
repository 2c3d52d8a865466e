/** The pure parts of the settings store (`database.py`): the default
    constants, the record types, the display name of a profile, resolving a
    name or surname to a roster entry or profile key, parsing the stored
    active weekdays, loading a rule with its value clamped, and the argument
    checks of `set_forbidden_pair` and `add_vacation`. */
module Database {
  import opened Util
  import opened Text
  import opened Calendar
  import opened Rules

  const DefaultForbiddenPairs: seq<(string, string)> := [("Copellini", "Gallicchio"), ("Pila", "Garzaro")]
  const DefaultPreferredPairs: seq<(string, string)> := [("Mascaretti", "Frangipane")]
  const DefaultAutistaVarchi := "Varchi"
  const DefaultAutistaPogliani := "Pogliani"
  const DefaultVigileEsclusoEstate := "Lodigiani"
  const DefaultMinEsperti := 1
  const DefaultActiveWeekdays: set<int> := {4, 5, 6}
  const DefaultWeeklyCap := 1

  const RoleAutista := "AUTISTA"
  const RoleVigile := "VIGILE"
  const RoleAutistaVigile := "AUTISTA+VIGILE"

  datatype Vacation = Vacation(start: Date, end: Date, note: Option<string>)

  datatype ConstraintRule = ConstraintRule(primo: string, secondo: string, isHard: bool)

  datatype PreferredRule = PreferredRule(autista: string, vigile: string, isHard: bool)

  datatype PersonProfile = PersonProfile(
    id: int,
    nome: string,
    cognome: Option<string>,
    telefono: Option<string>,
    email: Option<string>,
    ruolo: Option<string>,
    grado: Option<string>,
    isAutista: bool,
    isVigile: bool,
    livello: string,
    weeklyCap: int)

  /** The configuration the scheduler is built from; `people` lists the
      profiles in dictionary order. */
  datatype ProgramConfig = ProgramConfig(
    autisti: seq<string>,
    vigili: seq<string>,
    esperienzaVigili: map<string, string>,
    weeklyCap: map<string, int>,
    coppieVietate: seq<ConstraintRule>,
    coppiePreferite: seq<PreferredRule>,
    autistaVarchi: Option<string>,
    autistaPogliani: Option<string>,
    vigileEsclusoEstate: Option<string>,
    minEsperti: int,
    ferie: map<string, seq<Vacation>>,
    activeWeekdays: set<int>,
    people: seq<(string, PersonProfile)>,
    enableVarchiRule: bool,
    generationRules: map<string, RuleConfig>)

  /** `ConstraintRule.as_sorted_tuple`: the two names in ascending order. */
  function AsSortedTuple(r: ConstraintRule): (t: (string, string))
    ensures StrLe(t.0, t.1)
    ensures (t.0 == r.primo && t.1 == r.secondo) || (t.0 == r.secondo && t.1 == r.primo)
  {
    StrLtTotal(r.primo, r.secondo);
    if StrLe(r.primo, r.secondo) then (r.primo, r.secondo) else (r.secondo, r.primo)
  }

  /** The order in which a pair is given does not matter. */
  lemma AsSortedTupleSymmetric(a: string, b: string, hard1: bool, hard2: bool)
    ensures AsSortedTuple(ConstraintRule(a, b, hard1)) == AsSortedTuple(ConstraintRule(b, a, hard2))
  {
    if a != b && StrLt(a, b) {
      StrLtAsymmetric(a, b);
    }
  }

  /** `PersonProfile.display_name` */
  function DisplayName(p: PersonProfile): (r: string)
    ensures p.nome != "" && Truthy(p.cognome) ==> r == Strip(p.nome + " " + p.cognome.value)
    ensures p.nome != "" && !Truthy(p.cognome) ==> r == p.nome
    ensures p.nome == "" ==> r == (if Truthy(p.cognome) then p.cognome.value else "")
  {
    if p.nome != "" && Truthy(p.cognome) then Strip(p.nome + " " + p.cognome.value)
    else if p.nome != "" then p.nome
    else if Truthy(p.cognome) then p.cognome.value
    else ""
  }

  /** For names without surrounding whitespace the display name is exactly
      "nome cognome", and it is empty only when both parts are. */
  lemma DisplayNameJoins(p: PersonProfile)
    requires p.nome != "" && !IsSpace(p.nome[0]) && !IsSpace(p.nome[|p.nome| - 1])
    requires Truthy(p.cognome) && !IsSpace(p.cognome.value[0]) && !IsSpace(p.cognome.value[|p.cognome.value| - 1])
    ensures DisplayName(p) == p.nome + " " + p.cognome.value
  {
    var s := p.nome + " " + p.cognome.value;
    assert s[0] == p.nome[0] && s[|s| - 1] == p.cognome.value[|p.cognome.value| - 1];
    StripFixed(s);
  }

  /** The display name is empty when neither part is set, and when both are
      set but consist of whitespace only; in no other case. */
  lemma DisplayNameEmpty(p: PersonProfile)
    ensures DisplayName(p) == "" <==>
      (p.nome == "" && !Truthy(p.cognome)) || (p.nome != "" && Truthy(p.cognome) && Blank(p.nome) && Blank(p.cognome.value))
  {
    if p.nome != "" && Truthy(p.cognome) {
      var s := p.nome + " " + p.cognome.value;
      StripEmpty(s);
      if Blank(s) {
        forall i | 0 <= i < |p.nome|
          ensures IsSpace(p.nome[i])
        {
          assert s[i] == p.nome[i];
        }
        forall i | 0 <= i < |p.cognome.value|
          ensures IsSpace(p.cognome.value[i])
        {
          assert s[|p.nome| + 1 + i] == p.cognome.value[i];
        }
      }
      if Blank(p.nome) && Blank(p.cognome.value) {
        forall i | 0 <= i < |s|
          ensures IsSpace(s[i])
        {
          if i < |p.nome| {
            assert s[i] == p.nome[i];
          } else if i > |p.nome| {
            assert s[i] == p.cognome.value[i - |p.nome| - 1];
          }
        }
      }
    }
  }

  // ---------------------------------------------------------------------------
  // Resolving an identifier

  /** The profile test of `database._match_person_identifier`: the normalised
      display name equals the target, or the stripped surname is non-empty and
      its normalised form equals the target. */
  predicate ProfileHitDb(p: PersonProfile, target: string) {
    || NormName(DisplayName(p)) == target
    || (var c := Strip(if p.cognome.Some? then p.cognome.value else ""); c != "" && NormName(c) == target)
  }

  /** The search both variants share, with `norm` the name normalisation:
      no identifier gives None; the first roster name whose normal form equals
      the identifier's wins; otherwise the key of the first profile, in
      dictionary order, that `hit` accepts. */
  function MatchWith(value: Option<string>, roster: seq<string>, profiles: seq<(string, PersonProfile)>,
                     norm: string -> string, hit: (PersonProfile, string) -> bool): (r: Option<string>)
    ensures !Truthy(value) ==> r == None
    ensures r.Some? ==> r.value in roster || exists i :: 0 <= i < |profiles| && profiles[i].0 == r.value
    ensures Truthy(value) && (exists i :: 0 <= i < |roster| && norm(roster[i]) == norm(value.value)) ==>
      exists i :: 0 <= i < |roster| && r == Some(roster[i]) && norm(roster[i]) == norm(value.value)
        && forall j :: 0 <= j < i ==> norm(roster[j]) != norm(value.value)
    ensures Truthy(value) && (forall i :: 0 <= i < |roster| ==> norm(roster[i]) != norm(value.value)) ==>
      (r.Some? <==> exists i :: 0 <= i < |profiles| && hit(profiles[i].1, norm(value.value)))
    ensures Truthy(value) && (forall i :: 0 <= i < |roster| ==> norm(roster[i]) != norm(value.value)) && r.Some? ==>
      exists i :: 0 <= i < |profiles| && profiles[i].0 == r.value && hit(profiles[i].1, norm(value.value))
        && forall j :: 0 <= j < i ==> !hit(profiles[j].1, norm(value.value))
  {
    if !Truthy(value) then None
    else
      var target := norm(value.value);
      var i := FindFirst(roster, n => norm(n) == target);
      if i.Some? then Some(roster[i.value])
      else
        var j := FindFirst(profiles, (it: (string, PersonProfile)) => hit(it.1, target));
        if j.Some? then Some(profiles[j.value].0) else None
  }

  /** The first roster name that normalises to the identifier is the match. */
  lemma MatchWithRosterFirst(value: string, roster: seq<string>, profiles: seq<(string, PersonProfile)>,
                             norm: string -> string, hit: (PersonProfile, string) -> bool, i: int)
    requires value != "" && 0 <= i < |roster| && norm(roster[i]) == norm(value)
    requires forall j :: 0 <= j < i ==> norm(roster[j]) != norm(value)
    ensures MatchWith(Some(value), roster, profiles, norm, hit) == Some(roster[i])
  {
    FindFirstAt(roster, i, n => norm(n) == norm(value));
  }

  /** `database._match_person_identifier` */
  function MatchPersonIdentifierDb(value: Option<string>, roster: seq<string>, profiles: seq<(string, PersonProfile)>): (r: Option<string>)
    ensures !Truthy(value) ==> r == None
    ensures r.Some? ==> r.value in roster || exists i :: 0 <= i < |profiles| && profiles[i].0 == r.value
  {
    MatchWith(value, roster, profiles, NormName, ProfileHitDb)
  }

  // ---------------------------------------------------------------------------
  // Active weekdays

  /** One token of the stored list: stripped, all digits, and at most 6. */
  function WeekdayOfToken(token: string): (r: Option<int>)
    ensures r.Some? ==> 0 <= r.value <= 6
  {
    var t := Strip(token);
    if t != [] && AllDigits(t) && DigitsValue(t) <= 6 then Some(DigitsValue(t)) else None
  }

  /** The tokens of the stored comma-separated setting. The store reads a
      missing `active_weekdays` row as "4,5,6" and a NULL or empty value as
      the empty string; both give the default weekdays, so the two are
      merged here into `None`, read as the empty string. */
  function SettingTokens(setting: Option<string>): (tokens: seq<string>)
    ensures |tokens| >= 1
  {
    SplitOn(if setting.Some? then setting.value else "", ',')
  }

  /** The active weekdays read from the stored setting: the tokens that are
      weekday numbers, or Friday, Saturday and Sunday when none is. */
  function ParseActiveWeekdays(setting: Option<string>): (r: set<int>)
    ensures (forall i :: 0 <= i < |SettingTokens(setting)| ==> WeekdayOfToken(SettingTokens(setting)[i]).None?) ==>
      r == DefaultActiveWeekdays
    ensures (exists i :: 0 <= i < |SettingTokens(setting)| && WeekdayOfToken(SettingTokens(setting)[i]).Some?) ==>
      forall v :: v in r <==> exists i :: 0 <= i < |SettingTokens(setting)| && WeekdayOfToken(SettingTokens(setting)[i]) == Some(v)
  {
    DefinedOr(SettingTokens(setting), WeekdayOfToken, DefaultActiveWeekdays)
  }

  /** The active weekdays are never empty and are weekday numbers. */
  lemma ActiveWeekdaysInRange(setting: Option<string>)
    ensures ParseActiveWeekdays(setting) != {}
    ensures forall v :: v in ParseActiveWeekdays(setting) ==> 0 <= v <= 6
  {
    DefinedOrWithin(SettingTokens(setting), WeekdayOfToken, DefaultActiveWeekdays, (v: int) => 0 <= v <= 6);
  }

  /** `",".join(str(x) for x in days)` */
  function JoinWeekdays(days: seq<int>): string
    requires |days| >= 1 && forall i :: 0 <= i < |days| ==> 0 <= days[i] <= 6
  {
    JoinWith(seq(|days|, i requires 0 <= i < |days| => IntToString(days[i])), ',')
  }

  /** A list of weekdays written as the settings store writes it reads back as
      the same weekdays. */
  lemma WeekdaysRoundTrip(days: seq<int>)
    requires |days| >= 1 && forall i :: 0 <= i < |days| ==> 0 <= days[i] <= 6
    ensures ParseActiveWeekdays(Some(JoinWeekdays(days))) == set i | 0 <= i < |days| :: days[i]
  {
    var pieces := seq(|days|, i requires 0 <= i < |days| => IntToString(days[i]));
    forall i | 0 <= i < |pieces| ensures ',' !in pieces[i] && WeekdayOfToken(pieces[i]) == Some(days[i]) {
      OneDigit(days[i]);
    }
    JoinSplit(pieces, ',');
    assert SettingTokens(Some(JoinWeekdays(days))) == pieces;
    SetOfDefinedExact(pieces, WeekdayOfToken, days);
    assert WeekdayOfToken(pieces[0]).Some?;
  }

  lemma OneDigit(d: int)
    requires 0 <= d <= 6
    ensures IntToString(d) == [(48 + d) as char]
    ensures ',' !in IntToString(d)
    ensures WeekdayOfToken(IntToString(d)) == Some(d)
  {
    var s := IntToString(d);
    assert s == [(48 + d) as char];
    StripFixed(s);
    assert AllDigits(s) && s[..0] == [];
    assert DigitsValue(s) == d;
  }

  // ---------------------------------------------------------------------------
  // Generation rules as stored

  /** The value of a valued rule once read: `parsed` is the outcome of
      `int(val_raw)`, None when it raised; the default stands in for a failed
      parse, then the value is raised to the minimum and lowered to the
      maximum. */
  function ClampRuleValue(d: RuleDefinition, parsed: Option<int>): (r: Option<int>)
    ensures parsed.None? && d.defaultValue.None? && d.minValue.None? && d.maxValue.None? ==> r.None?
    ensures r.Some? && d.minValue.Some? && d.maxValue.Some? && d.minValue.value <= d.maxValue.value ==>
      d.minValue.value <= r.value <= d.maxValue.value
    ensures (parsed.Some? && (d.minValue.None? || d.minValue.value <= parsed.value)
             && (d.maxValue.None? || parsed.value <= d.maxValue.value)) ==> r == parsed
    ensures (parsed.None? && d.defaultValue.Some? && (d.minValue.None? || d.minValue.value <= d.defaultValue.value)
             && (d.maxValue.None? || d.defaultValue.value <= d.maxValue.value)) ==> r == d.defaultValue
    ensures var v := if parsed.Some? then parsed else d.defaultValue;
      v.Some? && d.maxValue.Some? && v.value > d.maxValue.value ==> r == d.maxValue
    ensures var v := if parsed.Some? then parsed else d.defaultValue;
      (v.Some? && d.minValue.Some? && v.value < d.minValue.value
       && (d.maxValue.None? || d.minValue.value <= d.maxValue.value)) ==> r == d.minValue
  {
    var v := if parsed.Some? then parsed else d.defaultValue;
    if v.None? then
      // `max(min_value, None)` raises in Python; no rule definition reaches it
      (if d.minValue.Some? then d.minValue else d.maxValue)
    else
      var lo := if d.minValue.Some? then Max(d.minValue.value, v.value) else v.value;
      Some(if d.maxValue.Some? then Min(d.maxValue.value, lo) else lo)
  }

  function Max(a: int, b: int): int { if a >= b then a else b }
  function Min(a: int, b: int): int { if a <= b then a else b }

  /** One rule as `_load_generation_rules` reads it from the stored settings
      `rule.<key>.mode` and `rule.<key>.value`. */
  function LoadRuleEntry(key: string, modeRaw: Option<string>, valueRaw: Option<string>): (r: RuleConfig)
    requires key in Definitions
    ensures r.mode == ModeFromValue(modeRaw)
    ensures !Definitions[key].hasValue ==> r.value.None?
    ensures key == MinSenior ==> r.value.Some? && 0 <= r.value.value <= 4
    ensures key == MinSenior && valueRaw.None? ==> r.value == Some(1)
    ensures key == MinSenior && valueRaw.Some? ==>
      var parsed := ParseInt(valueRaw.value);
      r.value == Some(if parsed.None? then 1 else if parsed.value < 0 then 0 else if parsed.value > 4 then 4 else parsed.value)
  {
    var d := Definitions[key];
    var value := BuildDefaultRules()[key].value;
    if d.hasValue && valueRaw.Some? then
      RuleConfig(ModeFromValue(modeRaw), ClampRuleValue(d, ParseInt(valueRaw.value)))
    else RuleConfig(ModeFromValue(modeRaw), value)
  }

  /** `_load_generation_rules` over the stored settings. */
  function LoadGenerationRules(settings: map<string, string>): (r: map<string, RuleConfig>)
    ensures r.Keys == Definitions.Keys
    ensures forall k :: k in r ==> r[k] == LoadRuleEntry(k, Get(settings, "rule." + k + ".mode"), Get(settings, "rule." + k + ".value"))
  {
    map k | k in Definitions :: LoadRuleEntry(k, Get(settings, "rule." + k + ".mode"), Get(settings, "rule." + k + ".value"))
  }

  function Get(settings: map<string, string>, key: string): Option<string> {
    if key in settings then Some(settings[key]) else None
  }

  /** `save_generation_rule` followed by loading gives back the saved rule,
      whenever its value is within the rule's bounds. */
  lemma SaveLoadRuleEntry(key: string, c: RuleConfig)
    requires key in Definitions
    requires Definitions[key].hasValue ==> c.value.Some? && 0 <= c.value.value <= 4
    requires !Definitions[key].hasValue ==> c.value.None?
    ensures LoadRuleEntry(key, Some(ModeName(c.mode)), if c.value.Some? then Some(IntToString(c.value.value)) else None) == c
  {
    ModeNameRoundTrip(c.mode);
    assert key == MinSenior || key == WeeklyCap || key == SummerExclusion || key == VarchiRotation;
    if c.value.Some? {
      ParseIntToString(c.value.value);
    }
  }

  // ---------------------------------------------------------------------------
  // Argument checks of the store's write operations

  /** `set_forbidden_pair`: the two ids sorted, refused when they are equal. */
  function SetForbiddenPair(firstId: int, secondId: int, isHard: bool): (r: Result<(int, int, bool)>)
    ensures r.Failure? <==> firstId == secondId
    ensures r.Ok? ==> r.value.0 < r.value.1 && {r.value.0, r.value.1} == {firstId, secondId} && r.value.2 == isHard
  {
    var a := Min(firstId, secondId);
    var b := Max(firstId, secondId);
    if a == b then Failure("Non è possibile creare una coppia vietata con la stessa persona.")
    else Ok((a, b, isHard))
  }

  lemma SetForbiddenPairSymmetric(a: int, b: int, hard: bool)
    ensures SetForbiddenPair(a, b, hard) == SetForbiddenPair(b, a, hard)
  {
  }

  /** `add_vacation`: the row stored, refused when the end precedes the start. */
  function AddVacation(personId: int, start: Date, end: Date, note: Option<string>): (r: Result<(int, Vacation)>)
    ensures r.Failure? <==> Before(end, start)
    ensures r.Ok? ==> r.value == (personId, Vacation(start, end, note))
  {
    if Before(end, start) then Failure("La data di fine ferie non può precedere la data di inizio.")
    else Ok((personId, Vacation(start, end, note)))
  }
}
