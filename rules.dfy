/** Configurable generation rules (`vvf_scheduler/rules.py`): the three rule
    modes, the four rule definitions, the default configuration and the merge
    of a custom configuration over the defaults. */
module Rules {
  import opened Util
  import opened Text

  datatype RuleMode = Hard | Soft | Off

  /** `RuleMode.value` */
  function ModeName(m: RuleMode): string {
    match m
    case Hard => "hard"
    case Soft => "soft"
    case Off => "off"
  }

  /** `RuleMode.from_value`: None and any string that names no mode give HARD. */
  function ModeFromValue(value: Option<string>): (m: RuleMode)
    ensures value.Some? && value.value == "soft" ==> m == Soft
    ensures value.Some? && value.value == "off" ==> m == Off
    ensures m == Hard <==> value.None? || (value.value != "soft" && value.value != "off")
  {
    if value.None? then Hard
    else if value.value == "hard" then Hard
    else if value.value == "soft" then Soft
    else if value.value == "off" then Off
    else Hard
  }

  /** Reading back the name of a mode gives the mode. */
  lemma ModeNameRoundTrip(m: RuleMode)
    ensures ModeFromValue(Some(ModeName(m))) == m
  {
  }

  datatype RuleDefinition = RuleDefinition(
    key: string,
    caption: string,
    description: string,
    defaultMode: RuleMode,
    hasValue: bool,
    defaultValue: Option<int>,
    minValue: Option<int>,
    maxValue: Option<int>)

  datatype RuleConfig = RuleConfig(mode: RuleMode, value: Option<int>)

  /** `GenerationRuleConfig.as_strings` */
  function AsStrings(c: RuleConfig): (r: map<string, string>)
    ensures "mode" in r && r["mode"] == ModeName(c.mode)
    ensures "value" in r <==> c.value.Some?
    ensures c.value.Some? ==> r["value"] == IntToString(c.value.value)
    ensures forall k :: k in r ==> k == "mode" || k == "value"
  {
    var data := map["mode" := ModeName(c.mode)];
    if c.value.Some? then data["value" := IntToString(c.value.value)] else data
  }

  const MinSenior := "min_senior"
  const WeeklyCap := "weekly_cap"
  const SummerExclusion := "summer_exclusion"
  const VarchiRotation := "varchi_rotation"

  /** `RULE_DEFINITIONS` */
  const Definitions: map<string, RuleDefinition> := map[
    MinSenior := RuleDefinition(MinSenior, "Minimo SENIOR in squadra",
      "Numero minimo di vigili SENIOR nella squadra selezionata.",
      Hard, true, Some(1), Some(0), Some(4)),
    WeeklyCap := RuleDefinition(WeeklyCap, "Limite turni settimanali",
      "Rispetta il limite di turni settimanali per ogni persona.",
      Hard, false, None, None, None),
    SummerExclusion := RuleDefinition(SummerExclusion, "Esclusione estiva dedicata",
      "Esclude il vigile configurato da luglio e agosto.",
      Hard, false, None, None, None),
    VarchiRotation := RuleDefinition(VarchiRotation, "Regola Varchi / Pogliani",
      "Applica la regola speciale per autisti Varchi/Pogliani.",
      Hard, false, None, None, None)]

  /** The default entry of a rule. */
  function DefaultEntry(d: RuleDefinition): RuleConfig {
    RuleConfig(d.defaultMode, if d.hasValue then d.defaultValue else None)
  }

  /** `build_default_rules` */
  function BuildDefaultRules(): (r: map<string, RuleConfig>)
    ensures r.Keys == Definitions.Keys
    ensures forall k :: k in r ==> r[k] == DefaultEntry(Definitions[k])
  {
    map k | k in Definitions :: DefaultEntry(Definitions[k])
  }

  /** Every rule defaults to HARD, and `min_senior` (value 1) is the only rule
      that carries a value. */
  lemma DefaultRulesContent()
    ensures var r := BuildDefaultRules();
      && r.Keys == {MinSenior, WeeklyCap, SummerExclusion, VarchiRotation}
      && (forall k :: k in r ==> r[k].mode == Hard)
      && (forall k :: k in r ==> (r[k].value.Some? <==> k == MinSenior))
      && r[MinSenior].value == Some(1)
  {
    var r := BuildDefaultRules();
    assert Definitions.Keys == {MinSenior, WeeklyCap, SummerExclusion, VarchiRotation};
    forall k | k in r
      ensures r[k].mode == Hard && (r[k].value.Some? <==> k == MinSenior)
    {
      assert k == MinSenior || k == WeeklyCap || k == SummerExclusion || k == VarchiRotation;
    }
  }

  /** One merged entry: the custom mode, and for a valued rule the custom value
      or else the default value; a rule without a value never gets one. */
  function MergeEntry(d: RuleDefinition, c: RuleConfig): RuleConfig {
    var value := if d.hasValue then c.value else None;
    RuleConfig(c.mode, if d.hasValue && value.None? then d.defaultValue else value)
  }

  /** `merge_with_defaults`; `None` stands for a missing dictionary. */
  function MergeWithDefaults(custom: Option<map<string, RuleConfig>>): (r: map<string, RuleConfig>)
    ensures r.Keys == Definitions.Keys
    ensures forall k :: k in r ==>
      if custom.Some? && k in custom.value then r[k] == MergeEntry(Definitions[k], custom.value[k])
      else r[k] == BuildDefaultRules()[k]
  {
    if custom.None? || custom.value == map[] then BuildDefaultRules()
    else
      map k | k in Definitions ::
        if k in custom.value then MergeEntry(Definitions[k], custom.value[k])
        else BuildDefaultRules()[k]
  }

  /** A missing or empty custom configuration gives exactly the defaults. */
  lemma MergeEmpty()
    ensures MergeWithDefaults(None) == BuildDefaultRules()
    ensures MergeWithDefaults(Some(map[])) == BuildDefaultRules()
  {
  }

  /** In a merged configuration the mode of a customised rule is the custom
      mode; a valued rule always has a value and a non-valued rule never has
      one; unknown custom keys are dropped. */
  lemma MergeEntries(custom: Option<map<string, RuleConfig>>, k: string)
    requires k in Definitions
    ensures var r := MergeWithDefaults(custom);
      && (custom.Some? && k in custom.value ==> r[k].mode == custom.value[k].mode)
      && (r[k].value.Some? <==> Definitions[k].hasValue)
      && (Definitions[k].hasValue && custom.Some? && k in custom.value && custom.value[k].value.Some? ==>
            r[k].value == custom.value[k].value)
  {
    assert k == MinSenior || k == WeeklyCap || k == SummerExclusion || k == VarchiRotation;
  }

  /** Merging a merged configuration again changes nothing. */
  lemma MergeIdempotent(custom: Option<map<string, RuleConfig>>)
    ensures MergeWithDefaults(Some(MergeWithDefaults(custom))) == MergeWithDefaults(custom)
  {
    var r := MergeWithDefaults(custom);
    var r2 := MergeWithDefaults(Some(r));
    assert MinSenior in r;
    forall k | k in r2 ensures r2[k] == r[k] {
      assert k == MinSenior || k == WeeklyCap || k == SummerExclusion || k == VarchiRotation;
      MergeEntries(custom, k);
    }
  }
}
