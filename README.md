# GeneratoreTurniVVF roster engine in Dafny

GeneratoreTurniVVF fills a year's duty roster for a volunteer fire station.
Each active day gets one driver (`autista`) and a crew of four firefighters
(`vigili`). Drivers and firefighters are chosen under hard and soft rules:

- weekly caps;
- vacations;
- a summer exclusion;
- a minimum number of SENIOR firefighters;
- forbidden and preferred pairs;
- a rotation rule for two special drivers, called Varchi and Pogliani below.

Among the admissible choices the engine balances the workload counters.

This project models that engine. It follows both of its versions:

- the current one, `vvf_scheduler/core.py`, with rules that can be HARD, SOFT
  or OFF;
- the legacy one, `turnivvf.py`, in which every rule is hard.

Around the engine it models the configuration helpers:

- `vvf_scheduler/rules.py`: the rule modes, the default rules and their merge;
- `vvf_scheduler/config.py`: loading the roster files into a `ProgramConfig`;
- the pure parts of `database.py`: name matching, the rule-value clamp,
  parsing the active weekdays, and the argument checks of the store's write
  operations.

Modules, one per file:

| module | file | what it holds |
|---|---|---|
| `Util` | util.dfy | Option/Result, duplicate-free lists, filters, code-point string order, insertion sort, lexicographic order on keys |
| `Text` | text.dfy | whitespace normalisation, ASCII case folding, splitting and joining, `int()` and `str()` on integers |
| `Calendar` | calendar.dfy | Python's `date`: validity, ordinal, `weekday()`, the day after, `isocalendar()` week keys |
| `Rules` | rules.dfy | `RuleMode`, `RULE_DEFINITIONS`, `build_default_rules`, `merge_with_defaults` |
| `Database` | database.dfy | the pure helpers of the settings store |
| `Config` | config.dfy | `carica_nomi`, `_ensure_person` (a `ProfileBook` class updated in place), `build_program_config_from_files` |
| `Dates` | dates.dfy | `date_attive_anno` of both engines, a loop over the year |
| `Counters` | counters.dfy | `Conteggi`: a `Tally` value as its specification, and a `Counters` class whose methods update it in place |
| `Combinations` | combinations.dfy | `itertools.combinations`, in the order it yields |
| `Selection` | selection.dfy | the settings, the driver and crew filters, the sort keys and team scores, the day order, the log entries |
| `Scheduling` | scheduler.dfy | the `Scheduler` class of both engines: construction, `_scegli_autista`, `_scegli_squadra_vigili`, `_aggiungi_varchi_venerdi`, `_costruisci_per_data(_internal)`, `costruisci`, and the legacy `esegui` |

How the source's behaviour is represented:

- **Both engines in one class.** The two `Scheduler` classes are one Dafny
  class. Its `engine` constant (`Current` or `Legacy`) selects the branches
  where the two sources differ.
- **Random tie-breaks.** `random.random()` breaks ties in both sorts. The
  model states which choices the sort can produce: a pool member whose
  deterministic key is lexicographically minimal.
- **The log.** Every `_log` call is one log entry: the day, the category
  (`AUTISTA`/`VIGILI`) and the kind of message with its data. The formatted
  text of the message is not part of the entry.
- **The retry keeps the first attempt's counts.** When a SOFT Varchi rule
  leaves a day incomplete, the current engine composes the day again. The
  counters already raised by the first attempt are not rolled back, in the
  model as in `core.py:289-305`.
- **Dates** are Python `date` values of years 1..9998, with Monday as weekday 0.
  ISO week keys follow CPython's `isocalendar`.

## Model

| member | source | states |
|---|---|---|
| Rules.ModeFromValue | vvf_scheduler/rules.py:15-22 | "soft" and "off" give SOFT and OFF; a missing or any other value gives HARD |
| Rules.ModeNameRoundTrip | vvf_scheduler/rules.py:10-22 | reading a mode's stored name back gives the same mode |
| Rules.AsStrings | vvf_scheduler/rules.py:42-46 | the dictionary always has "mode" (the mode's name); it has "value" (the decimal text) exactly when there is a value; it has no other key |
| Rules.BuildDefaultRules | vvf_scheduler/rules.py:81-88 | one entry per rule definition, with the default mode, and the default value only for a valued rule |
| Rules.DefaultRulesContent | vvf_scheduler/rules.py:49-88 | the four rules all default to HARD; only `min_senior` carries a value, and that value is 1 |
| Rules.MergeWithDefaults | vvf_scheduler/rules.py:91-107 | every defined rule is present; a customised rule takes its custom mode and, when valued, its custom value or else the default; other rules keep their defaults |
| Rules.MergeEmpty | vvf_scheduler/rules.py:94-96 | a missing or empty custom dictionary gives exactly the defaults |
| Rules.MergeEntries | vvf_scheduler/rules.py:97-107 | a merged rule has a value exactly when its definition is valued; the custom mode and a custom value survive; unknown keys are dropped |
| Rules.MergeIdempotent | vvf_scheduler/rules.py:91-107 | merging an already merged configuration changes nothing |
| Text.NormalizeWhitespace | database.py:37-39 | the result has no leading or trailing whitespace and no run of two whitespace characters |
| Text.StripEmpty | database.py:88-92 | stripping leaves nothing exactly when the text is whitespace only |
| Text.NormalizeIdempotent | database.py:37-39 | normalising twice is normalising once |
| Text.CaseFoldIdempotent | vvf_scheduler/config.py:31-33 | case folding twice is case folding once |
| Text.ParseIntToString | database.py:443-465 | `int(str(n)) == n` for every integer: a stored value reads back unchanged |
| Text.SplitJoin | database.py:690-696 | splitting on a separator and joining with it gives the text back |
| Text.JoinSplit | database.py:690-696 | joining pieces that do not contain the separator and splitting again gives the pieces back |
| Database.AsSortedTuple | database.py:63-64 | the pair in ascending order, made of the rule's two names |
| Database.AsSortedTupleSymmetric | database.py:63-64 | the sorted tuple does not depend on the order the two names were given in |
| Database.DisplayName | database.py:88-92 | name and surname joined by a space and stripped when both are set; otherwise whichever is set, or "" |
| Database.DisplayNameJoins | database.py:88-92 | with a non-blank name and surname the display name is exactly "name surname" |
| Database.DisplayNameEmpty | database.py:88-92 | the display name is empty exactly when name and surname are both unset, or both set but made of whitespace only |
| Database.MatchWith | database.py:95-119 | no identifier gives None; a roster name that normalises like the identifier wins, the first one in roster order; with no such name, the first profile whose display name or surname matches; the answer is always a roster name or a profile key |
| Database.MatchWithRosterFirst | database.py:104-107 | a matching roster name is returned before any profile is looked at |
| Database.MatchPersonIdentifierDb | database.py:95-119 | the store's `_match_person_identifier`: nothing for an empty identifier, otherwise a roster name or a profile key |
| Database.ParseActiveWeekdays | database.py:695-703 | the weekday numbers among the comma-separated tokens, or Friday, Saturday and Sunday when no token is one |
| Database.ActiveWeekdaysInRange | database.py:695-703 | the active weekdays are never empty and all lie in 0..6 |
| Database.WeekdaysRoundTrip | database.py:690-703 | a list of weekdays written as the store writes it reads back as the same set |
| Database.ClampRuleValue | database.py:443-451 | a failed parse falls back to the default (kept when within bounds); a value above the maximum becomes the maximum and one below the minimum the minimum; the result lies within the rule's bounds; a value already within them is kept |
| Database.LoadRuleEntry | database.py:436-452 | the mode is `from_value` of the stored mode; a rule without a value gets none; `min_senior` always gets a value in 0..4: 1 when nothing is stored or the stored text is not a number, otherwise the stored number clamped to 0..4 |
| Database.LoadGenerationRules | database.py:434-453 | one entry per defined rule, each read from its two `rule.<key>.*` settings |
| Database.SaveLoadRuleEntry | database.py:458-469 | a rule saved by `save_generation_rule` loads back unchanged when its value is within bounds |
| Database.SetForbiddenPair | database.py:479-482 | refused exactly when both ids are equal; otherwise stored as (smaller, larger) with the given hardness |
| Database.SetForbiddenPairSymmetric | database.py:479-482 | the stored pair does not depend on the order of the two ids |
| Database.AddVacation | database.py:579-583 | refused exactly when the end is before the start; otherwise the vacation is stored as given |
| Config.MatchPersonIdentifier | vvf_scheduler/config.py:36-57 | nothing for an empty identifier; otherwise a roster name or a profile key |
| Config.RosterBeforeProfiles | vvf_scheduler/config.py:46-48 | the first roster name that normalises like the identifier is the answer |
| Config.ProfileFallback | vvf_scheduler/config.py:50-57 | with no roster match, the key of the first profile whose display name or surname matches, and None exactly when no profile does |
| Config.KeptName | vvf_scheduler/config.py:67-68 | a line is kept exactly when stripped it is non-empty and does not start with "#"; it is kept stripped |
| Config.KeptNames | vvf_scheduler/config.py:64-69 | the kept names are exactly the stripped lines that pass that test |
| Config.Dedup | vvf_scheduler/config.py:70-75 | duplicate-free, with exactly the names of the input |
| Config.DedupFirstOrder | vvf_scheduler/config.py:70-75 | the names appear in the order of their first occurrence |
| Config.CaricaNomi | vvf_scheduler/config.py:60-76 | the two loops compute the deduplicated kept names |
| Config.SplitName | vvf_scheduler/config.py:89-93 | with two words or more, the first word and the remaining words joined by single spaces, so that the two parts joined by a space are all the words joined by single spaces; otherwise the whole text and "" |
| Config.NextRole | vvf_scheduler/config.py:131-136 | AUTISTA+VIGILE is never overwritten, is always taken when given, and an unknown role changes nothing |
| Config.UpdatedProfile | vvf_scheduler/config.py:123-136 | the driver and firefighter flags only ever get set; an existing AUTISTA+VIGILE role stays; id, names and cap are kept |
| Config.ProfileBook.constructor | vvf_scheduler/config.py:95 | the book starts empty |
| Config.ProfileBook.EnsurePerson | vvf_scheduler/config.py:97-136 | a new name gets a new profile with id `-(count + 1)` and is appended to the insertion order; a known name gets its profile updated in place; together, the step `Ensured` describes |
| Config.NextStanding | vvf_scheduler/config.py:108-136 | a new name takes the call's flags, level and role; a known name keeps each flag it had and gains the call's, and takes the call's level only when the call is for a firefighter |
| Config.StandingOfEnsured | vvf_scheduler/config.py:108-136 | the flags, level and role of a created or updated profile are `NextStanding` of what was there |
| Config.NextStandingIdempotent | vvf_scheduler/config.py:123-136 | repeating a call with the same arguments changes no flag, level or role |
| Config.Ensured | vvf_scheduler/config.py:107-136 | one call adds its name to the dictionary's keys and no other |
| Config.EnsuredStanding | vvf_scheduler/config.py:107-136 | one call gives its own name the next standing and leaves every other profile as it was |
| Config.RosterStanding | vvf_scheduler/config.py:138-143 | after one roster loop a name is present exactly when it was or is listed; an unlisted name keeps its profile; a listed name has the standing of a single call, however often it is listed |
| Config.DriverAlsoFirefighterEndsVigile | vvf_scheduler/config.py:124-143 | a driver also listed as a firefighter keeps both flags and ends with role VIGILE |
| Config.ResolveForbidden | vvf_scheduler/config.py:151-156 | a default forbidden pair is kept, as a hard rule of the resolved names, exactly when both names resolve |
| Config.ResolvedForbidden | vvf_scheduler/config.py:150-156 | every resolvable pair is kept, and nothing else |
| Config.ResolvePreferred | vvf_scheduler/config.py:159-165 | a default preferred pair is kept, as a soft preference, exactly when its driver resolves among drivers and its firefighter among firefighters |
| Config.ResolvedPreferred | vvf_scheduler/config.py:158-165 | every resolvable preferred pair is kept, and nothing else |
| Config.LoadProfiles | vvf_scheduler/config.py:138-143 | after the three loops there is one profile per name of the three lists; a name has the driver flag exactly when it is a driver, the firefighter flag and the VIGILE role exactly when it is a firefighter of either list (AUTISTA otherwise), and level SENIOR exactly when it is on the seniors' list |
| Config.LoadedStandings | vvf_scheduler/config.py:138-143 | the flags, level and role of every name after the three loops, as `LoadedStanding` gives them |
| Config.LoadedStandingOf | vvf_scheduler/config.py:138-143 | the same for one name, from the three loops taken one after the other |
| Config.LoadRoster | vvf_scheduler/config.py:138-143 | one loop adds exactly the names of its list, and leaves the dictionary and its order as the calls of `_ensure_person` one by one (`AfterRoster`) do |
| Config.LoadNext | vvf_scheduler/config.py:138-143 | one turn of the loop keeps its progress: the keys so far, and the rest of the loop still leads to the same dictionary |
| Config.RosterProgressStep | vvf_scheduler/config.py:138-143 | the progress of the loop after one more `_ensure_person` call |
| Config.AssembleConfig | vvf_scheduler/config.py:145-187 | both rosters are the same sorted, duplicate-free list of profile names; levels and caps come from the profiles; pairs and special names are resolved against the rosters |
| Config.BuildProgramConfigFromFiles | vvf_scheduler/config.py:79-187 | the rosters hold exactly the kept names of the three files; every cap is the default; a level is SENIOR exactly for a name of the seniors' file when that file exists, JUNIOR otherwise; every profile's flags and role follow the files it is listed in; the other fields are as listed |
| Config.LoadedLevels | vvf_scheduler/config.py:145-148 | the level map and the profiles of the configuration carry the standings of the loops |
| Dates.ActiveWeekdays | vvf_scheduler/core.py:29-31 | the given weekdays within 0..6, or Friday to Sunday when none is |
| Dates.ActiveMonths | vvf_scheduler/core.py:32-37 | the given months within 1..12, or all twelve when the filter is absent, empty or has none |
| Dates.DateAttiveAnno | vvf_scheduler/core.py:23-46 | ascending, and exactly the dates of the year whose weekday and month are active |
| Dates.LegacyDateAttiveAnno | turnivvf.py:243-256 | ascending, and exactly the dates of the year whose weekday is active |
| Calendar.IsoDecompose | vvf_scheduler/core.py:201-203 | a date's ordinal is the Monday of ISO week 1 of its ISO year, plus seven days per week, plus its weekday |
| Calendar.SameWeekSameWeekday | vvf_scheduler/core.py:270 | within one year, one ISO week holds at most one date per weekday |
| Calendar.NextDaySuccessor | vvf_scheduler/core.py:42-45 | the day after `g` comes right after `g`: a date is before it exactly when it is at or before `g` |
| Counters.Ensure | vvf_scheduler/core.py:60-74 | adds the name with zero counts, and changes nothing for a known name |
| Counters.Record | vvf_scheduler/core.py:76-87 | the counters stay well-formed and the name becomes known |
| Counters.RecordOwnCounts | vvf_scheduler/core.py:76-87 | the annual count goes up by one, the day's week count by one and no other week's; the last weekday becomes the day's |
| Counters.RecordMonthAndDow | vvf_scheduler/core.py:83-85 | the day's month and weekday counts go up by one; no other month or weekday count changes |
| Counters.RecordMonthDay | vvf_scheduler/core.py:84 | exactly the (month, weekday) cell of the day goes up by one |
| Counters.RecordOthersUnchanged | vvf_scheduler/core.py:76-87 | nobody else's counts change |
| Counters.RecordMonotone | vvf_scheduler/core.py:76-87 | no annual or weekly count ever goes down |
| Counters.RecordBalanced | vvf_scheduler/core.py:82-85 | the month totals and the weekday totals keep adding up to the annual total |
| Counters.TotalsAddUp | vvf_scheduler/core.py:82-85 | in balanced counters the twelve month counts, and the seven weekday counts, add up to the annual count |
| Counters.EnsureIdempotent | vvf_scheduler/core.py:60-74 | ensuring twice is ensuring once, and it changes no reading |
| Counters.UnseenReadsZero | vvf_scheduler/core.py:60-74 | a name never recorded reads zero everywhere and has no last weekday |
| Counters.RecordAllWeek | vvf_scheduler/core.py:665-666 | recording a duplicate-free team raises each member's count for the day's week by one and nobody else's |
| Counters.Counters.constructor | vvf_scheduler/core.py:53-58 | the counters start empty |
| Counters.Counters.EnsurePerson | vvf_scheduler/core.py:60-74 | the fields change as `Ensure` says |
| Counters.Counters.Add | vvf_scheduler/core.py:76-87 | the fields change as `Record` says |
| Counters.Counters.TotMonth | vvf_scheduler/core.py:89-91 | the month count, after `assicura_persona` |
| Counters.Counters.TotAnnual | vvf_scheduler/core.py:93-95 | the annual count, after `assicura_persona` |
| Counters.Counters.TotMonthDay | vvf_scheduler/core.py:97-99 | the (month, weekday) count, after `assicura_persona` |
| Counters.Counters.TotDow | vvf_scheduler/core.py:101-103 | the weekday count, after `assicura_persona` |
| Counters.Counters.TotWeek | vvf_scheduler/core.py:105-107 | the week count (0 for an unseen week), after `assicura_persona` |
| Counters.Counters.LastWeekday | vvf_scheduler/core.py:109-111 | the last weekday recorded, after `assicura_persona` |
| Combinations.Combinations | vvf_scheduler/core.py:554-558 | every selection has `k` elements; one empty selection for `k = 0`; none when the list is too short |
| Combinations.CombinationsSound | vvf_scheduler/core.py:554-558 | every selection is drawn from the list, and from a duplicate-free list it has no duplicates |
| Combinations.CombinationsComplete | vvf_scheduler/core.py:554-558 | every order-keeping selection of `k` elements is produced |
| Selection.HaRaggiuntoLimite | vvf_scheduler/core.py:208-220 | true exactly when the cap rule is HARD and the person has reached a positive cap in the day's ISO week |
| Selection.AdmitDriver | vvf_scheduler/core.py:407-414 | one step of the candidate loop admits exactly the drivers the filter admits |
| Selection.CollectDrivers | vvf_scheduler/core.py:405-414 | the candidate loop yields the admitted drivers in roster order |
| Selection.DriverKey | vvf_scheduler/core.py:435-444 | the sort key has six components in the current engine, the first of which puts drivers over their cap last, and five in the legacy one |
| Selection.DriverChoiceSound | vvf_scheduler/core.py:405-446 | the chosen driver is a roster driver, not excluded, not on vacation, and under the cap where the cap is enforced; it has no turn yet on this (month, weekday) whenever some candidate has none; in the current engine it is under its cap whenever some pool member is |
| Selection.DriverChoiceExists | vvf_scheduler/core.py:416-446 | a driver can be chosen exactly when some candidate survives the filters |
| Selection.ClassifyFirefighter | vvf_scheduler/core.py:477-497 | one step of the firefighter loop puts a name in the base list or the fallback list exactly as the filters say |
| Selection.CollectCrew | vvf_scheduler/core.py:471-497 | the firefighter loop yields `candidati_base` and `fallback_candidates` in roster order |
| Selection.LegacyHasNoFallback | turnivvf.py:628-642 | the legacy engine has no fallback list: its pool is the base list |
| Selection.DisponibiliSound | vvf_scheduler/core.py:499-512 | every pool member is an admitted firefighter; a soft-blocked one is there only because the unblocked ones were too few; the pool has no duplicates when the roster has none |
| Selection.TeamOkByExperience | turnivvf.py:815-825 | a team passes exactly when no minimum is set, the pool has no SENIOR, or the team has enough SENIORs |
| Selection.LegacyDerogationNeverLogged | turnivvf.py:701-711 | the legacy "no SENIOR available" entry is never written, because such a team always passes the experience check |
| Selection.HardPairFreeSound | vvf_scheduler/core.py:567-568 | a team that passes the pair check has no hard-forbidden pair at any two positions |
| Selection.ScoreEnginesSwapLastTwo | turnivvf.py:729-740 | the two engines score a team alike on the first seven components and swap the last two |
| Selection.Evaluate | vvf_scheduler/core.py:563-621 | a combination is scored exactly when it has no hard-forbidden pair and the SENIOR rule does not turn it away; the team is the forced members followed by the combination |
| Selection.ValutaCombinazioni | vvf_scheduler/core.py:560-621 | the loop yields the scored survivors in combination order, and the derogation entry of the first waived team |
| Selection.SolutionOrigin | vvf_scheduler/core.py:560-621 | every solution comes from some combination, passed both hard checks, and carries that team's score |
| Selection.BestExists | vvf_scheduler/core.py:631-633 | when there is a solution, the sort has a first element |
| Selection.BestMinimisesSoftViolations | vvf_scheduler/core.py:631-633 | the winning team has no more soft-forbidden pairs than any other solution |
| Selection.Take | vvf_scheduler/core.py:536-542 | `xs[:k]`: at most `k` elements, the first ones of the list |
| Selection.ForcedOf | vvf_scheduler/core.py:526-542 | the forced members never exceed the places |
| Selection.SlotsOf | vvf_scheduler/core.py:544 | forced members and remaining slots add up to the places |
| Selection.CrewSearch | vvf_scheduler/core.py:467-629 | a search that finds a team returns the non-empty solution list and the forced members |
| Selection.SolutionSearch | vvf_scheduler/core.py:623-629 | as `CrewSearch`, for the end of the search |
| Selection.Pool | vvf_scheduler/core.py:498-512 | the pool and the entry logged when soft-blocked candidates join it |
| Selection.SearchCrew | vvf_scheduler/core.py:467-629 | the steps from the candidate loop to the solutions compute `CrewSearch` |
| Selection.Conclude | vvf_scheduler/core.py:560-629 | the loop over the combinations and the no-solution case compute `SolutionSearch` |
| Selection.FoundTeam | vvf_scheduler/core.py:544-564 | a solution's team is the forced members followed by a combination of the remaining candidates of the right size |
| Selection.CrewTeamShape | vvf_scheduler/core.py:526-564 | a solution's team has exactly `k` members, includes every forced member, and has no duplicates when the roster and the preferences have none |
| Selection.CrewTeamMembers | vvf_scheduler/core.py:475-512 | every member of a solution's team is an admitted firefighter; a soft-blocked one only when the unblocked candidates were too few |
| Selection.CrewTeamRules | vvf_scheduler/core.py:563-591 | a solution's team has no hard-forbidden pair; it has enough SENIORs when the pool has one and the rule is enforced; it holds every available hard preference when they fit |
| Selection.EnumerateSet | vvf_scheduler/core.py:526-529 | a set's members, each exactly once, in some order |
| Selection.DriverExclusions | vvf_scheduler/core.py:319-329 | the special driver is excluded on every day but Friday, and on a Friday whose Saturday driver is Pogliani; nobody else is excluded |
| Selection.FridayExclusionOrBonus | vvf_scheduler/core.py:319-344 | on a Friday the special driver is either excluded from driving or eligible as the bonus firefighter, never both |
| Selection.DisplayDriver | vvf_scheduler/core.py:337-357 | the driver shown is the real driver, or the special driver exactly when the Saturday display rule applies |
| Selection.DisplayWithoutDriver | vvf_scheduler/core.py:345-352 | with no Pogliani and no real driver on a Saturday, a SENIOR special driver is still shown |
| Selection.CrewExclusions | vvf_scheduler/core.py:362-366 | the crew excludes the real driver and, under the rule, the special driver; the legacy engine keeps the special driver only on a bonus Friday |
| Selection.Padded | vvf_scheduler/core.py:384-390 | four slots: the team's members in order, then None |
| Selection.PadCrew | vvf_scheduler/core.py:384-390 | the padding loop computes `Padded` |
| Selection.TurnoIncompleto | vvf_scheduler/core.py:395-398 | incomplete exactly when no driver is shown or a crew slot is empty |
| Selection.IncompleteIffShort | vvf_scheduler/core.py:384-398 | a padded day is incomplete exactly when it has no driver or fewer than four firefighters |
| Selection.OrdineGiorni | vvf_scheduler/core.py:241-249 | each present weekday once: Saturday, Friday and Sunday first, then the others ascending |
| Selection.ByWeekday | vvf_scheduler/core.py:270 | the weekdays present map to a date of theirs from the list |
| Selection.ByWeekdayKeepsAll | vvf_scheduler/core.py:270-272 | for the dates of one ISO week of one year, mapping by weekday loses no date |
| Selection.RecordKeepsCap | vvf_scheduler/core.py:216-220 | recording someone under their cap keeps every weekly count within every positive cap |
| Selection.RecordAllKeepsCap | vvf_scheduler/core.py:665-666 | recording a duplicate-free team under the cap keeps every weekly count within the caps |
| Selection.EmptyRespectsCap | vvf_scheduler/core.py:53-58 | empty counters respect every cap |
| Selection.EnsureKeepsCap | vvf_scheduler/core.py:60-74 | `assicura_persona` keeps every weekly count within the caps |
| Selection.WeekdayDriverOf | vvf_scheduler/core.py:251-258 | the weekday driver is the recorded driver of the first assigned date of that week and weekday, and None when there is none |
| Scheduling.ForbiddenPairs | vvf_scheduler/core.py:139-144 | exactly the pairs of the rules of the given hardness |
| Scheduling.Preferences | vvf_scheduler/core.py:145-149 | a driver maps to a firefighter exactly when a rule of the given hardness pairs them |
| Scheduling.ModeOf | vvf_scheduler/core.py:154-158 | the legacy engine treats every rule as HARD |
| Scheduling.MinEspertiOf | vvf_scheduler/core.py:164-165 | never negative; the legacy engine uses the configured minimum |
| Scheduling.EsperienzaOf | vvf_scheduler/core.py:134-136 | every firefighter has a level |
| Scheduling.CapsOf | vvf_scheduler/core.py:151 | the configured caps, none negative |
| Scheduling.SettingsOf | vvf_scheduler/core.py:124-199 | sorted rosters with the same members; no negative cap or minimum; a disabled special rule clears both special names; a SENIOR special firefighter is on the roster; the legacy engine has every mode HARD |
| Scheduling.RosterCheck | turnivvf.py:985-988 | accepted exactly when there is a driver and a firefighter |
| Scheduling.NewCounters | vvf_scheduler/core.py:177-182 | fresh counters holding exactly the roster's names, all at zero |
| Scheduling.NewCounterPair | vvf_scheduler/core.py:177-182 | two distinct fresh counters for drivers and firefighters that keep the cap invariant |
| Scheduling.CurrentDates | vvf_scheduler/core.py:166-172 | the active dates of the year, ascending, with the months filtered |
| Scheduling.LegacyDates | turnivvf.py:374 | the active dates of the year, ascending |
| Scheduling.PickWinner | vvf_scheduler/core.py:631-632 | the winner is the team of a best solution: `k` roster firefighters, under the cap where it is enforced, and duplicate-free when roster and preferences are |
| Scheduling.CapStops | vvf_scheduler/core.py:208-214 | the cap stops someone exactly when it is enforced and reached |
| Scheduling.BonusLog | vvf_scheduler/core.py:671-699 | no entry when there is no special firefighter or they are already in the team; the "on vacation" entry exactly when they are missing from the team and on vacation; the "at cap" entry exactly when they are missing, not on vacation and stopped by the enforced cap, the vacation test coming first; the "added" entry exactly when they are added |
| Scheduling.BonusDecision | vvf_scheduler/core.py:671-699 | the tests decide the addition and the entry as `BonusAdded` and `BonusLog` say |
| Scheduling.NamedMembers | vvf_scheduler/core.py:693 | the team's non-empty names |
| Scheduling.Bonus | vvf_scheduler/core.py:380-382 | the special firefighter is added only on a bonus day and only when `_aggiungi_varchi_venerdi` adds them |
| Scheduling.FindWeekdayDriver | vvf_scheduler/core.py:251-258 | the search loop computes `WeekdayDriver` |
| Scheduling.NoteTeam | turnivvf.py:759-776 | the notes about the winning team, in both engines, are `TeamNotes` |
| Selection.TeamNotes | vvf_scheduler/core.py:634-646 | the soft-pairs entry exactly when the team has a soft-forbidden pair; the repeated (month, weekday) entry exactly in the legacy engine (turnivvf.py:765-770) when some member already served then; the team-seen entry exactly when its names are a team seen; no other entry and none twice |
| Scheduling.MinKeyExists | vvf_scheduler/core.py:269 | a non-empty set of week keys has a least one |
| Scheduling.WeekVisit | vvf_scheduler/core.py:270-272 | a week's dates, each once, in the order Saturday, Friday, Sunday, then the others |
| Scheduling.GroupByWeek | vvf_scheduler/core.py:263-265 | every date is filed under its own ISO week, once, and every group holds only dates of its week |
| Scheduling.FileDate | vvf_scheduler/core.py:265 | filing one more date keeps the grouping exact |
| Scheduling.VisitOrder | vvf_scheduler/core.py:263-273 | every date once, weeks ascending, and within a week the weekday order |
| Scheduling.PickDriver | vvf_scheduler/core.py:400-454 | no driver exactly when no candidate survives; otherwise a driver the sort can put first, under the enforced cap; the entries as `DriverLog` |
| Scheduling.PickFromCandidates | vvf_scheduler/core.py:420-453 | with candidates, the chosen driver is one the sort can put first, with the relaxation entry when nobody is preferred |
| Scheduling.RecordInvariant | vvf_scheduler/core.py:76-87 | recording someone under the cap keeps the counter invariant |
| Scheduling.RecordAllInvariant | vvf_scheduler/core.py:665-666 | recording a duplicate-free team under the cap keeps the counter invariant |
| Scheduling.Scheduler.FromConfig | vvf_scheduler/core.py:124-199 | a valid scheduler: settings from the configuration, exactly the active dates, counters for exactly the roster names, and no teams seen, log or recorded drivers |
| Scheduling.Scheduler.LegacyFromConfig | turnivvf.py:343-403 | the same for the legacy engine, with no month filter |
| Scheduling.Scheduler.ScegliAutista | vvf_scheduler/core.py:400-454 | no driver exactly when no candidate survives; otherwise a driver the sort can put first, recorded in the driver counters; the entries as `DriverLog` |
| Scheduling.Scheduler.ApplyDriver | vvf_scheduler/core.py:447-453 | the chosen driver is recorded and the entries are appended |
| Scheduling.Scheduler.AssignDriver | vvf_scheduler/core.py:453 | the driver counters change as `Record` says |
| Scheduling.Scheduler.ScegliSquadraVigili | vvf_scheduler/core.py:456-669 | no place gives the empty team and changes nothing; otherwise the outcome of the search, with the hard preferences enumerated once each |
| Scheduling.Scheduler.Squadra | vvf_scheduler/core.py:467-669 | the search for `k > 0` places ends as `CrewOutcome` says |
| Scheduling.Scheduler.CrewOutcomeLog | vvf_scheduler/core.py:467-669 | the crew search only appends to the log |
| Scheduling.Scheduler.Commit | vvf_scheduler/core.py:631-667 | the winner's entries are logged, the team is recorded in the counters, and the team joins the teams seen |
| Scheduling.Scheduler.LogEach | vvf_scheduler/core.py:648-663 | one entry per name, in order |
| Scheduling.Scheduler.LogWinner | vvf_scheduler/core.py:634-663 | the entries about the winning team are `WinnerLog` |
| Scheduling.Scheduler.RecordTeam | vvf_scheduler/core.py:665-666 | the firefighter counters change as `RecordAll` says |
| Scheduling.Scheduler.AggiungiVarchiVenerdi | vvf_scheduler/core.py:671-699 | the special firefighter is appended, recorded and the team marked as seen exactly when `BonusAdded` holds; the entry as `BonusLog` |
| Scheduling.Scheduler.JoinTeam | vvf_scheduler/core.py:691-693 | the name is appended, recorded, and the named members join the teams seen |
| Scheduling.Scheduler.AddSeen | vvf_scheduler/core.py:693 | the team joins the teams seen |
| Scheduling.Scheduler.AssignSpecial | vvf_scheduler/core.py:692 | the firefighter counters change as `Record` says |
| Scheduling.Scheduler.ChooseDriver | vvf_scheduler/core.py:317-336 | the driver is chosen under the Friday exclusions (`ChosenDriver`: none exactly when no candidate is left, otherwise a minimal-key candidate counted once), with the Friday entry logged when it applies |
| Scheduling.Scheduler.ShowDriver | vvf_scheduler/core.py:345-357 | the driver shown is `DisplayDriver`, with the substitution entry exactly when it applies |
| Scheduling.Scheduler.BaseTeam | vvf_scheduler/core.py:368-373 | no place gives the empty team and changes nothing; otherwise no team exactly when the search fails, else the team of a best solution (`SearchPick`), which the search admits; the counters, teams seen and log are those after the search (`AfterSearch`) |
| Scheduling.Scheduler.AfterSearch | vvf_scheduler/core.py:467-669 | the search's entries are appended; a team is recorded in the counters and its names join the teams seen, and nothing else changes |
| Scheduling.Scheduler.BonusState | vvf_scheduler/core.py:671-699 | off a bonus Friday nothing changes; on one only the bonus entry is appended and, when the special firefighter joins, its turn and the new team's names are added |
| Scheduling.Scheduler.CrewOutcomeFacts | vvf_scheduler/core.py:467-669 | the team of a search outcome is admitted by the search and is what the counters record |
| Scheduling.Scheduler.ComposeCrew | vvf_scheduler/core.py:359-392 | `ComposedCrew`: the base team is what the search picks, none exactly when it fails; an uncovered day logs the uncovered entry after the search's and shows the real driver over four empty slots; otherwise the shown driver over the searched team and the bonus firefighter, with the state after the search and the bonus step (teams seen, counters, every entry) |
| Scheduling.Scheduler.Uncovered | vvf_scheduler/core.py:375-378 | the uncovered entry is appended and the day shows the real driver over four empty slots; nothing else changes |
| Scheduling.Scheduler.FinishCrew | vvf_scheduler/core.py:380-392 | the team is joined by the special firefighter where `_aggiungi_varchi_venerdi` adds it and padded to four under the shown driver; the new state is `BonusState` |
| Scheduling.Scheduler.DriverState | vvf_scheduler/core.py:317-357 | the driver part counts the chosen driver once and appends the Friday, driver-choice and display entries; the crew counters and teams seen are untouched |
| Scheduling.Scheduler.CostruisciPerDataInternal | vvf_scheduler/core.py:309-392 | `InternalOutcome`: the driver chosen under the Friday exclusions and counted, with its entries (`DriverState`), then `ComposedCrew` under the shown driver; the whole new state is determined up to the search's choice among equally good teams |
| Scheduling.Scheduler.TrovaAutistaSettimanale | vvf_scheduler/core.py:251-258 | the recorded driver of the first assigned date of the same ISO week on the given weekday |
| Scheduling.Scheduler.CostruisciPerData | vvf_scheduler/core.py:277-307 | the first attempt is `InternalOutcome` under the week's Saturday driver; the day is composed again without the special rule exactly when the current engine's SOFT special rule left it incomplete, and then the second attempt is `InternalOutcome` from the state the first left plus the retry entry, so both attempts' counts, teams seen and entries stay; without a retry the first attempt is the result and state; the real driver is recorded |
| Scheduling.Scheduler.Retried | vvf_scheduler/core.py:295-299 | the retry entry is appended and nothing else changes |
| Scheduling.Scheduler.Attempts | vvf_scheduler/core.py:283-305 | the two attempts of a day, with the same outcomes and states as `CostruisciPerData` states |
| Scheduling.Scheduler.RetryCountsBothAttempts | vvf_scheduler/core.py:283-305 | across a retry a person's driver count rises once for each attempt that chose them: a driver chosen twice is counted twice |
| Scheduling.Scheduler.RecordRealDriver | vvf_scheduler/core.py:306 | `autisti_reali[giorno]` is set, and the counters, teams seen and log are unchanged |
| Scheduling.Scheduler.MaybeRetry | vvf_scheduler/core.py:289-305 | without a retry the first attempt stands and the state is unchanged; with one, the second attempt is `InternalOutcome` without the special rule from the state plus the retry entry |
| Scheduling.Scheduler.Retry | vvf_scheduler/core.py:295-305 | the retry entry is appended, then `_costruisci_per_data_internal` runs without the special rule: `InternalOutcome` from that state |
| Scheduling.Scheduler.Attempt | vvf_scheduler/core.py:283-288 | one attempt is `InternalOutcome`, and its driver is on the roster and outside the exclusions |
| Scheduling.Scheduler.VisitDay | vvf_scheduler/core.py:271-273 | one day's `_costruisci_per_data` gives an assignment for that day with `DayOk`, and records its driver |
| Scheduling.Scheduler.OutcomeDay | vvf_scheduler/core.py:309-392 | every outcome of `_costruisci_per_data_internal` has the facts the plan keeps (`DayFacts`) |
| Scheduling.Scheduler.ComposedCrewFacts | vvf_scheduler/core.py:359-392 | every outcome of the crew part has the crew facts the plan keeps (`CrewFacts`) |
| Scheduling.Scheduler.SearchedTeamFacts | vvf_scheduler/core.py:363-373 | a searched team under exclusions holding the driver has roster firefighters, none on vacation, none the driver |
| Scheduling.Scheduler.PlannedUpdate | vvf_scheduler/core.py:269-273 | filing one more day with its facts keeps every filed day's facts |
| Scheduling.Scheduler.Costruisci | vvf_scheduler/core.py:260-275 | one assignment per active date, in date order; every date is visited once, weeks ascending and each week in the weekday order; each day's assignment has the facts of its outcome (`DayOk`): a roster driver or none; an uncovered day shows it over four empty slots; otherwise the driver shown under the rule as applied that day, over a base team of roster firefighters not on vacation, not the driver, with no hard-forbidden pair, followed at most by the special firefighter; a retry only under the current engine's SOFT rule |
| Scheduling.Esegui | turnivvf.py:976-990 | refused exactly when a roster is empty; otherwise a plan of four-slot days on exactly the active dates, ascending, built by a legacy scheduler on `config`'s settings, with no retry and with every day's `DayOk` facts: a roster driver, a base team of roster firefighters not on vacation, not the driver and free of hard-forbidden pairs, and the shown driver |

## Left out

- Randomness: `random.random()` and `random.seed` are not modelled. The model states the set of choices the sort can produce (a minimal deterministic key), not which one a given seed picks.
- Log text: the messages' wording, the `strftime` stamp and the `logging` logger are not modelled. Each entry keeps its day, category and kind of message with the data in it.
- I/O: the file reads of `carica_nomi` (the model takes the file's lines, and a missing senior file as `None`), the SQLite store behind `database.py`, the Excel and ICS writers, the GUI, `runner.py` and `main` are not part of this model.
- Missing files: `carica_nomi` raising `FileNotFoundError` is not modelled; the model takes the lines of a file that exists.
- The `constants` module is not part of this model. Its defaults enter as constants or parameters: the default forbidden and preferred pairs and the special names are the `Defaults` parameter of `Config.AssembleConfig`.
- Years: dates are limited to years 1..9998. Python's `date(anno, 12, 31) + 1 day` overflows for 9999.
- ParseInt (`Text.ParseInt`): only ASCII digits are read. Python's `int` also reads other Unicode decimal digits (`int("٣") == 3`) and single `_` separators (`int("1_0") == 10`); for such a stored rule value the model falls back to the default where the store would keep the number.
- ParseActiveWeekdays (`Database.ParseActiveWeekdays`, `Database.WeekdayOfToken`): `str.isdigit` is taken as ASCII digits only. A token of other Unicode decimal digits (`"٣"`) is skipped where the store adds the weekday, and a token such as `"²"`, which `isdigit` accepts and `int` rejects, is skipped where the store raises `ValueError`.
- `DEFAULT_FORBIDDEN_PAIRS` and `DEFAULT_PREFERRED_PAIRS` are Python sets, iterated in hash order; the model lists them in one fixed order. Only membership in the resolved pairs is read afterwards, so the order does not change a roster.
- Case folding: `casefold()` is modelled as ASCII lower-casing.
- `giorni.sort()` inside `costruisci` is not modelled as a separate step. The dates arrive ascending and grouping keeps that order, so the sort changes nothing.
- Scheduling.VisitOrder: the weeks are taken by repeated selection of the least remaining week key, not by `sorted(per_settimana.items())`; the resulting order is the same.
- Python set iteration order (the hard preferences of a driver) is treated as arbitrary: `Selection.EnumerateSet` promises each member once, in some order.
- Duplicate roster names: the source does not exclude them, so properties that need a duplicate-free roster are stated under that hypothesis.
- Selection.ClassifyFirefighter and Selection.CollectCrew do not model `limit_map` and `summer_map` as dictionaries: the same facts are recomputed by `SoftBlocked`, which reads the same counters.
