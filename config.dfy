/** Building a program configuration from the legacy name files
    (`vvf_scheduler/config.py`): reading a name list, resolving a name or
    surname (the variant `turnivvf.py` shares), creating or updating the
    profile of each loaded name, and assembling the rosters, the default
    pairs and the special names. The files are given as their lines. */
module Config {
  import opened Util
  import opened Text
  import opened Rules
  import opened Database

  const LivSenior := "SENIOR"
  const LivJunior := "JUNIOR"

  // ---------------------------------------------------------------------------
  // Resolving an identifier

  /** The profile test of this variant: a non-empty display name, or a
      non-empty surname, whose normal form equals the target. */
  predicate ProfileHit(p: PersonProfile, target: string) {
    var display := DisplayName(p);
    var cognome := if p.cognome.Some? then p.cognome.value else "";
    (display != "" && NormName(display) == target) || (cognome != "" && NormName(cognome) == target)
  }

  /** `_match_person_identifier` of `vvf_scheduler/config.py` and `turnivvf.py`. */
  function MatchPersonIdentifier(value: Option<string>, roster: seq<string>, profiles: seq<(string, PersonProfile)>): (r: Option<string>)
    ensures !Truthy(value) ==> r == None
    ensures r.Some? ==> r.value in roster || exists i :: 0 <= i < |profiles| && profiles[i].0 == r.value
  {
    MatchWith(value, roster, profiles, NormName, ProfileHit)
  }

  /** The first roster name that normalises to the identifier wins over every
      profile. */
  lemma RosterBeforeProfiles(value: string, roster: seq<string>, profiles: seq<(string, PersonProfile)>, i: int)
    requires value != "" && 0 <= i < |roster| && NormName(roster[i]) == NormName(value)
    requires forall j :: 0 <= j < i ==> NormName(roster[j]) != NormName(value)
    ensures MatchPersonIdentifier(Some(value), roster, profiles) == Some(roster[i])
  {
    MatchWithRosterFirst(value, roster, profiles, NormName, ProfileHit, i);
  }

  /** With no roster name matching, the key of the first profile whose
      display name or surname normalises to the identifier is returned, and
      None when there is none. */
  lemma ProfileFallback(value: string, roster: seq<string>, profiles: seq<(string, PersonProfile)>)
    requires value != ""
    requires forall j :: 0 <= j < |roster| ==> NormName(roster[j]) != NormName(value)
    ensures var r := MatchPersonIdentifier(Some(value), roster, profiles);
      && (r.None? <==> forall i :: 0 <= i < |profiles| ==> !ProfileHit(profiles[i].1, NormName(value)))
      && (r.Some? ==> exists i ::
            && 0 <= i < |profiles| && profiles[i].0 == r.value && ProfileHit(profiles[i].1, NormName(value))
            && forall j :: 0 <= j < i ==> !ProfileHit(profiles[j].1, NormName(value)))
  {
  }

  // ---------------------------------------------------------------------------
  // `carica_nomi`

  /** A line names a person when, stripped, it is neither empty nor a comment. */
  predicate KeptLine(line: string) {
    var nome := Strip(line);
    nome != "" && !StartsWith(nome, "#")
  }

  /** The stripped name on a kept line. */
  function KeptName(line: string): (r: Option<string>)
    ensures r.Some? <==> KeptLine(line)
    ensures r.Some? ==> r.value == Strip(line) && r.value != "" && !StartsWith(r.value, "#")
  {
    if KeptLine(line) then Some(Strip(line)) else None
  }

  /** The stripped kept lines, in file order (`nomi_raw`). */
  function KeptNames(lines: seq<string>): (r: seq<string>)
    ensures forall x :: x in r ==> x != "" && !StartsWith(x, "#")
    ensures forall x :: x in r <==> exists i :: 0 <= i < |lines| && KeptLine(lines[i]) && Strip(lines[i]) == x
  {
    FilterMap(lines, KeptName)
  }

  /** One more line: its stripped name is appended when the line is kept. */
  lemma KeptNamesStep(lines: seq<string>, i: nat)
    requires i < |lines|
    ensures KeptNames(lines[..i + 1]) == KeptNames(lines[..i]) + (if KeptLine(lines[i]) then [Strip(lines[i])] else [])
  {
    assert lines[..i + 1][..i] == lines[..i];
  }

  /** The first occurrence of each name, in order. */
  function Dedup(xs: seq<string>): (r: seq<string>)
    ensures Distinct(r)
    ensures forall x :: x in r <==> x in xs
    decreases |xs|
  {
    if xs == [] then []
    else
      var init := xs[..|xs| - 1];
      var x := xs[|xs| - 1];
      var d := Dedup(init);
      assert forall y :: y in xs <==> y in init || y == x;
      if x in d then d else d + [x]
  }

  /** The names `carica_nomi` returns are the names on the kept lines. */
  lemma NamesOfFile(lines: seq<string>, nomi: seq<string>)
    requires nomi == Dedup(KeptNames(lines))
    ensures Members(nomi) == Members(KeptNames(lines))
  {
  }

  /** One more name: kept at the end when it is new, dropped otherwise. */
  lemma DedupStep(xs: seq<string>, j: nat)
    requires j < |xs|
    ensures Dedup(xs[..j + 1]) == if xs[j] in Dedup(xs[..j]) then Dedup(xs[..j]) else Dedup(xs[..j]) + [xs[j]]
  {
    assert xs[..j + 1][..j] == xs[..j];
  }

  /** Dedup keeps the order of first occurrences. */
  lemma {:induction false} DedupFirstOrder(xs: seq<string>)
    ensures forall i, j :: 0 <= i < j < |Dedup(xs)| ==> FirstPos(xs, Dedup(xs)[i]) < FirstPos(xs, Dedup(xs)[j])
    decreases |xs|
  {
    if xs != [] {
      var init := xs[..|xs| - 1];
      var x := xs[|xs| - 1];
      var d := Dedup(init);
      DedupFirstOrder(init);
      assert xs == init + [x];
      forall y | y in init ensures FirstPos(xs, y) == FirstPos(init, y) {
        FirstPosAppend(init, x, y);
      }
      var r := Dedup(xs);
      if x !in d {
        assert r == d + [x];
        FirstPosNew(init, x);
      } else {
        assert r == d;
      }
      forall i, j | 0 <= i < j < |r| ensures FirstPos(xs, r[i]) < FirstPos(xs, r[j]) {
        assert r[i] == d[i] && d[i] in init;
        assert FirstPos(xs, r[i]) == FirstPos(init, d[i]) < |init|;
        if j < |d| {
          assert r[j] == d[j] && d[j] in init;
          assert FirstPos(xs, r[j]) == FirstPos(init, d[j]);
          assert FirstPos(init, d[i]) < FirstPos(init, d[j]);
        } else {
          assert r[j] == x;
          assert FirstPos(xs, x) == |init|;
        }
      }
    }
  }

  /** Index of the first occurrence. */
  function FirstPos(xs: seq<string>, x: string): (k: nat)
    requires x in xs
    ensures k < |xs| && xs[k] == x
    decreases |xs|
  {
    if xs[0] == x then 0 else 1 + FirstPos(xs[1..], x)
  }

  lemma {:induction false} FirstPosAppend(xs: seq<string>, y: string, x: string)
    requires x in xs
    ensures FirstPos(xs + [y], x) == FirstPos(xs, x)
    decreases |xs|
  {
    if xs[0] != x {
      assert (xs + [y])[1..] == xs[1..] + [y];
      FirstPosAppend(xs[1..], y, x);
    }
  }

  lemma {:induction false} FirstPosNew(xs: seq<string>, x: string)
    requires x !in xs
    ensures FirstPos(xs + [x], x) == |xs|
    decreases |xs|
  {
    if xs != [] {
      assert (xs + [x])[1..] == xs[1..] + [x];
      FirstPosNew(xs[1..], x);
    }
  }

  /** `carica_nomi`, given the file's lines: the named lines in file order,
      each name once. */
  method CaricaNomi(lines: seq<string>) returns (nomi: seq<string>)
    ensures nomi == Dedup(KeptNames(lines))
  {
    var nomiRaw: seq<string> := [];
    var i := 0;
    while i < |lines|
      invariant 0 <= i <= |lines| && nomiRaw == KeptNames(lines[..i])
    {
      var nome := Strip(lines[i]);
      KeptNamesNext(lines, i, nomiRaw);
      if nome != "" && !StartsWith(nome, "#") {
        nomiRaw := nomiRaw + [nome];
      }
      i := i + 1;
    }
    assert lines[..|lines|] == lines;
    var visti: set<string> := {};
    nomi := [];
    var j := 0;
    while j < |nomiRaw|
      invariant 0 <= j <= |nomiRaw| && Deduped(nomiRaw[..j], nomi, visti)
    {
      var nome := nomiRaw[j];
      DedupedNext(nomiRaw, j, nomi, visti);
      if nome !in visti {
        visti := visti + {nome};
        nomi := nomi + [nome];
      }
      j := j + 1;
    }
    assert nomiRaw[..|nomiRaw|] == nomiRaw;
  }

  /** One more line read by the first loop of `carica_nomi`. */
  lemma KeptNamesNext(lines: seq<string>, i: nat, nomiRaw: seq<string>)
    requires i < |lines| && nomiRaw == KeptNames(lines[..i])
    ensures KeptNames(lines[..i + 1]) ==
      if Strip(lines[i]) != "" && !StartsWith(Strip(lines[i]), "#") then nomiRaw + [Strip(lines[i])] else nomiRaw
  {
    KeptNamesStep(lines, i);
  }

  /** The state of the second loop of `carica_nomi`: the names so far,
      deduplicated, and the set of those seen. */
  ghost predicate Deduped(done: seq<string>, nomi: seq<string>, visti: set<string>) {
    nomi == Dedup(done) && forall x :: x in visti <==> x in nomi
  }

  lemma DedupedNext(xs: seq<string>, j: nat, nomi: seq<string>, visti: set<string>)
    requires j < |xs| && Deduped(xs[..j], nomi, visti)
    ensures xs[j] in visti ==> Deduped(xs[..j + 1], nomi, visti)
    ensures xs[j] !in visti ==> Deduped(xs[..j + 1], nomi + [xs[j]], visti + {xs[j]})
  {
    DedupStep(xs, j);
  }

  // ---------------------------------------------------------------------------
  // Profiles

  /** `_split`: first word and the remaining words, or the whole name and "". */
  function SplitName(full: string): (r: (string, string))
    ensures |SplitWords(full)| >= 2 ==> r.0 == SplitWords(full)[0] && r.0 != "" && NoSpace(r.0)
    ensures |SplitWords(full)| >= 2 ==> r.1 == JoinSpaced(SplitWords(full)[1..]) && r.0 + " " + r.1 == JoinSpaced(SplitWords(full))
    ensures |SplitWords(full)| < 2 ==> r == (full, "")
  {
    var chunks := SplitWords(full);
    if |chunks| >= 2 then (chunks[0], JoinSpaced(chunks[1..])) else (full, "")
  }

  /** The profile `_ensure_person` creates when the dictionary holds `count` profiles. */
  function NewProfile(count: nat, nomeVisualizzato: string, ruolo: string, grado: string,
                      autista: bool, vigile: bool, livello: string): PersonProfile
  {
    var parts := SplitName(nomeVisualizzato);
    PersonProfile(-(count + 1), parts.0, Some(parts.1), Some(""), Some(""), Some(ruolo), Some(grado),
                  autista, vigile, livello, DefaultWeeklyCap)
  }

  /** The role after one more `_ensure_person` call: AUTISTA+VIGILE always
      wins, and AUTISTA or VIGILE replaces any role but AUTISTA+VIGILE. */
  function NextRole(current: Option<string>, ruolo: string): (r: Option<string>)
    ensures current == Some(RoleAutistaVigile) ==> r == current
    ensures ruolo == RoleAutistaVigile ==> r == Some(RoleAutistaVigile)
    ensures ruolo != RoleAutistaVigile && ruolo != RoleAutista && ruolo != RoleVigile ==> r == current
  {
    if ruolo == RoleAutistaVigile then Some(ruolo)
    else if ruolo == RoleAutista && current != Some(RoleAutistaVigile) then Some(RoleAutista)
    else if ruolo == RoleVigile && current != Some(RoleAutistaVigile) then Some(RoleVigile)
    else current
  }

  /** The fields `_ensure_person` sets on a profile it already has. */
  function UpdatedProfile(p: PersonProfile, ruolo: string, grado: string, autista: bool, vigile: bool, livello: string): (q: PersonProfile)
    ensures p.isAutista ==> q.isAutista
    ensures p.isVigile ==> q.isVigile
    ensures q.isAutista <==> p.isAutista || autista
    ensures q.isVigile <==> p.isVigile || vigile
    ensures p.ruolo == Some(RoleAutistaVigile) ==> q.ruolo == p.ruolo
    ensures q.id == p.id && q.nome == p.nome && q.cognome == p.cognome && q.weeklyCap == p.weeklyCap
  {
    var q := p;
    var q := if autista then q.(isAutista := true) else q;
    var q := if vigile then q.(isVigile := true, livello := livello) else q;
    var q := if grado != "" then q.(grado := Some(grado)) else q;
    q.(ruolo := NextRole(q.ruolo, ruolo))
  }

  /** The keys are listed once each in insertion order, and the profile
      inserted `i`-th has id -(i+1): ids are distinct and negative. */
  predicate BookValid(order: seq<string>, persone: map<string, PersonProfile>) {
    && Distinct(order)
    && persone.Keys == Members(order)
    && (forall i :: 0 <= i < |order| ==> persone[order[i]].id == -(i + 1))
  }

  /** Inserting a new name with the next id keeps the book valid. */
  lemma InsertKeepsValid(order: seq<string>, persone: map<string, PersonProfile>, n: string, p: PersonProfile)
    requires BookValid(order, persone) && n !in persone && p.id == -(|order| + 1)
    ensures BookValid(order + [n], persone[n := p])
  {
    var o := order + [n];
    assert Members(o) == Members(order) + {n};
    forall i, j | 0 <= i < j < |o| ensures o[i] != o[j] {
      if j == |order| {
        assert o[i] in order;
      }
    }
    forall i | 0 <= i < |o| ensures persone[n := p][o[i]].id == -(i + 1) {
      if i < |order| {
        assert o[i] == order[i] && order[i] in persone && order[i] != n;
      }
    }
  }

  /** Replacing a profile by one with the same id keeps the book valid. */
  lemma ReplaceKeepsValid(order: seq<string>, persone: map<string, PersonProfile>, n: string, p: PersonProfile)
    requires BookValid(order, persone) && n in persone && p.id == persone[n].id
    ensures BookValid(order, persone[n := p])
  {
  }

  /** The `persone` dictionary of `build_program_config_from_files`, updated
      in place by `_ensure_person`. `order` is its insertion order. */
  class ProfileBook {
    var persone: map<string, PersonProfile>
    var order: seq<string>

    predicate Valid()
      reads this
    {
      BookValid(order, persone)
    }

    constructor()
      ensures Valid() && persone == map[] && order == []
    {
      persone := map[];
      order := [];
    }

    /** The profiles in dictionary order (`persone.items()`). */
    function Items(): (r: seq<(string, PersonProfile)>)
      requires Valid()
      reads this
      ensures |r| == |order| && forall i :: 0 <= i < |r| ==> r[i] == (order[i], persone[order[i]])
    {
      var o := order;
      var p := persone;
      seq(|o|, i requires 0 <= i < |o| && o[i] in p => (o[i], p[o[i]]))
    }

    /** `_ensure_person` */
    method EnsurePerson(nomeVisualizzato: string, ruolo: string, grado: string, autista: bool, vigile: bool, livello: string)
      requires Valid()
      modifies this
      ensures Valid()
      ensures nomeVisualizzato !in old(persone) ==>
        && order == old(order) + [nomeVisualizzato]
        && persone == old(persone)[nomeVisualizzato := NewProfile(|old(order)|, nomeVisualizzato, ruolo, grado, autista, vigile, livello)]
      ensures nomeVisualizzato in old(persone) ==>
        && order == old(order)
        && persone == old(persone)[nomeVisualizzato := UpdatedProfile(old(persone)[nomeVisualizzato], ruolo, grado, autista, vigile, livello)]
      ensures (order, persone) == Ensured((old(order), old(persone)), nomeVisualizzato, ruolo, grado, autista, vigile, livello)
    {
      if nomeVisualizzato !in persone {
        var profilo := NewProfile(|persone|, nomeVisualizzato, ruolo, grado, autista, vigile, livello);
        CardinalityOfKeys();
        InsertKeepsValid(order, persone, nomeVisualizzato, profilo);
        persone := persone[nomeVisualizzato := profilo];
        order := order + [nomeVisualizzato];
      } else {
        var profilo := UpdatedProfile(persone[nomeVisualizzato], ruolo, grado, autista, vigile, livello);
        ReplaceKeepsValid(order, persone, nomeVisualizzato, profilo);
        persone := persone[nomeVisualizzato := profilo];
      }
    }

    /** `len(persone)` is the number of names inserted. */
    lemma CardinalityOfKeys()
      requires Valid()
      ensures |persone| == |order|
    {
      DistinctCardinality(order);
      assert persone.Keys == set x | x in order;
    }
  }

  lemma {:induction false} DistinctCardinality(xs: seq<string>)
    requires Distinct(xs)
    ensures |set x | x in xs| == |xs|
    decreases |xs|
  {
    if xs != [] {
      var init := xs[..|xs| - 1];
      assert Distinct(init);
      DistinctCardinality(init);
      assert Members(xs) == Members(init) + {xs[|xs| - 1]};
      assert xs[|xs| - 1] !in init;
    }
  }

  /** A driver who is also listed as a firefighter keeps the driver flag, gains
      the firefighter flag, and ends with role VIGILE: the firefighter loop
      passes VIGILE for everybody. */
  lemma DriverAlsoFirefighterEndsVigile(p: PersonProfile, livello: string)
    requires p.ruolo == Some(RoleAutista) && p.isAutista
    ensures var q := UpdatedProfile(p, RoleVigile, "", false, true, livello);
      q.isAutista && q.isVigile && q.ruolo == Some(RoleVigile) && q.livello == livello
  {
  }

  /** What the roster loops decide about a person: the two flags, the
      level and the role. */
  datatype Standing = Standing(isAutista: bool, isVigile: bool, livello: string, ruolo: Option<string>)

  function StandingOf(p: PersonProfile): Standing {
    Standing(p.isAutista, p.isVigile, p.livello, p.ruolo)
  }

  /** The standing after one `_ensure_person` call, from the standing before
      (`None` for a name not yet in `persone`). */
  function NextStanding(before: Option<Standing>, ruolo: string, autista: bool, vigile: bool, livello: string): (r: Standing)
    ensures before.None? ==> r == Standing(autista, vigile, livello, Some(ruolo))
    ensures before.Some? ==> r.isAutista == (before.value.isAutista || autista) && r.isVigile == (before.value.isVigile || vigile)
    ensures before.Some? ==> r.livello == if vigile then livello else before.value.livello
  {
    match before
    case None => Standing(autista, vigile, livello, Some(ruolo))
    case Some(b) => Standing(b.isAutista || autista, b.isVigile || vigile, if vigile then livello else b.livello, NextRole(b.ruolo, ruolo))
  }

  /** `NextStanding` describes both branches of `_ensure_person`. */
  lemma StandingOfEnsured(p: PersonProfile, count: nat, n: string, ruolo: string, autista: bool, vigile: bool, livello: string)
    ensures StandingOf(NewProfile(count, n, ruolo, "", autista, vigile, livello)) == NextStanding(None, ruolo, autista, vigile, livello)
    ensures StandingOf(UpdatedProfile(p, ruolo, "", autista, vigile, livello)) == NextStanding(Some(StandingOf(p)), ruolo, autista, vigile, livello)
  {
  }

  /** Calling `_ensure_person` again with the same arguments changes no
      standing. */
  lemma NextStandingIdempotent(before: Option<Standing>, ruolo: string, autista: bool, vigile: bool, livello: string)
    ensures var once := NextStanding(before, ruolo, autista, vigile, livello);
      NextStanding(Some(once), ruolo, autista, vigile, livello) == once
  {
  }

  /** One `_ensure_person(nome, ruolo, "", ...)` on the dictionary and its
      insertion order, as `ProfileBook.EnsurePerson` performs it. */
  function Ensured(book: (seq<string>, map<string, PersonProfile>), n: string, ruolo: string, grado: string, autista: bool, vigile: bool, livello: string)
    : (r: (seq<string>, map<string, PersonProfile>))
    ensures r.1.Keys == book.1.Keys + {n}
  {
    if n !in book.1 then (book.0 + [n], book.1[n := NewProfile(|book.0|, n, ruolo, grado, autista, vigile, livello)])
    else (book.0, book.1[n := UpdatedProfile(book.1[n], ruolo, grado, autista, vigile, livello)])
  }

  /** `for nome in names: _ensure_person(nome, ruolo, "", ...)` on values. */
  function AfterRoster(book: (seq<string>, map<string, PersonProfile>), names: seq<string>, ruolo: string, autista: bool, vigile: bool, livello: string)
    : (r: (seq<string>, map<string, PersonProfile>))
    decreases |names|
  {
    if names == [] then book else AfterRoster(Ensured(book, names[0], ruolo, "", autista, vigile, livello), names[1..], ruolo, autista, vigile, livello)
  }

  /** One more name of the roster loop. */
  lemma AfterRosterStep(book: (seq<string>, map<string, PersonProfile>), names: seq<string>, i: nat, ruolo: string,
                        autista: bool, vigile: bool, livello: string)
    requires i < |names|
    ensures AfterRoster(book, names[i..], ruolo, autista, vigile, livello)
            == AfterRoster(Ensured(book, names[i], ruolo, "", autista, vigile, livello), names[i + 1..], ruolo, autista, vigile, livello)
  {
    assert names[i..][1..] == names[i + 1..];
  }

  /** A roster loop leaves every name outside it alone and gives every name
      in it the standing of a single `_ensure_person` call: a repeated name
      ends as if it were listed once. */
  lemma {:induction false} RosterStanding(book: (seq<string>, map<string, PersonProfile>), names: seq<string>, ruolo: string,
                                          autista: bool, vigile: bool, livello: string, n: string)
    ensures var r := AfterRoster(book, names, ruolo, autista, vigile, livello).1;
      && (n in r <==> n in book.1 || n in names)
      && (n !in names && n in book.1 ==> r[n] == book.1[n])
      && (n in names ==> StandingOf(r[n]) == NextStanding(if n in book.1 then Some(StandingOf(book.1[n])) else None, ruolo, autista, vigile, livello))
    decreases |names|
  {
    if names != [] {
      var b1 := Ensured(book, names[0], ruolo, "", autista, vigile, livello);
      assert AfterRoster(book, names, ruolo, autista, vigile, livello) == AfterRoster(b1, names[1..], ruolo, autista, vigile, livello);
      RosterStanding(b1, names[1..], ruolo, autista, vigile, livello, n);
      EnsuredStanding(book, names[0], ruolo, autista, vigile, livello, n);
      assert n in names <==> n == names[0] || n in names[1..] by {
        assert names == [names[0]] + names[1..];
      }
      if n == names[0] && n in names[1..] {
        NextStandingIdempotent(if n in book.1 then Some(StandingOf(book.1[n])) else None, ruolo, autista, vigile, livello);
      }
    }
  }

  /** One `_ensure_person` call gives its own name the next standing and
      leaves every other profile as it was. */
  lemma EnsuredStanding(book: (seq<string>, map<string, PersonProfile>), m: string, ruolo: string,
                        autista: bool, vigile: bool, livello: string, n: string)
    ensures var b := Ensured(book, m, ruolo, "", autista, vigile, livello).1;
      && (n != m && n in book.1 ==> b[n] == book.1[n])
      && (n == m ==> StandingOf(b[n]) == NextStanding(if n in book.1 then Some(StandingOf(book.1[n])) else None, ruolo, autista, vigile, livello))
  {
    if n == m {
      if n in book.1 {
        StandingOfEnsured(book.1[n], |book.0|, n, ruolo, autista, vigile, livello);
      } else {
        StandingOfEnsured(NewProfile(|book.0|, n, ruolo, "", autista, vigile, livello), |book.0|, n, ruolo, autista, vigile, livello);
      }
    }
  }

  /** The standing `build_program_config_from_files` gives a name loaded from
      the drivers' file `a`, the firefighters' file `j` and the seniors' file
      `s`: a driver flag for a driver, a firefighter flag and the VIGILE role
      for a firefighter of either file, the AUTISTA role otherwise, and SENIOR
      exactly for a name of the seniors' file. */
  function LoadedStanding(n: string, a: set<string>, j: set<string>, s: set<string>): Standing {
    Standing(n in a, n in j || n in s, if n in s then LivSenior else LivJunior,
             Some(if n in j || n in s then RoleVigile else RoleAutista))
  }

  // ---------------------------------------------------------------------------
  // The configuration

  /** One default forbidden pair, kept as a hard rule when both of its
      names resolve among `roster` (`all(ids)`). */
  function ResolveForbidden(pair: (string, string), roster: seq<string>, profiles: seq<(string, PersonProfile)>): (r: Option<ConstraintRule>)
    ensures r.Some? <==>
      Truthy(MatchPersonIdentifier(Some(pair.0), roster, profiles)) && Truthy(MatchPersonIdentifier(Some(pair.1), roster, profiles))
    ensures r.Some? ==> (r.value.isHard
      && Some(r.value.primo) == MatchPersonIdentifier(Some(pair.0), roster, profiles)
      && Some(r.value.secondo) == MatchPersonIdentifier(Some(pair.1), roster, profiles))
  {
    var a := MatchPersonIdentifier(Some(pair.0), roster, profiles);
    var b := MatchPersonIdentifier(Some(pair.1), roster, profiles);
    if Truthy(a) && Truthy(b) then Some(ConstraintRule(a.value, b.value, true)) else None
  }

  /** The default forbidden pairs whose two names resolve, in order. */
  function ResolvedForbidden(pairs: seq<(string, string)>, roster: seq<string>, profiles: seq<(string, PersonProfile)>): (r: seq<ConstraintRule>)
    ensures |r| <= |pairs|
    ensures forall i :: 0 <= i < |pairs| && ResolveForbidden(pairs[i], roster, profiles).Some? ==>
      ResolveForbidden(pairs[i], roster, profiles).value in r
    ensures forall x :: x in r ==> exists i :: 0 <= i < |pairs| && ResolveForbidden(pairs[i], roster, profiles) == Some(x)
  {
    FilterMap(pairs, p => ResolveForbidden(p, roster, profiles))
  }

  /** One default preferred pair, kept as a soft preference when its driver
      resolves among `drivers` and its firefighter among `crew`. */
  function ResolvePreferred(pair: (string, string), drivers: seq<string>, crew: seq<string>, profiles: seq<(string, PersonProfile)>): (r: Option<PreferredRule>)
    ensures r.Some? <==>
      Truthy(MatchPersonIdentifier(Some(pair.0), drivers, profiles)) && Truthy(MatchPersonIdentifier(Some(pair.1), crew, profiles))
    ensures r.Some? ==> (!r.value.isHard
      && Some(r.value.autista) == MatchPersonIdentifier(Some(pair.0), drivers, profiles)
      && Some(r.value.vigile) == MatchPersonIdentifier(Some(pair.1), crew, profiles))
  {
    var a := MatchPersonIdentifier(Some(pair.0), drivers, profiles);
    var b := MatchPersonIdentifier(Some(pair.1), crew, profiles);
    if Truthy(a) && Truthy(b) then Some(PreferredRule(a.value, b.value, false)) else None
  }

  /** The default preferred pairs that resolve, in order. */
  function ResolvedPreferred(pairs: seq<(string, string)>, drivers: seq<string>, crew: seq<string>, profiles: seq<(string, PersonProfile)>): (r: seq<PreferredRule>)
    ensures |r| <= |pairs|
    ensures forall i :: 0 <= i < |pairs| && ResolvePreferred(pairs[i], drivers, crew, profiles).Some? ==>
      ResolvePreferred(pairs[i], drivers, crew, profiles).value in r
    ensures forall x :: x in r ==> exists i :: 0 <= i < |pairs| && ResolvePreferred(pairs[i], drivers, crew, profiles) == Some(x)
  {
    FilterMap(pairs, p => ResolvePreferred(p, drivers, crew, profiles))
  }

  /** The configuration `build_program_config_from_files` returns once the
      profiles are loaded: both rosters are the sorted profile names, and the
      default pairs and the special names are resolved against them. */
  datatype Defaults = Defaults(forbidden: seq<(string, string)>, preferred: seq<(string, string)>, varchi: string, pogliani: string, estate: string)

  const Legacy := Defaults(DefaultForbiddenPairs, DefaultPreferredPairs, DefaultAutistaVarchi, DefaultAutistaPogliani, DefaultVigileEsclusoEstate)

  function AssembleConfig(order: seq<string>, persone: map<string, PersonProfile>, people: seq<(string, PersonProfile)>, d: Defaults): (cfg: ProgramConfig)
    requires Distinct(order) && persone.Keys == Members(order)
    ensures cfg.autisti == cfg.vigili
    ensures SortedStrings(cfg.autisti) && Distinct(cfg.autisti)
    ensures forall n :: n in cfg.autisti <==> n in order
    ensures cfg.esperienzaVigili.Keys == cfg.weeklyCap.Keys == persone.Keys
    ensures forall n :: n in persone ==> cfg.esperienzaVigili[n] == persone[n].livello && cfg.weeklyCap[n] == persone[n].weeklyCap
    ensures cfg.coppieVietate == ResolvedForbidden(d.forbidden, cfg.vigili, people)
    ensures cfg.coppiePreferite == ResolvedPreferred(d.preferred, cfg.autisti, cfg.vigili, people)
    ensures cfg.autistaVarchi == MatchPersonIdentifier(Some(d.varchi), cfg.autisti, people)
    ensures cfg.autistaPogliani == MatchPersonIdentifier(Some(d.pogliani), cfg.autisti, people)
    ensures cfg.vigileEsclusoEstate == MatchPersonIdentifier(Some(d.estate), cfg.vigili, people)
    ensures cfg.minEsperti == DefaultMinEsperti && cfg.ferie == map[] && cfg.activeWeekdays == DefaultActiveWeekdays
    ensures cfg.people == people && cfg.enableVarchiRule && cfg.generationRules == BuildDefaultRules()
  {
    var elenco := SortStrings(order);
    SortPreservesDistinct(order);
    SortKeepsElements(order);
    ProgramConfig(elenco, elenco,
                  map n | n in persone :: persone[n].livello,
                  map n | n in persone :: persone[n].weeklyCap,
                  ResolvedForbidden(d.forbidden, elenco, people),
                  ResolvedPreferred(d.preferred, elenco, elenco, people),
                  MatchPersonIdentifier(Some(d.varchi), elenco, people),
                  MatchPersonIdentifier(Some(d.pogliani), elenco, people),
                  MatchPersonIdentifier(Some(d.estate), elenco, people),
                  DefaultMinEsperti, map[], DefaultActiveWeekdays, people, true, BuildDefaultRules())
  }

  /** The three `_ensure_person` loops of `build_program_config_from_files`:
      drivers as AUTISTA/JUNIOR, then firefighters as VIGILE/JUNIOR, then
      seniors as VIGILE/SENIOR. Returns the profiles in dictionary order. */
  method LoadProfiles(autisti: seq<string>, vigiliJunior: seq<string>, vigiliSenior: seq<string>)
    returns (order: seq<string>, persone: map<string, PersonProfile>, people: seq<(string, PersonProfile)>)
    ensures BookValid(order, persone) && LevelsOk(persone)
    ensures persone.Keys == Members(autisti) + Members(vigiliJunior) + Members(vigiliSenior)
    ensures forall n :: n in persone ==>
      StandingOf(persone[n]) == LoadedStanding(n, Members(autisti), Members(vigiliJunior), Members(vigiliSenior))
    ensures |people| == |order| && forall i :: 0 <= i < |people| ==> people[i] == (order[i], persone[order[i]])
  {
    var book := new ProfileBook();
    ghost var b0 := (book.order, book.persone);
    LoadRoster(book, autisti, RoleAutista, true, false, LivJunior);
    ghost var b1 := (book.order, book.persone);
    ghost var k1 := book.persone.Keys;
    assert k1 == Members(autisti);
    LoadRoster(book, vigiliJunior, RoleVigile, false, true, LivJunior);
    ghost var b2 := (book.order, book.persone);
    ghost var k2 := book.persone.Keys;
    LoadRoster(book, vigiliSenior, RoleVigile, false, true, LivSenior);
    assert book.persone.Keys == k2 + Members(vigiliSenior) == k1 + Members(vigiliJunior) + Members(vigiliSenior);
    LoadedStandings(b0, b1, b2, (book.order, book.persone), autisti, vigiliJunior, vigiliSenior);
    order, persone, people := book.order, book.persone, book.Items();
  }

  /** The standings after the three roster loops, for every name. */
  lemma LoadedStandings(b0: (seq<string>, map<string, PersonProfile>), b1: (seq<string>, map<string, PersonProfile>),
                        b2: (seq<string>, map<string, PersonProfile>), b3: (seq<string>, map<string, PersonProfile>),
                        autisti: seq<string>, vigiliJunior: seq<string>, vigiliSenior: seq<string>)
    requires b0.1 == map[]
    requires b1 == AfterRoster(b0, autisti, RoleAutista, true, false, LivJunior)
    requires b2 == AfterRoster(b1, vigiliJunior, RoleVigile, false, true, LivJunior)
    requires b3 == AfterRoster(b2, vigiliSenior, RoleVigile, false, true, LivSenior)
    ensures forall n :: n in b3.1 ==> StandingOf(b3.1[n]) == LoadedStanding(n, Members(autisti), Members(vigiliJunior), Members(vigiliSenior))
  {
    forall n | n in b3.1
      ensures StandingOf(b3.1[n]) == LoadedStanding(n, Members(autisti), Members(vigiliJunior), Members(vigiliSenior))
    {
      LoadedStandingOf(b0, b1, b2, b3, autisti, vigiliJunior, vigiliSenior, n);
    }
  }

  /** The three roster loops, name by name: the standing of a name after
      them is `LoadedStanding`. */
  lemma LoadedStandingOf(b0: (seq<string>, map<string, PersonProfile>), b1: (seq<string>, map<string, PersonProfile>),
                         b2: (seq<string>, map<string, PersonProfile>), b3: (seq<string>, map<string, PersonProfile>),
                         autisti: seq<string>, vigiliJunior: seq<string>, vigiliSenior: seq<string>, n: string)
    requires b0.1 == map[]
    requires b1 == AfterRoster(b0, autisti, RoleAutista, true, false, LivJunior)
    requires b2 == AfterRoster(b1, vigiliJunior, RoleVigile, false, true, LivJunior)
    requires b3 == AfterRoster(b2, vigiliSenior, RoleVigile, false, true, LivSenior)
    requires n in b3.1
    ensures StandingOf(b3.1[n]) == LoadedStanding(n, Members(autisti), Members(vigiliJunior), Members(vigiliSenior))
  {
    RosterStanding(b0, autisti, RoleAutista, true, false, LivJunior, n);
    RosterStanding(b1, vigiliJunior, RoleVigile, false, true, LivJunior, n);
    RosterStanding(b2, vigiliSenior, RoleVigile, false, true, LivSenior, n);
    if n in vigiliSenior {
      assert StandingOf(b3.1[n]).livello == LivSenior;
    } else if n in vigiliJunior {
      assert StandingOf(b3.1[n]) == StandingOf(b2.1[n]);
    } else {
      assert StandingOf(b3.1[n]) == StandingOf(b2.1[n]) == StandingOf(b1.1[n]);
    }
  }

  /** `build_program_config_from_files`, given the lines of the drivers' file,
      of the firefighters' file and, when it exists, of the seniors' file. */
  method BuildProgramConfigFromFiles(autistiLines: seq<string>, vigiliLines: seq<string>, seniorLines: Option<seq<string>>)
    returns (cfg: ProgramConfig)
    ensures Members(cfg.autisti) ==
      Members(KeptNames(autistiLines)) + Members(KeptNames(vigiliLines))
      + (if seniorLines.Some? then Members(KeptNames(seniorLines.value)) else {})
    ensures forall n :: n in cfg.weeklyCap ==> cfg.weeklyCap[n] == DefaultWeeklyCap
    ensures forall n :: n in cfg.esperienzaVigili ==> IsLevel(cfg.esperienzaVigili[n])
    ensures forall n :: n in cfg.esperienzaVigili ==>
      (cfg.esperienzaVigili[n] == LivSenior <==> seniorLines.Some? && n in Members(KeptNames(seniorLines.value)))
    ensures forall i :: 0 <= i < |cfg.people| ==>
      StandingOf(cfg.people[i].1) == LoadedStanding(cfg.people[i].0, Members(KeptNames(autistiLines)), Members(KeptNames(vigiliLines)),
                                                     if seniorLines.Some? then Members(KeptNames(seniorLines.value)) else {})
    ensures cfg.autisti == cfg.vigili && SortedStrings(cfg.autisti) && Distinct(cfg.autisti)
    ensures cfg.esperienzaVigili.Keys == cfg.weeklyCap.Keys == Members(cfg.autisti)
    ensures cfg.coppieVietate == ResolvedForbidden(Legacy.forbidden, cfg.vigili, cfg.people)
    ensures cfg.coppiePreferite == ResolvedPreferred(Legacy.preferred, cfg.autisti, cfg.vigili, cfg.people)
    ensures cfg.autistaVarchi == MatchPersonIdentifier(Some(Legacy.varchi), cfg.autisti, cfg.people)
    ensures cfg.autistaPogliani == MatchPersonIdentifier(Some(Legacy.pogliani), cfg.autisti, cfg.people)
    ensures cfg.vigileEsclusoEstate == MatchPersonIdentifier(Some(Legacy.estate), cfg.vigili, cfg.people)
    ensures cfg.minEsperti == DefaultMinEsperti && cfg.ferie == map[] && cfg.activeWeekdays == DefaultActiveWeekdays
    ensures cfg.enableVarchiRule && cfg.generationRules == BuildDefaultRules()
  {
    var autisti := CaricaNomi(autistiLines);
    var vigiliJunior := CaricaNomi(vigiliLines);
    NamesOfFile(autistiLines, autisti);
    NamesOfFile(vigiliLines, vigiliJunior);
    var vigiliSenior: seq<string> := [];
    ghost var seniors: set<string> := {};
    if seniorLines.Some? {
      vigiliSenior := CaricaNomi(seniorLines.value);
      NamesOfFile(seniorLines.value, vigiliSenior);
      seniors := Members(KeptNames(seniorLines.value));
    }
    assert Members(vigiliSenior) == seniors;
    var order, persone, people := LoadProfiles(autisti, vigiliJunior, vigiliSenior);
    cfg := AssembleConfig(order, persone, people, Legacy);
    SameMembers(cfg.autisti, order);
    LoadedLevels(order, persone, cfg, Members(autisti), Members(vigiliJunior), seniors);
  }

  /** The levels and the people of the assembled configuration carry the
      standings the roster loops gave: SENIOR exactly for the seniors. */
  lemma LoadedLevels(order: seq<string>, persone: map<string, PersonProfile>, cfg: ProgramConfig, a: set<string>, j: set<string>, s: set<string>)
    requires persone.Keys == Members(order)
    requires forall n :: n in persone ==> StandingOf(persone[n]) == LoadedStanding(n, a, j, s)
    requires |cfg.people| == |order| && forall i :: 0 <= i < |cfg.people| ==> cfg.people[i] == (order[i], persone[order[i]])
    requires cfg.esperienzaVigili.Keys == persone.Keys && forall n :: n in persone ==> cfg.esperienzaVigili[n] == persone[n].livello
    ensures forall n :: n in cfg.esperienzaVigili ==> (cfg.esperienzaVigili[n] == LivSenior <==> n in s)
    ensures forall i :: 0 <= i < |cfg.people| ==> StandingOf(cfg.people[i].1) == LoadedStanding(cfg.people[i].0, a, j, s)
  {
    forall i | 0 <= i < |cfg.people|
      ensures StandingOf(cfg.people[i].1) == LoadedStanding(cfg.people[i].0, a, j, s)
    {
      assert order[i] in Members(order);
    }
  }

  predicate IsLevel(livello: string) {
    livello == LivJunior || livello == LivSenior
  }

  predicate LevelsOk(persone: map<string, PersonProfile>) {
    forall n :: n in persone ==> persone[n].weeklyCap == DefaultWeeklyCap && IsLevel(persone[n].livello)
  }

  /** `_ensure_person` called with a JUNIOR or SENIOR level keeps every
      profile at the default cap and at one of the two levels. */
  lemma LevelsKept(before: map<string, PersonProfile>, count: nat, n: string, ruolo: string, grado: string,
                   autista: bool, vigile: bool, livello: string)
    requires LevelsOk(before) && IsLevel(livello)
    ensures n !in before ==> LevelsOk(before[n := NewProfile(count, n, ruolo, grado, autista, vigile, livello)])
    ensures n in before ==> LevelsOk(before[n := UpdatedProfile(before[n], ruolo, grado, autista, vigile, livello)])
  {
  }

  /** The state of the roster loop after `i` names, started from `start`:
      the keys so far, and the rest of the loop still to give the final
      dictionary. */
  ghost predicate RosterProgress(order: seq<string>, persone: map<string, PersonProfile>, names: seq<string>, i: nat,
                                 start: (seq<string>, map<string, PersonProfile>), ruolo: string, autista: bool, vigile: bool, livello: string)
  {
    && i <= |names|
    && persone.Keys == start.1.Keys + Members(names[..i])
    && AfterRoster((order, persone), names[i..], ruolo, autista, vigile, livello) == AfterRoster(start, names, ruolo, autista, vigile, livello)
  }

  /** `for nome in names: _ensure_person(nome, ruolo, "", autista=..., vigile=..., livello=...)` */
  method LoadRoster(book: ProfileBook, names: seq<string>, ruolo: string, autista: bool, vigile: bool, livello: string)
    requires book.Valid() && LevelsOk(book.persone) && IsLevel(livello)
    modifies book
    ensures book.Valid() && LevelsOk(book.persone)
    ensures book.persone.Keys == old(book.persone.Keys) + Members(names)
    ensures (book.order, book.persone) == AfterRoster((old(book.order), old(book.persone)), names, ruolo, autista, vigile, livello)
  {
    ghost var start := (book.order, book.persone);
    var i := 0;
    while i < |names|
      invariant book.Valid() && LevelsOk(book.persone)
      invariant RosterProgress(book.order, book.persone, names, i, start, ruolo, autista, vigile, livello)
      decreases |names| - i
    {
      LoadNext(book, names, i, ruolo, autista, vigile, livello, start);
      i := i + 1;
    }
    assert names[..|names|] == names;
    assert names[|names|..] == [];
  }

  /** One turn of the roster loop. */
  method LoadNext(book: ProfileBook, names: seq<string>, i: nat, ruolo: string, autista: bool, vigile: bool, livello: string,
                  ghost start: (seq<string>, map<string, PersonProfile>))
    requires book.Valid() && LevelsOk(book.persone) && IsLevel(livello) && i < |names|
    requires RosterProgress(book.order, book.persone, names, i, start, ruolo, autista, vigile, livello)
    modifies book
    ensures book.Valid() && LevelsOk(book.persone)
    ensures RosterProgress(book.order, book.persone, names, i + 1, start, ruolo, autista, vigile, livello)
  {
    LevelsKept(book.persone, |book.order|, names[i], ruolo, "", autista, vigile, livello);
    ghost var before := (book.order, book.persone);
    book.EnsurePerson(names[i], ruolo, "", autista, vigile, livello);
    RosterProgressStep(before, (book.order, book.persone), names, i, start, ruolo, autista, vigile, livello);
  }

  lemma RosterProgressStep(before: (seq<string>, map<string, PersonProfile>), after: (seq<string>, map<string, PersonProfile>),
                           names: seq<string>, i: nat, start: (seq<string>, map<string, PersonProfile>),
                           ruolo: string, autista: bool, vigile: bool, livello: string)
    requires i < |names| && RosterProgress(before.0, before.1, names, i, start, ruolo, autista, vigile, livello)
    requires after == Ensured(before, names[i], ruolo, "", autista, vigile, livello)
    ensures RosterProgress(after.0, after.1, names, i + 1, start, ruolo, autista, vigile, livello)
  {
    SliceSnoc(names, i);
    MembersAppend(names[..i], names[i]);
    AfterRosterStep(before, names, i, ruolo, autista, vigile, livello);
  }
}
