/** Country recognition: an index built once from a country dataset, exact lookup, and bounded spelling proposals. */
module CountryRecognition {
  import opened TextOrder
  import opened Wrappers
  import opened Collections
  import opened EditDistance

  // ---------------------------------------------------------------- results

  datatype Status = Exact | ConfirmationRequired | Ambiguous | NotRecognized | InvalidInput

  datatype Match = Match(code: string, name: string, query: string, confirm: bool)

  datatype Recognition = Recognition(status: Status, matches: seq<Match>)

  predicate CountryCode(code: string) {
    |code| == 2 && 'A' <= code[0] <= 'Z' && 'A' <= code[1] <= 'Z'
  }

  predicate ValidMatch(m: Match) {
    CountryCode(m.code) && 2 <= |m.name| <= 120 && 2 <= |m.query| <= 120
  }

  predicate UniqueCodes(matches: seq<Match>) {
    forall i, j :: 0 <= i < j < |matches| ==> matches[i].code != matches[j].code
  }

  /** The rules of the result model, checked whenever one is made. */
  predicate ValidRecognition(r: Recognition) {
    && |r.matches| <= 3
    && (forall i :: 0 <= i < |r.matches| ==> ValidMatch(r.matches[i]))
    && match r.status
       case InvalidInput => r.matches == []
       case NotRecognized => r.matches == []
       case _ =>
         && (if r.status.Ambiguous? then |r.matches| >= 2 else |r.matches| == 1)
         && UniqueCodes(r.matches)
         && (forall i :: 0 <= i < |r.matches| ==> r.matches[i].confirm == !r.status.Exact?)
  }

  datatype RecognitionError = UnknownCode | InvalidResult

  // ---------------------------------------------------------------- code order

  /** Smaller distance first, then the code. */
  predicate Precedes(d: nat, a: string, e: nat, b: string) {
    d < e || (d == e && Before(a, b))
  }

  predicate Ascending(best: map<string, nat>, codes: seq<string>) {
    && (forall i :: 0 <= i < |codes| ==> codes[i] in best)
    && (forall i, j :: 0 <= i < j < |codes| ==> Precedes(best[codes[i]], codes[i], best[codes[j]], codes[j]))
  }

  /** All keys of `best` in ascending order. */
  ghost predicate Arranges(best: map<string, nat>, codes: seq<string>) {
    Ascending(best, codes) && forall c :: c in codes <==> c in best
  }

  lemma PrecedesIsStrict(d: nat, a: string, e: nat, b: string)
    requires a != b
    ensures Precedes(d, a, e, b) != Precedes(e, b, d, a)
  {
    BeforeIsTotal(a, b);
    if Before(a, b) && Before(b, a) {
      BeforeIsTransitive(a, b, a);
      BeforeIsIrreflexive(a);
    }
  }

  lemma PrecedesIsTransitive(d: nat, a: string, e: nat, b: string, f: nat, c: string)
    requires Precedes(d, a, e, b) && Precedes(e, b, f, c)
    ensures Precedes(d, a, f, c)
  {
    if d == e == f {
      BeforeIsTransitive(a, b, c);
    }
  }

  lemma AscendingHasNoRepeats(best: map<string, nat>, codes: seq<string>)
    requires Ascending(best, codes)
    ensures forall i, j :: 0 <= i < j < |codes| ==> codes[i] != codes[j]
  {
    forall i, j | 0 <= i < j < |codes| ensures codes[i] != codes[j] {
      BeforeIsIrreflexive(codes[i]);
    }
  }

  /** There is only one arrangement, so sorting has one possible outcome. */
  lemma {:induction false} ArrangementIsUnique(best: map<string, nat>, a: seq<string>, b: seq<string>)
    requires Ascending(best, a) && Ascending(best, b) && forall c :: c in a <==> c in b
    ensures a == b
    decreases |a|
  {
    assert b != [] ==> b[0] in a;
    if a != [] {
      assert a[0] in b;
      FirstIsLeast(best, a, b);
      AscendingHasNoRepeats(best, a);
      AscendingHasNoRepeats(best, b);
      forall c ensures c in a[1..] <==> c in b[1..] {
        InRest(a, c);
        InRest(b, c);
      }
      ArrangementIsUnique(best, a[1..], b[1..]);
      assert a == [a[0]] + a[1..] && b == [b[0]] + b[1..];
    }
  }

  lemma InRest(s: seq<string>, c: string)
    requires s != [] && forall i, j :: 0 <= i < j < |s| ==> s[i] != s[j]
    ensures c in s[1..] <==> c in s && c != s[0]
  {
    assert s == [s[0]] + s[1..];
  }

  lemma FirstIsLeast(best: map<string, nat>, a: seq<string>, b: seq<string>)
    requires Ascending(best, a) && Ascending(best, b) && a != [] && b != [] && a[0] in b && b[0] in a
    ensures a[0] == b[0]
  {
    var i :| 0 <= i < |b| && b[i] == a[0];
    var j :| 0 <= j < |a| && a[j] == b[0];
    if a[0] != b[0] {
      PrecedesIsStrict(best[a[0]], a[0], best[b[0]], b[0]);
    }
  }

  /** Sorting the keys of a dictionary by distance and code. */
  method SortCodes(best: map<string, nat>) returns (codes: seq<string>)
    ensures Arranges(best, codes)
  {
    codes := [];
    var remaining := best.Keys;
    while remaining != {}
      invariant remaining <= best.Keys
      invariant Ascending(best, codes)
      invariant forall c :: c in codes <==> c in best && c !in remaining
      decreases |remaining|
    {
      var c :| c in remaining;
      codes := InsertCode(best, c, codes);
      remaining := remaining - {c};
    }
  }

  method InsertCode(best: map<string, nat>, c: string, codes: seq<string>) returns (r: seq<string>)
    requires Ascending(best, codes) && c in best && c !in codes
    ensures Ascending(best, r)
    ensures forall x :: x in r <==> x in codes || x == c
  {
    var i := 0;
    while i < |codes| && Precedes(best[codes[i]], codes[i], best[c], c)
      invariant 0 <= i <= |codes|
      invariant forall k :: 0 <= k < i ==> Precedes(best[codes[k]], codes[k], best[c], c)
    {
      i := i + 1;
    }
    r := codes[..i] + [c] + codes[i..];
    forall k | i <= k < |codes| ensures Precedes(best[c], c, best[codes[k]], codes[k]) {
      PrecedesIsStrict(best[c], c, best[codes[i]], codes[i]);
      if k > i {
        PrecedesIsTransitive(best[c], c, best[codes[i]], codes[i], best[codes[k]], codes[k]);
      }
    }
    assert codes == codes[..i] + codes[i..];
  }

  // ---------------------------------------------------------------- the index

  datatype Record = Record(alpha2: string, alpha3: string, name: string, official: Option<string>,
                           common: Option<string>)

  /** Names long enough to be misspelled carry the codes they stand for. */
  datatype Index = Index(countries: map<string, string>, exact: map<string, set<string>>,
                         names: map<string, set<string>>)

  const ALIASES: seq<(string, string)> := [
    ("UK", "GB"), ("U.K.", "GB"), ("Great Britain", "GB"), ("USA", "US"), ("U.S.A.", "US"),
    ("United States of America", "US"),
    ("UAE", "AE"), ("Turkey", "TR"), ("T\U{FC}rkiye", "TR"), ("South Korea", "KR"), ("North Korea", "KP"),
    ("Russia", "RU"),
    ("Vietnam", "VN"), ("Laos", "LA"), ("Bolivia", "BO"), ("Venezuela", "VE"), ("Iran", "IR"), ("Tanzania", "TZ"),
    ("Syria", "SY"), ("Moldova", "MD")]

  type Normalizer = string -> string

  /** A name, and the code it stands for. */
  type Entry = (string, string)

  function FieldsOf(r: Record): seq<Entry> {
    [(r.name, r.alpha2)]
    + (if r.official.Some? then [(r.official.value, r.alpha2)] else [])
    + (if r.common.Some? then [(r.common.value, r.alpha2)] else [])
  }

  function AllFields(records: seq<Record>): seq<Entry> {
    if records == [] then [] else AllFields(records[..|records| - 1]) + FieldsOf(records[|records| - 1])
  }

  function Shortcuts(records: seq<Record>): seq<Entry> {
    if records == [] then []
    else
      var last := records[|records| - 1];
      Shortcuts(records[..|records| - 1]) + [(last.alpha2, last.alpha2), (last.alpha3, last.alpha2)]
  }

  /** The codes some entry gives a normalized name. */
  function CodesOf(norm: Normalizer, entries: seq<Entry>, key: string): set<string> {
    set i | 0 <= i < |entries| && norm(entries[i].0) == key :: entries[i].1
  }

  /** `names` maps exactly the non-empty normalized names of the entries to all their codes. */
  ghost predicate Collects(norm: Normalizer, entries: seq<Entry>, names: map<string, set<string>>) {
    && (forall k :: k in names <==> k != "" && CodesOf(norm, entries, k) != {})
    && (forall k :: k in names ==> names[k] == CodesOf(norm, entries, k))
  }

  lemma CodesOfMore(norm: Normalizer, entries: seq<Entry>, e: Entry, key: string)
    ensures CodesOf(norm, entries + [e], key) == CodesOf(norm, entries, key) + if norm(e.0) == key then {e.1} else {}
  {
    var more := entries + [e];
    forall c ensures c in CodesOf(norm, more, key)
      <==> c in CodesOf(norm, entries, key) || (norm(e.0) == key && c == e.1) {
      if c in CodesOf(norm, entries, key) {
        var i :| 0 <= i < |entries| && norm(entries[i].0) == key && c == entries[i].1;
        assert more[i] == entries[i];
      }
      if norm(e.0) == key && c == e.1 {
        assert more[|entries|] == e;
      }
    }
  }

  method AddName(norm: Normalizer, ghost entries: seq<Entry>, names: map<string, set<string>>, e: Entry)
    returns (r: map<string, set<string>>)
    requires Collects(norm, entries, names)
    ensures Collects(norm, entries + [e], r)
  {
    var key := norm(e.0);
    r := names;
    if key != "" {
      r := names[key := (if key in names then names[key] else {}) + {e.1}];
    }
    forall k ensures CodesOf(norm, entries + [e], k) == CodesOf(norm, entries, k) + if norm(e.0) == k then {e.1}
      else {} {
      CodesOfMore(norm, entries, e, k);
    }
  }

  ghost function CollectedNames(norm: Normalizer, entries: seq<Entry>): map<string, set<string>> {
    map k | k in (set i | 0 <= i < |entries| :: norm(entries[i].0)) && k != "" :: CodesOf(norm, entries, k)
  }

  lemma CollectedNamesCollect(norm: Normalizer, entries: seq<Entry>)
    ensures Collects(norm, entries, CollectedNames(norm, entries))
  {
    var names := CollectedNames(norm, entries);
    forall k ensures k in names <==> k != "" && CodesOf(norm, entries, k) != {} {
      if CodesOf(norm, entries, k) != {} {
        var c :| c in CodesOf(norm, entries, k);
      }
      if k in names {
        var i :| 0 <= i < |entries| && norm(entries[i].0) == k;
        assert entries[i].1 in CodesOf(norm, entries, k);
      }
    }
  }

  lemma CollectionIsUnique(norm: Normalizer, entries: seq<Entry>, a: map<string, set<string>>,
                           b: map<string, set<string>>)
    requires Collects(norm, entries, a) && Collects(norm, entries, b)
    ensures a == b
  {
  }

  /** Two short names stand for two countries each, whatever the dataset says. */
  function WithSharedNames(norm: Normalizer, names: map<string, set<string>>): map<string, set<string>> {
    names[norm("Congo") := {"CG", "CD"}][norm("Korea") := {"KR", "KP"}]
  }

  /** Assigning one code to each normalized shortcut, in order. */
  function Overridden(norm: Normalizer, exact: map<string, set<string>>,
                      shortcuts: seq<Entry>): map<string, set<string>> {
    if shortcuts == [] then exact
    else
      var last := shortcuts[|shortcuts| - 1];
      Overridden(norm, exact, shortcuts[..|shortcuts| - 1])[norm(last.0) := {last.1}]
  }

  function Countries(records: seq<Record>): map<string, string> {
    if records == [] then map[]
    else var last := records[|records| - 1]; Countries(records[..|records| - 1])[last.alpha2 := last.name]
  }

  function Codes(records: seq<Record>): set<string> {
    set i | 0 <= i < |records| :: records[i].alpha2
  }

  lemma {:induction false} CountriesAreTheCodes(records: seq<Record>)
    ensures Countries(records).Keys == Codes(records)
    ensures forall c :: c in Countries(records) ==>
              exists i :: 0 <= i < |records| && records[i].alpha2 == c && records[i].name == Countries(records)[c]
  {
    if records != [] {
      var front, last := records[..|records| - 1], records[|records| - 1];
      CountriesAreTheCodes(front);
      forall c ensures c in Codes(records) <==> c in Codes(front) || c == last.alpha2 {
        if c in Codes(front) {
          var i :| 0 <= i < |front| && front[i].alpha2 == c;
          assert records[i].alpha2 == c;
        }
      }
      forall c | c in Countries(records)
        ensures exists i :: 0 <= i < |records| && records[i].alpha2 == c && records[i].name == Countries(records)[c]
      {
        if c == last.alpha2 {
          assert records[|records| - 1].name == Countries(records)[c];
        } else {
          var i :| 0 <= i < |front| && front[i].alpha2 == c && front[i].name == Countries(front)[c];
          assert records[i] == front[i];
        }
      }
    }
  }

  ghost predicate NoShortcut(norm: Normalizer, shortcuts: seq<Entry>, from: nat, key: string) {
    forall j :: from <= j < |shortcuts| ==> norm(shortcuts[j].0) != key
  }

  /** The last shortcut spelled like a name decides what it stands for. */
  lemma {:induction false} LastShortcutDecides(norm: Normalizer, exact: map<string, set<string>>,
                                               shortcuts: seq<Entry>, i: nat)
    requires i < |shortcuts| && NoShortcut(norm, shortcuts, i + 1, norm(shortcuts[i].0))
    ensures var key := norm(shortcuts[i].0); var r := Overridden(norm, exact, shortcuts);
            key in r && r[key] == {shortcuts[i].1}
  {
    var n := |shortcuts| - 1;
    if i < n {
      assert norm(shortcuts[n].0) != norm(shortcuts[i].0);
      assert forall j :: i + 1 <= j < n ==> shortcuts[..n][j] == shortcuts[j];
      LastShortcutDecides(norm, exact, shortcuts[..n], i);
    }
  }

  lemma {:induction false} OtherNamesKeepTheirCodes(norm: Normalizer, exact: map<string, set<string>>,
                                                    shortcuts: seq<Entry>, key: string)
    requires NoShortcut(norm, shortcuts, 0, key)
    ensures var r := Overridden(norm, exact, shortcuts);
            (key in r <==> key in exact) && (key in exact ==> r[key] == exact[key])
  {
    if shortcuts != [] {
      var n := |shortcuts| - 1;
      assert norm(shortcuts[n].0) != key;
      assert forall j :: 0 <= j < n ==> shortcuts[..n][j] == shortcuts[j];
      OtherNamesKeepTheirCodes(norm, exact, shortcuts[..n], key);
    }
  }

  /** Each record adds its two-letter and then its three-letter code. */
  lemma {:induction false} ShortcutsAre(records: seq<Record>, i: nat)
    requires i < |records|
    ensures |Shortcuts(records)| == 2 * |records|
    ensures Shortcuts(records)[2 * i] == (records[i].alpha2, records[i].alpha2)
    ensures Shortcuts(records)[2 * i + 1] == (records[i].alpha3, records[i].alpha2)
  {
    var n := |records| - 1;
    if n > 0 {
      ShortcutsAre(records[..n], if i < n then i else 0);
    } else {
      assert records[..n] == [];
    }
  }

  /** No later code is spelled like this one. */
  predicate NoLaterCode(norm: Normalizer, records: seq<Record>, from: nat, key: string) {
    forall j :: from <= j < |records| ==> norm(records[j].alpha2) != key && norm(records[j].alpha3) != key
  }

  /** A country's codes stand for that country alone, whatever names are spelled like them. */
  lemma CodesStandForTheirCountry(norm: Normalizer, exact: map<string, set<string>>, records: seq<Record>, i: nat)
    requires i < |records| && norm(records[i].alpha2) != norm(records[i].alpha3)
    ensures var r, found := records[i], Overridden(norm, exact, Shortcuts(records));
            && (NoLaterCode(norm, records, i + 1, norm(r.alpha2)) ==>
                  norm(r.alpha2) in found && found[norm(r.alpha2)] == {r.alpha2})
            && (NoLaterCode(norm, records, i + 1, norm(r.alpha3)) ==>
                  norm(r.alpha3) in found && found[norm(r.alpha3)] == {r.alpha2})
  {
    var r := records[i];
    ShortcutsAre(records, i);
    if NoLaterCode(norm, records, i + 1, norm(r.alpha2)) {
      NoLaterShortcut(norm, records, i + 1, norm(r.alpha2));
      LastShortcutDecides(norm, exact, Shortcuts(records), 2 * i);
    }
    if NoLaterCode(norm, records, i + 1, norm(r.alpha3)) {
      NoLaterShortcut(norm, records, i + 1, norm(r.alpha3));
      LastShortcutDecides(norm, exact, Shortcuts(records), 2 * i + 1);
    }
  }

  lemma NoLaterShortcut(norm: Normalizer, records: seq<Record>, from: nat, key: string)
    requires from <= |records| && NoLaterCode(norm, records, from, key) && |Shortcuts(records)| == 2 * |records|
    ensures NoShortcut(norm, Shortcuts(records), 2 * from, key)
  {
    forall j | 2 * from <= j < |Shortcuts(records)| ensures norm(Shortcuts(records)[j].0) != key {
      ShortcutsAre(records, j / 2);
    }
  }

  /** Aliases that name a country the dataset lacks stop the service from starting. */
  predicate AliasesKnown(records: seq<Record>) {
    CodesIn(ALIASES) <= Codes(records)
  }

  function CodesIn(entries: seq<Entry>): set<string> {
    set i | 0 <= i < |entries| :: entries[i].1
  }

  /** Both countries that the name Congo alone may stand for. */
  predicate HasBothCongos(records: seq<Record>) {
    "CG" in Codes(records) && "CD" in Codes(records)
  }

  ghost function BuiltIndex(norm: Normalizer, records: seq<Record>): Index {
    var names := WithSharedNames(norm, CollectedNames(norm, AllFields(records) + ALIASES));
    Index(Countries(records), Overridden(norm, names, Shortcuts(records)), map k | k in names && |k| >= 4 :: names[k])
  }

  method BuildIndex(norm: Normalizer, records: seq<Record>) returns (r: Result<Index, string>)
    ensures r.Success? <==> AliasesKnown(records)
    ensures r.Success? ==> r.value == BuiltIndex(norm, records)
  {
    var countries: map<string, string> := map[];
    var names: map<string, set<string>> := map[];
    for i := 0 to |records|
      invariant countries == Countries(records[..i])
      invariant Collects(norm, AllFields(records[..i]), names)
    {
      assert records[..i + 1][..i] == records[..i];
      countries := countries[records[i].alpha2 := records[i].name];
      names := AddFields(norm, AllFields(records[..i]), names, FieldsOf(records[i]));
    }
    assert records[..|records|] == records;
    CountriesAreTheCodes(records);
    var added := AddAliases(norm, countries, AllFields(records), names, ALIASES);
    if added.Failure? {
      return Failure(added.error);
    }
    ghost var entries := AllFields(records) + ALIASES;
    CollectedNamesCollect(norm, entries);
    CollectionIsUnique(norm, entries, added.value, CollectedNames(norm, entries));
    names := WithSharedNames(norm, added.value);
    var exact := AssignShortcuts(norm, records, names);
    r := Success(Index(countries, exact, map k | k in names && |k| >= 4 :: names[k]));
  }

  method AddAliases(norm: Normalizer, countries: map<string, string>, ghost entries: seq<Entry>,
                    names: map<string, set<string>>,
                    aliases: seq<Entry>) returns (r: Result<map<string, set<string>>, string>)
    requires Collects(norm, entries, names)
    ensures r.Success? <==> CodesIn(aliases) <= countries.Keys
    ensures r.Success? ==> Collects(norm, entries + aliases, r.value)
  {
    var grown := names;
    assert entries + aliases[..0] == entries;
    for i := 0 to |aliases|
      invariant forall k :: 0 <= k < i ==> aliases[k].1 in countries
      invariant Collects(norm, entries + aliases[..i], grown)
    {
      if aliases[i].1 !in countries {
        assert aliases[i].1 in CodesIn(aliases);
        return Failure(aliases[i].1);
      }
      grown := AddName(norm, entries + aliases[..i], grown, aliases[i]);
      assert entries + aliases[..i + 1] == entries + aliases[..i] + [aliases[i]];
    }
    assert aliases[..|aliases|] == aliases;
    r := Success(grown);
  }

  method AddFields(norm: Normalizer, ghost entries: seq<Entry>, names: map<string, set<string>>, fields: seq<Entry>)
    returns (r: map<string, set<string>>)
    requires Collects(norm, entries, names)
    ensures Collects(norm, entries + fields, r)
  {
    r := names;
    assert entries + fields[..0] == entries;
    for i := 0 to |fields|
      invariant Collects(norm, entries + fields[..i], r)
    {
      r := AddName(norm, entries + fields[..i], r, fields[i]);
      assert entries + fields[..i + 1] == entries + fields[..i] + [fields[i]];
    }
    assert fields[..|fields|] == fields;
  }

  lemma TwoMoreShortcuts(norm: Normalizer, exact: map<string, set<string>>, records: seq<Record>, i: nat)
    requires i < |records|
    ensures var r := records[i];
            Overridden(norm, exact, Shortcuts(records[..i + 1]))
            == Overridden(norm, exact, Shortcuts(records[..i]))[
                 norm(r.alpha2) := {r.alpha2}][norm(r.alpha3) := {r.alpha2}]
  {
    var before, r := Shortcuts(records[..i]), records[i];
    assert records[..i + 1][..i] == records[..i];
    var one := before + [(r.alpha2, r.alpha2)];
    var two := one + [(r.alpha3, r.alpha2)];
    assert one[..|before|] == before && two[..|one|] == one && Shortcuts(records[..i + 1]) == two;
  }

  method AssignShortcuts(norm: Normalizer, records: seq<Record>, names: map<string, set<string>>)
    returns (exact: map<string, set<string>>)
    ensures exact == Overridden(norm, names, Shortcuts(records))
  {
    exact := names;
    for i := 0 to |records|
      invariant exact == Overridden(norm, names, Shortcuts(records[..i]))
    {
      TwoMoreShortcuts(norm, names, records, i);
      exact := exact[norm(records[i].alpha2) := {records[i].alpha2}];
      exact := exact[norm(records[i].alpha3) := {records[i].alpha2}];
    }
    assert records[..|records|] == records;
  }

  // ---------------------------------------------------------------- making a result

  /** One match per code, or the first failure met on the way. */
  function MatchesOf(index: Index, query: string, codes: seq<string>,
                     confirm: bool): Result<seq<Match>, RecognitionError> {
    if codes == [] then Success([])
    else if codes[0] !in index.countries then Failure(UnknownCode)
    else
      var m := Match(codes[0], index.countries[codes[0]], query, confirm);
      if !ValidMatch(m) then Failure(InvalidResult)
      else
        match MatchesOf(index, query, codes[1..], confirm)
        case Failure(e) => Failure(e)
        case Success(rest) => Success([m] + rest)
  }

  function ResultOf(index: Index, query: string, codes: seq<string>,
                    corrected: bool): Result<Recognition, RecognitionError> {
    var ambiguous := |codes| > 1;
    var status := if ambiguous then Ambiguous else if corrected then ConfirmationRequired else Exact;
    match MatchesOf(index, query, codes, corrected || ambiguous)
    case Failure(e) => Failure(e)
    case Success(matches) =>
      if ValidRecognition(Recognition(status, matches)) then Success(Recognition(status, matches))
        else Failure(InvalidResult)
  }

  /** Known codes with valid records behind them. */
  ghost predicate Resolvable(index: Index, codes: set<string>) {
    forall c :: c in codes ==> c in index.countries && CountryCode(c) && 2 <= |index.countries[c]| <= 120
  }

  lemma {:induction false} MatchesAreMade(index: Index, query: string, codes: seq<string>, confirm: bool)
    requires 2 <= |query| <= 120 && Resolvable(index, set c | c in codes)
    ensures var r := MatchesOf(index, query, codes, confirm);
            && r.Success? && |r.value| == |codes|
            && forall i :: 0 <= i < |codes| ==>
                 ValidMatch(r.value[i]) && r.value[i].code == codes[i] && r.value[i].confirm == confirm
  {
    if codes != [] {
      MatchesAreMade(index, query, codes[1..], confirm);
    }
  }

  lemma {:induction false} MatchesTell(index: Index, query: string, codes: seq<string>, confirm: bool)
    ensures var r := MatchesOf(index, query, codes, confirm);
            r.Success? ==>
              && |r.value| == |codes|
              && forall i :: 0 <= i < |codes| ==>
                   codes[i] in index.countries
                     && r.value[i] == Match(codes[i], index.countries[codes[i]], query, confirm)
  {
    if codes != [] {
      MatchesTell(index, query, codes[1..], confirm);
    }
  }

  /**
   A result lists the codes in order under their names; one uncorrected code is exact, one corrected code asks, several
   are ambiguous.
   */
  lemma ResultTells(index: Index, query: string, codes: seq<string>, corrected: bool)
    ensures var r := ResultOf(index, query, codes, corrected);
            r.Success? ==>
              && r.value.status == (if |codes| > 1 then Ambiguous else if corrected then ConfirmationRequired
                 else Exact)
              && |r.value.matches| == |codes|
              && forall i :: 0 <= i < |codes| ==>
                   codes[i] in index.countries
                   && r.value.matches[i] == Match(codes[i], index.countries[codes[i]], query, !r.value.status.Exact?)
  {
    MatchesTell(index, query, codes, corrected || |codes| > 1);
  }

  /** With codes the dataset knows, the result is valid exactly when there are one to three of them. */
  lemma ResultIsValidIff(index: Index, query: string, codes: seq<string>, corrected: bool)
    requires 2 <= |query| <= 120 && Resolvable(index, set c | c in codes)
    requires forall i, j :: 0 <= i < j < |codes| ==> codes[i] != codes[j]
    ensures ResultOf(index, query, codes, corrected).Success? <==> 1 <= |codes| <= 3
  {
    MatchesAreMade(index, query, codes, corrected || |codes| > 1);
  }

  // ---------------------------------------------------------------- spelling proposals

  /** One edit for shorter names, two for longer. */
  function Bound(normalized: string): nat {
    if |normalized| < 8 then 1 else 2
  }

  function Max(m: nat, n: nat): nat {
    if m < n then n else m
  }

  predicate Similar(distance: nat, normalized: string, name: string)
    requires normalized != ""
  {
    1.0 - distance as real / Max(|normalized|, |name|) as real >= 0.8
  }

  ghost predicate Close(normalized: string, name: string)
    requires normalized != ""
  {
    Distance(normalized, name) <= Bound(normalized) && Similar(Distance(normalized, name), normalized, name)
  }

  ghost predicate Offers(index: Index, normalized: string, name: string, code: string)
    requires normalized != ""
  {
    name in index.names && code in index.names[name] && Close(normalized, name)
  }

  /** `best` gives each offered code the least distance of a name in `names` that offers it. */
  ghost predicate BestAmong(index: Index, normalized: string, names: set<string>, best: map<string, nat>)
    requires normalized != ""
  {
    && (forall c :: c in best <==> exists n :: n in names && Offers(index, normalized, n, c))
    && (forall c :: c in best ==>
         exists n :: n in names && Offers(index, normalized, n, c) && Distance(normalized, n) == best[c])
    && (forall c, n :: c in best && n in names && Offers(index, normalized, n, c) ==>
         best[c] <= Distance(normalized, n))
  }

  function FirstThree(codes: seq<string>): seq<string> {
    if |codes| <= 3 then codes else codes[..3]
  }

  /** The direct definition of the codes proposed for a text that is not a known name. */
  ghost predicate Proposes(index: Index, normalized: string, codes: seq<string>)
    requires normalized != ""
  {
    exists best, all :: BestAmong(index, normalized, index.names.Keys, best) && Arranges(best, all)
      && codes == FirstThree(all)
  }

  lemma BestIsUnique(index: Index, normalized: string, names: set<string>, a: map<string, nat>, b: map<string, nat>)
    requires normalized != "" && BestAmong(index, normalized, names, a) && BestAmong(index, normalized, names, b)
    ensures a == b
  {
    assert a.Keys == b.Keys;
    forall c | c in a ensures a[c] == b[c] {
      var n :| n in names && Offers(index, normalized, n, c) && Distance(normalized, n) == a[c];
      var m :| m in names && Offers(index, normalized, m, c) && Distance(normalized, m) == b[c];
    }
  }

  lemma ProposalIsUnique(index: Index, normalized: string, a: seq<string>, b: seq<string>)
    requires normalized != "" && Proposes(index, normalized, a) && Proposes(index, normalized, b)
    ensures a == b
  {
    var best, all :| BestAmong(index, normalized, index.names.Keys, best) && Arranges(best, all)
      && a == FirstThree(all);
    var best', all' :| BestAmong(index, normalized, index.names.Keys, best') && Arranges(best', all')
      && b == FirstThree(all');
    BestIsUnique(index, normalized, index.names.Keys, best, best');
    ArrangementIsUnique(best, all, all');
  }

  /** The library call: the distance, or one more than the cutoff once it is known to be larger. */
  type Measure = (string, string, nat) -> nat

  ghost predicate Measures(measure: Measure) {
    forall s, t, cutoff: nat :: measure(s, t, cutoff) == if Distance(s, t) <= cutoff then Distance(s, t) else cutoff + 1
  }

  /** Some function keeps that contract. */
  lemma MeasureExists() returns (measure: Measure)
    ensures Measures(measure)
  {
    measure := (s: string, t: string, cutoff: nat) => CutOff(s, t, cutoff);
  }

  ghost function CutOff(s: string, t: string, cutoff: nat): nat {
    if Distance(s, t) <= cutoff then Distance(s, t) else cutoff + 1
  }

  function Improved(best: map<string, nat>, codes: set<string>, distance: nat): map<string, nat> {
    map c | c in best.Keys + codes :: if c in best && (c !in codes || best[c] <= distance) then best[c] else distance
  }

  method Improve(best: map<string, nat>, codes: set<string>, distance: nat) returns (r: map<string, nat>)
    ensures r == Improved(best, codes, distance)
  {
    r := best;
    var remaining := codes;
    while remaining != {}
      invariant remaining <= codes
      invariant r == Improved(best, codes - remaining, distance)
      decreases |remaining|
    {
      var c :| c in remaining;
      if c !in r || distance < r[c] {
        r := r[c := distance];
      }
      remaining := remaining - {c};
    }
    assert codes - {} == codes;
  }

  lemma SkippedNameOffersNothing(index: Index, normalized: string, done: set<string>, name: string,
                                 best: map<string, nat>)
    requires normalized != "" && BestAmong(index, normalized, done, best) && !Close(normalized, name)
    ensures BestAmong(index, normalized, done + {name}, best)
  {
    forall c ensures c in best <==> exists n :: n in done + {name} && Offers(index, normalized, n, c) {
      if c in best {
        var n :| n in done && Offers(index, normalized, n, c);
        assert n in done + {name};
      }
    }
    forall c | c in best
      ensures exists n :: n in done + {name} && Offers(index, normalized, n, c) && Distance(normalized, n) == best[c]
    {
      var n :| n in done && Offers(index, normalized, n, c) && Distance(normalized, n) == best[c];
      assert n in done + {name};
    }
  }

  lemma CloseNameImproves(index: Index, normalized: string, done: set<string>, name: string, best: map<string, nat>)
    requires normalized != "" && BestAmong(index, normalized, done, best) && Close(normalized, name)
             && name in index.names
    ensures BestAmong(index, normalized, done + {name}, Improved(best, index.names[name], Distance(normalized, name)))
  {
    var more, distance, codes := done + {name}, Distance(normalized, name), index.names[name];
    var r := Improved(best, codes, distance);
    forall c | c in r
      ensures exists n :: n in more && Offers(index, normalized, n, c) && Distance(normalized, n) == r[c]
    {
      if c in best && r[c] == best[c] {
        var n :| n in done && Offers(index, normalized, n, c) && Distance(normalized, n) == best[c];
        assert n in more;
      } else {
        assert name in more && Offers(index, normalized, name, c);
      }
    }
    forall c, n | n in more && Offers(index, normalized, n, c) ensures c in r && r[c] <= Distance(normalized, n) {
      if n in done {
        assert c in best && best[c] <= Distance(normalized, n);
      }
    }
  }

  /** The search as it runs: a length filter, a cut-off distance and a running minimum, over the names in any order. */
  method BestDistances(measure: Measure, index: Index, normalized: string) returns (best: map<string, nat>)
    requires Measures(measure) && normalized != ""
    ensures BestAmong(index, normalized, index.names.Keys, best)
  {
    var cutoff := Bound(normalized);
    best := map[];
    var remaining := index.names.Keys;
    ghost var done := {};
    while remaining != {}
      invariant done !! remaining && done + remaining == index.names.Keys
      invariant BestAmong(index, normalized, done, best)
      decreases |remaining|
    {
      var name :| name in remaining;
      remaining := remaining - {name};
      GapBoundsDistance(normalized, name);
      if Gap(|name|, |normalized|) > cutoff {
        SkippedNameOffersNothing(index, normalized, done, name, best);
      } else {
        var distance := measure(normalized, name, cutoff);
        if distance > cutoff || !Similar(distance, normalized, name) {
          SkippedNameOffersNothing(index, normalized, done, name, best);
        } else {
          CloseNameImproves(index, normalized, done, name, best);
          best := Improve(best, index.names[name], distance);
        }
      }
      done := done + {name};
    }
  }

  // ---------------------------------------------------------------- recognition

  /** The answer to one input, stated without the search. */
  ghost predicate Answers(norm: Normalizer, index: Index, query: Option<string>, allowTypo: bool,
                          r: Result<Recognition, RecognitionError>) {
    if query.None? || !(2 <= |query.value| <= 120) || norm(query.value) == ""
      then r == Success(Recognition(InvalidInput, []))
    else
      var normalized := norm(query.value);
      if normalized in index.exact && index.exact[normalized] != {} then
        exists codes :: Arranges(map c | c in index.exact[normalized] :: 0, codes)
          && r == ResultOf(index, query.value, codes, false)
      else if !allowTypo || |normalized| < 4 then r == Success(Recognition(NotRecognized, []))
      else
        exists codes :: Proposes(index, normalized, codes)
          && r == if codes == [] then Success(Recognition(NotRecognized, []))
             else ResultOf(index, query.value, codes, true)
  }

  /** `query` arrives stripped of surrounding blanks. */
  method Recognize(norm: Normalizer, measure: Measure, index: Index, query: Option<string>, allowTypo: bool)
    returns (r: Result<Recognition, RecognitionError>)
    requires Measures(measure)
    ensures Answers(norm, index, query, allowTypo, r)
  {
    if query.None? || !(2 <= |query.value| <= 120) {
      return Success(Recognition(InvalidInput, []));
    }
    var normalized := norm(query.value);
    if normalized == "" {
      return Success(Recognition(InvalidInput, []));
    }
    if normalized in index.exact && index.exact[normalized] != {} {
      var sorted := SortCodes(map c | c in index.exact[normalized] :: 0);
      return ResultOf(index, query.value, sorted, false);
    }
    if !allowTypo || |normalized| < 4 {
      return Success(Recognition(NotRecognized, []));
    }
    var best := BestDistances(measure, index, normalized);
    var all := SortCodes(best);
    var codes := FirstThree(all);
    assert Proposes(index, normalized, codes);
    assert all != [] ==> all[0] in best;
    if best == map[] {
      return Success(Recognition(NotRecognized, []));
    }
    assert all != [] by {
      var c :| c in best;
      assert c in all;
    }
    r := ResultOf(index, query.value, codes, true);
  }

  // ---------------------------------------------------------------- when recognition can fail

  /** Every code the index can return is a country with a valid record. */
  ghost predicate Sound(index: Index) {
    match index
    case Index(_, exact, names) =>
      && (forall k :: k in exact ==> Resolvable(index, exact[k]))
      && (forall k :: k in names ==> Resolvable(index, names[k]) && k in exact && exact[k] != {})
  }

  predicate ValidRecord(r: Record) {
    CountryCode(r.alpha2) && 2 <= |r.name| <= 120
  }

  /** An exact name shared by more than three countries. */
  predicate Overshared(norm: Normalizer, index: Index, query: Option<string>) {
    && query.Some? && 2 <= |query.value| <= 120 && norm(query.value) != ""
    && norm(query.value) in index.exact && |index.exact[norm(query.value)]| > 3
  }

  lemma {:induction false} ArrangedSize(best: map<string, nat>, codes: seq<string>)
    requires Arranges(best, codes)
    ensures |codes| == |best.Keys|
  {
    AscendingHasNoRepeats(best, codes);
    SeqSize(codes);
    assert best.Keys == set c | c in codes;
  }

  lemma {:induction false} SeqSize(codes: seq<string>)
    requires forall i, j :: 0 <= i < j < |codes| ==> codes[i] != codes[j]
    ensures |set c | c in codes| == |codes|
  {
    if codes != [] {
      SeqSize(codes[1..]);
      assert (set c | c in codes) == {codes[0]} + set c | c in codes[1..];
    }
  }

  /** On a sound index recognition raises exactly for a name that more than three countries share. */
  lemma RecognitionFailsIffOvershared(norm: Normalizer, index: Index, query: Option<string>, allowTypo: bool,
                                      r: Result<Recognition, RecognitionError>)
    requires Sound(index) && Answers(norm, index, query, allowTypo, r)
    ensures r.Failure? <==> Overshared(norm, index, query)
    ensures r.Success? ==> ValidRecognition(r.value)
  {
    if query.Some? && 2 <= |query.value| <= 120 && norm(query.value) != "" {
      var normalized := norm(query.value);
      if normalized in index.exact && index.exact[normalized] != {} {
        ExactFailsIffOvershared(index, query.value, normalized, r);
      } else if allowTypo && |normalized| >= 4 {
        var codes :| Proposes(index, normalized, codes)
          && r == if codes == [] then Success(Recognition(NotRecognized, []))
             else ResultOf(index, query.value, codes, true);
        if codes != [] {
          ProposedCodes(index, normalized, codes);
          FewCodesAreValid(index, query.value, codes);
        }
      }
    }
  }

  lemma ExactFailsIffOvershared(index: Index, query: string, normalized: string,
                                r: Result<Recognition, RecognitionError>)
    requires Sound(index) && 2 <= |query| <= 120 && normalized in index.exact && index.exact[normalized] != {}
    requires exists codes ::
               Arranges(map c | c in index.exact[normalized] :: 0, codes) && r == ResultOf(index, query, codes, false)
    ensures r.Failure? <==> |index.exact[normalized]| > 3
    ensures r.Success? ==> ValidRecognition(r.value)
  {
    var best: map<string, nat> := map c | c in index.exact[normalized] :: 0;
    var codes :| Arranges(best, codes) && r == ResultOf(index, query, codes, false);
    ArrangedSize(best, codes);
    assert best.Keys == index.exact[normalized];
    assert (set c | c in codes) == index.exact[normalized];
    AscendingHasNoRepeats(best, codes);
    ResultIsValidIff(index, query, codes, false);
  }

  lemma FewCodesAreValid(index: Index, query: string, codes: seq<string>)
    requires 2 <= |query| <= 120 && Resolvable(index, set c | c in codes) && 1 <= |codes| <= 3
    requires forall i, j :: 0 <= i < j < |codes| ==> codes[i] != codes[j]
    ensures ResultOf(index, query, codes, true).Success?
    ensures ValidRecognition(ResultOf(index, query, codes, true).value)
  {
    ResultIsValidIff(index, query, codes, true);
  }

  lemma OfferedCodesResolve(index: Index, normalized: string, best: map<string, nat>)
    requires Sound(index) && normalized != "" && BestAmong(index, normalized, index.names.Keys, best)
    ensures Resolvable(index, best.Keys)
  {
    forall c | c in best ensures c in index.countries && CountryCode(c) && 2 <= |index.countries[c]| <= 120 {
      var n :| n in index.names.Keys && Offers(index, normalized, n, c);
      assert Resolvable(index, index.names[n]);
    }
  }

  lemma ArrangedCodes(index: Index, best: map<string, nat>, all: seq<string>)
    requires Resolvable(index, best.Keys) && Arranges(best, all)
    ensures |FirstThree(all)| <= 3 && Resolvable(index, set c | c in FirstThree(all))
    ensures forall i, j :: 0 <= i < j < |FirstThree(all)| ==> FirstThree(all)[i] != FirstThree(all)[j]
  {
    AscendingHasNoRepeats(best, all);
    assert forall c :: c in FirstThree(all) ==> c in all;
  }

  lemma ProposedCodes(index: Index, normalized: string, codes: seq<string>)
    requires Sound(index) && normalized != "" && Proposes(index, normalized, codes)
    ensures |codes| <= 3 && Resolvable(index, set c | c in codes)
    ensures forall i, j :: 0 <= i < j < |codes| ==> codes[i] != codes[j]
  {
    var best, all :| BestAmong(index, normalized, index.names.Keys, best) && Arranges(best, all)
      && codes == FirstThree(all);
    OfferedCodesResolve(index, normalized, best);
    ArrangedCodes(index, best, all);
  }

  /** A proposal is never an exact hit: every proposed code is at least one edit away. */
  lemma ProposalsAreCorrections(index: Index, normalized: string, best: map<string, nat>)
    requires normalized != "" && normalized !in index.names
    ensures BestAmong(index, normalized, index.names.Keys, best) ==>
              forall c :: c in best ==> 1 <= best[c] <= Bound(normalized)
  {
    if BestAmong(index, normalized, index.names.Keys, best) {
      forall c | c in best ensures 1 <= best[c] <= Bound(normalized) {
        var n :| n in index.names.Keys && Offers(index, normalized, n, c) && Distance(normalized, n) == best[c];
        ZeroOnlyForEqual(normalized, n);
      }
    }
  }

  /** The contract of recognition fixes its answer. */
  lemma AnswerIsUnique(norm: Normalizer, index: Index, query: Option<string>, allowTypo: bool,
                       a: Result<Recognition, RecognitionError>, b: Result<Recognition, RecognitionError>)
    requires Answers(norm, index, query, allowTypo, a) && Answers(norm, index, query, allowTypo, b)
    ensures a == b
  {
    if query.Some? && 2 <= |query.value| <= 120 && norm(query.value) != "" {
      var normalized := norm(query.value);
      if normalized in index.exact && index.exact[normalized] != {} {
        var best: map<string, nat> := map c | c in index.exact[normalized] :: 0;
        var x :| Arranges(best, x) && a == ResultOf(index, query.value, x, false);
        var y :| Arranges(best, y) && b == ResultOf(index, query.value, y, false);
        ArrangementIsUnique(best, x, y);
      } else if allowTypo && |normalized| >= 4 {
        var x :| Proposes(index, normalized, x)
          && a == if x == [] then Success(Recognition(NotRecognized, [])) else ResultOf(index, query.value, x, true);
        var y :| Proposes(index, normalized, y)
          && b == if y == [] then Success(Recognition(NotRecognized, [])) else ResultOf(index, query.value, y, true);
        ProposalIsUnique(index, normalized, x, y);
      }
    }
  }

  // ---------------------------------------------------------------- what an answer means

  /** The normalized text is a name of some country. */
  predicate Known(index: Index, normalized: string) {
    normalized in index.exact && index.exact[normalized] != {}
  }

  /** A listed name one edit away, or two for eight letters or more, and never more than one letter in five. */
  ghost predicate Near(index: Index, normalized: string, name: string, code: string) {
    && name in index.names && code in index.names[name]
    && (Distance(normalized, name) <= 1 || (Distance(normalized, name) == 2 && |normalized| >= 8))
    && (5 * Distance(normalized, name) <= |normalized| || 5 * Distance(normalized, name) <= |name|)
  }

  lemma FifthOf(d: nat, longest: nat)
    requires longest > 0
    ensures 1.0 - d as real / longest as real >= 0.8 <==> 5 * d <= longest
  {
    var q := d as real / longest as real;
    assert q * longest as real == d as real;
    assert q <= 0.2 <==> 5.0 * d as real <= longest as real;
  }

  /** The codes that rank before one: a nearer name, or one as near and an earlier code. */
  ghost function Ahead(best: map<string, nat>, c: string): set<string>
    requires c in best
  {
    set d | d in best && (best[d] < best[c] || (best[d] == best[c] && Before(d, c)))
  }

  /** In an arrangement a code stands behind exactly the codes ahead of it. */
  lemma {:induction false} PlaceIsAhead(best: map<string, nat>, all: seq<string>, k: nat)
    requires Arranges(best, all) && k < |all|
    ensures |Ahead(best, all[k])| == k
  {
    AscendingHasNoRepeats(best, all);
    var front := set c | c in all[..k];
    SeqSize(all[..k]);
    forall d ensures d in Ahead(best, all[k]) <==> d in front {
      if d in best {
        var i :| 0 <= i < |all| && all[i] == d;
        if i < k {
          assert all[..k][i] == d;
        } else if i > k {
          PrecedesIsStrict(best[d], d, best[all[k]], all[k]);
        } else {
          BeforeIsIrreflexive(d);
        }
      }
      if d in front {
        var i :| 0 <= i < k && all[..k][i] == d;
        assert all[i] == d;
      }
    }
    assert Ahead(best, all[k]) == front;
  }

  /** The codes with fewer than three ahead of them. */
  ghost function Leading(best: map<string, nat>): set<string> {
    set c | c in best && |Ahead(best, c)| < 3
  }

  lemma FirstThreeLead(best: map<string, nat>, all: seq<string>)
    requires Arranges(best, all)
    ensures Leading(best) == set c | c in FirstThree(all)
    ensures |Leading(best)| == |FirstThree(all)| && (FirstThree(all) == [] <==> best == map[])
    ensures forall i, j :: 0 <= i < j < |FirstThree(all)| ==> FirstThree(all)[i] != FirstThree(all)[j]
  {
    AscendingHasNoRepeats(best, all);
    SeqSize(FirstThree(all));
    assert all != [] ==> all[0] in best;
    forall c ensures c in Leading(best) <==> c in FirstThree(all) {
      if c in best {
        var k :| 0 <= k < |all| && all[k] == c;
        PlaceIsAhead(best, all, k);
        assert c in FirstThree(all) <==> k < 3;
      }
    }
  }

  /** Proposed are exactly the offered codes with fewer than three ahead of them. */
  lemma ProposedLead(index: Index, normalized: string, best: map<string, nat>, codes: seq<string>)
    requires normalized != "" && BestAmong(index, normalized, index.names.Keys, best)
    requires Proposes(index, normalized, codes)
    ensures Leading(best) == (set c | c in codes) && |Leading(best)| == |codes|
    ensures codes == [] <==> best == map[]
    ensures forall i, j :: 0 <= i < j < |codes| ==> codes[i] != codes[j]
  {
    var all := ProposedFrom(index, normalized, best, codes);
    FirstThreeLead(best, all);
  }

  lemma ProposedFrom(index: Index, normalized: string, best: map<string, nat>, codes: seq<string>)
    returns (all: seq<string>)
    requires normalized != "" && BestAmong(index, normalized, index.names.Keys, best)
    requires Proposes(index, normalized, codes)
    ensures Arranges(best, all) && codes == FirstThree(all)
  {
    var best', all' :| BestAmong(index, normalized, index.names.Keys, best') && Arranges(best', all')
      && codes == FirstThree(all');
    BestIsUnique(index, normalized, index.names.Keys, best, best');
    all := all';
  }

  /** A code is offered exactly when some listed name that stands for it is near. */
  lemma OfferedIff(index: Index, normalized: string, best: map<string, nat>, c: string)
    requires normalized != "" && BestAmong(index, normalized, index.names.Keys, best)
    ensures c in best <==> exists name :: Near(index, normalized, name, c)
  {
    forall name ensures Offers(index, normalized, name, c) <==> Near(index, normalized, name, c) {
      FifthOf(Distance(normalized, name), Max(|normalized|, |name|));
    }
    assert c in best ==> exists n :: n in index.names.Keys && Offers(index, normalized, n, c);
    if name :| Near(index, normalized, name, c) {
      assert name in index.names.Keys && Offers(index, normalized, name, c);
    }
  }

  /** Some listed name is near. */
  ghost predicate Correctable(index: Index, normalized: string) {
    exists name, c :: Near(index, normalized, name, c)
  }

  lemma CorrectableIff(index: Index, normalized: string, best: map<string, nat>)
    requires normalized != "" && BestAmong(index, normalized, index.names.Keys, best)
    ensures Correctable(index, normalized) <==> best != map[]
  {
    if best != map[] {
      var c :| c in best;
      OfferedIff(index, normalized, best, c);
    }
    if name, c :| Near(index, normalized, name, c) {
      OfferedIff(index, normalized, best, c);
    }
  }

  /** The codes and the confirmation flags of an answer. */
  ghost predicate Reports(index: Index, query: string, r: Recognition, codes: set<string>, status: Status) {
    && r.status == status && (set m | m in r.matches :: m.code) == codes && |r.matches| == |codes|
    && forall m :: m in r.matches ==>
         m.code in index.countries && m == Match(m.code, index.countries[m.code], query, status != Exact)
  }

  lemma ResultReports(index: Index, query: string, codes: seq<string>, corrected: bool)
    requires ResultOf(index, query, codes, corrected).Success?
    requires forall i, j :: 0 <= i < j < |codes| ==> codes[i] != codes[j]
    ensures Reports(index, query, ResultOf(index, query, codes, corrected).value, set c | c in codes,
                    if |codes| >= 2 then Ambiguous else if corrected then ConfirmationRequired else Exact)
  {
    ResultTells(index, query, codes, corrected);
    SeqSize(codes);
    var r := ResultOf(index, query, codes, corrected).value;
    forall c | c in codes ensures exists m :: m in r.matches && m.code == c {
      var i :| 0 <= i < |codes| && codes[i] == c;
      assert r.matches[i] in r.matches && r.matches[i].code == c;
    }
    assert (set m | m in r.matches :: m.code) == set c | c in codes;
  }

  /** A text without a letter to go by, or too long, is invalid, and nothing else is. */
  lemma InvalidIff(norm: Normalizer, index: Index, query: Option<string>, allowTypo: bool, r: Recognition)
    requires Answers(norm, index, query, allowTypo, Success(r))
    ensures r.status == InvalidInput <==>
            query.None? || |query.value| < 2 || |query.value| > 120 || norm(query.value) == ""
  {
  }

  /** A known name is answered with all its countries, and needs no confirmation exactly when there is one. */
  lemma KnownNameAnswer(norm: Normalizer, index: Index, query: string, allowTypo: bool, r: Recognition)
    requires Answers(norm, index, Some(query), allowTypo, Success(r))
    requires 2 <= |query| <= 120 && norm(query) != "" && Known(index, norm(query))
    ensures Reports(index, query, r, index.exact[norm(query)],
                    if |index.exact[norm(query)]| == 1 then Exact else Ambiguous)
  {
    var codes := index.exact[norm(query)];
    var best: map<string, nat> := map c | c in codes :: 0;
    var sorted :| Arranges(best, sorted) && Success(r) == ResultOf(index, query, sorted, false);
    AscendingHasNoRepeats(best, sorted);
    ArrangedSize(best, sorted);
    assert best.Keys == codes && (set c | c in sorted) == codes;
    ResultReports(index, query, sorted, false);
  }

  /**
   An unknown name is not recognized exactly when corrections are not wanted, it has fewer than four
   letters, or no listed name is near; otherwise the answer always asks for confirmation, with the
   nearest codes, three at most.
   */
  lemma UnknownNameAnswer(norm: Normalizer, index: Index, query: string, allowTypo: bool, r: Recognition,
                          best: map<string, nat>)
    requires Answers(norm, index, Some(query), allowTypo, Success(r))
    requires 2 <= |query| <= 120 && norm(query) != "" && !Known(index, norm(query))
    requires BestAmong(index, norm(query), index.names.Keys, best)
    ensures var corrects := allowTypo && |norm(query)| >= 4 && Correctable(index, norm(query));
            && (r.status == NotRecognized <==> !corrects)
            && (!corrects ==> r.matches == [])
            && (corrects ==>
                  Reports(index, query, r, Leading(best), if |Leading(best)| == 1 then ConfirmationRequired
                                                          else Ambiguous))
  {
    var key := norm(query);
    if allowTypo && |key| >= 4 {
      var codes :| Proposes(index, key, codes)
        && Success(r) == if codes == [] then Success(Recognition(NotRecognized, []))
          else ResultOf(index, query, codes, true);
      CorrectableIff(index, key, best);
      ProposedLead(index, key, best, codes);
      if codes != [] {
        ResultReports(index, query, codes, true);
      }
    }
  }

  // ---------------------------------------------------------------- the index built from a dataset

  /** The alias table vouches for Korea's two codes; nothing vouches for Congo's. */
  lemma {:induction false} BuiltIndexIsSoundIff(norm: Normalizer, records: seq<Record>)
    requires AliasesKnown(records) && forall i :: 0 <= i < |records| ==> ValidRecord(records[i])
    requires norm("Congo") != norm("Korea") && NoShortcut(norm, Shortcuts(records), 0, norm("Congo"))
    ensures Sound(BuiltIndex(norm, records)) <==> HasBothCongos(records)
  {
    if HasBothCongos(records) {
      BuiltIndexIsSound(norm, records);
    }
    if Sound(BuiltIndex(norm, records)) {
      CongoNeedsBothCodes(norm, records);
    }
  }

  lemma CongoNeedsBothCodes(norm: Normalizer, records: seq<Record>)
    requires norm("Congo") != norm("Korea") && NoShortcut(norm, Shortcuts(records), 0, norm("Congo"))
    requires Sound(BuiltIndex(norm, records))
    ensures HasBothCongos(records)
  {
    var index := BuiltIndex(norm, records);
    var names := WithSharedNames(norm, CollectedNames(norm, AllFields(records) + ALIASES));
    OtherNamesKeepTheirCodes(norm, names, Shortcuts(records), norm("Congo"));
    assert index.exact[norm("Congo")] == {"CG", "CD"};
    assert Resolvable(index, {"CG", "CD"});
    CountriesAreTheCodes(records);
  }

  lemma BuiltIndexIsSound(norm: Normalizer, records: seq<Record>)
    requires AliasesKnown(records) && forall i :: 0 <= i < |records| ==> ValidRecord(records[i])
    requires HasBothCongos(records)
    ensures Sound(BuiltIndex(norm, records))
  {
    var index := BuiltIndex(norm, records);
    var names := WithSharedNames(norm, CollectedNames(norm, AllFields(records) + ALIASES));
    forall k | k in names ensures names[k] != {} && names[k] <= Codes(records) {
      SharedNamesAreKnown(norm, records, k);
    }
    forall i | 0 <= i < |Shortcuts(records)| ensures Shortcuts(records)[i].1 in Codes(records) {
      ShortcutsHaveKnownCodes(records, i);
    }
    OverriddenIsSound(records, norm, names, Shortcuts(records));
    CodesResolve(norm, records);
    SubsetsResolve(index, names, Codes(records));
    SubsetsResolve(index, index.exact, Codes(records));
  }

  lemma SubsetsResolve(index: Index, table: map<string, set<string>>, codes: set<string>)
    requires Resolvable(index, codes) && forall k :: k in table ==> table[k] <= codes
    ensures forall k :: k in table ==> Resolvable(index, table[k])
  {
  }

  lemma CodesResolve(norm: Normalizer, records: seq<Record>)
    requires forall i :: 0 <= i < |records| ==> ValidRecord(records[i])
    ensures Resolvable(BuiltIndex(norm, records), Codes(records))
  {
    CountriesAreTheCodes(records);
  }

  lemma {:induction false} FieldsHaveKnownCodes(records: seq<Record>, i: nat)
    requires i < |AllFields(records)|
    ensures AllFields(records)[i].1 in Codes(records)
  {
    var n := |records| - 1;
    if i < |AllFields(records[..n])| {
      FieldsHaveKnownCodes(records[..n], i);
      var j :| 0 <= j < n && records[..n][j].alpha2 == AllFields(records[..n])[i].1;
      assert records[j].alpha2 == AllFields(records)[i].1;
    } else {
      assert AllFields(records)[i] in FieldsOf(records[n]);
      assert records[n].alpha2 in Codes(records);
    }
  }

  lemma KoreasAreAliases()
    ensures {"KR", "KP"} <= CodesIn(ALIASES)
  {
    assert ALIASES[9].1 == "KR" && ALIASES[10].1 == "KP";
  }

  lemma SharedNamesAreKnown(norm: Normalizer, records: seq<Record>, k: string)
    requires AliasesKnown(records) && HasBothCongos(records)
    requires k in WithSharedNames(norm, CollectedNames(norm, AllFields(records) + ALIASES))
    ensures var codes := WithSharedNames(norm, CollectedNames(norm, AllFields(records) + ALIASES))[k];
            codes != {} && codes <= Codes(records)
  {
    var entries := AllFields(records) + ALIASES;
    KoreasAreAliases();
    if k != norm("Congo") && k != norm("Korea") {
      CollectedNamesCollect(norm, entries);
      forall c | c in CodesOf(norm, entries, k) ensures c in Codes(records) {
        var i :| 0 <= i < |entries| && norm(entries[i].0) == k && c == entries[i].1;
        if i < |AllFields(records)| {
          FieldsHaveKnownCodes(records, i);
        } else {
          assert entries[i] == ALIASES[i - |AllFields(records)|];
          assert c in CodesIn(ALIASES);
        }
      }
    }
  }

  lemma {:induction false} ShortcutsHaveKnownCodes(records: seq<Record>, i: nat)
    requires i < |Shortcuts(records)|
    ensures Shortcuts(records)[i].1 in Codes(records)
  {
    var n := |records| - 1;
    if i < |Shortcuts(records[..n])| {
      ShortcutsHaveKnownCodes(records[..n], i);
      var j :| 0 <= j < n && records[..n][j].alpha2 == Shortcuts(records[..n])[i].1;
      assert records[j].alpha2 == Shortcuts(records)[i].1;
    } else {
      assert records[n].alpha2 in Codes(records);
    }
  }

  lemma {:induction false} OverriddenIsSound(records: seq<Record>, norm: Normalizer, exact: map<string, set<string>>,
                                             shortcuts: seq<Entry>)
    requires forall k :: k in exact ==> exact[k] != {} && exact[k] <= Codes(records)
    requires forall i :: 0 <= i < |shortcuts| ==> shortcuts[i].1 in Codes(records)
    ensures forall k :: k in Overridden(norm, exact, shortcuts) ==>
              Overridden(norm, exact, shortcuts)[k] != {} && Overridden(norm, exact, shortcuts)[k] <= Codes(records)
    ensures exact.Keys <= Overridden(norm, exact, shortcuts).Keys
  {
    if shortcuts != [] {
      OverriddenIsSound(records, norm, exact, shortcuts[..|shortcuts| - 1]);
    }
  }

  // ---------------------------------------------------------------- a dataset with an overshared name

  const CODES := ["AE", "BO", "CD", "CG", "GB", "IR", "KP", "KR", "LA", "MD", "RU", "SY", "TR", "TZ", "US", "VE", "VN"]

  /** Every country the index needs, all of one name. */
  const NAMESAKES := seq(|CODES|,
                         (i: int) requires 0 <= i < |CODES| => Record(CODES[i], CODES[i] + "X", "Guinea", None, None))

  const VERBATIM: Normalizer := (s: string) => s

  lemma NamesakesAreKnown()
    ensures AliasesKnown(NAMESAKES) && HasBothCongos(NAMESAKES)
    ensures forall i :: 0 <= i < |NAMESAKES| ==> ValidRecord(NAMESAKES[i])
  {
    forall i | 0 <= i < |CODES| ensures CODES[i] in Codes(NAMESAKES) {
      assert NAMESAKES[i].alpha2 == CODES[i];
    }
    forall c | c in CodesIn(ALIASES) ensures c in CODES {
      AliasCodeIsListed(c);
    }
    assert CODES[2] == "CD" && CODES[3] == "CG";
  }

  lemma AliasCodeIsListed(c: string)
    requires c in CodesIn(ALIASES)
    ensures c in CODES
  {
    var i :| 0 <= i < |ALIASES| && ALIASES[i].1 == c;
    assert CODES[0] == "AE" && CODES[1] == "BO" && CODES[4] == "GB" && CODES[5] == "IR" && CODES[6] == "KP"
      && CODES[7] == "KR";
    assert CODES[8] == "LA" && CODES[9] == "MD" && CODES[10] == "RU" && CODES[11] == "SY" && CODES[12] == "TR";
    assert CODES[13] == "TZ" && CODES[14] == "US" && CODES[15] == "VE" && CODES[16] == "VN";
  }

  lemma {:induction false} FieldsCover(records: seq<Record>, i: nat)
    requires i < |records|
    ensures (records[i].name, records[i].alpha2) in AllFields(records)
  {
    var n := |records| - 1;
    if i < n {
      assert records[..n][i] == records[i];
      FieldsCover(records[..n], i);
    } else {
      assert (records[n].name, records[n].alpha2) == FieldsOf(records[n])[0];
    }
  }

  lemma {:induction false} ShortcutsAreShort(records: seq<Record>, j: nat)
    requires j < |Shortcuts(records)|
    ensures exists i :: 0 <= i < |records| && Shortcuts(records)[j].0 in {records[i].alpha2, records[i].alpha3}
  {
    var n := |records| - 1;
    if j < |Shortcuts(records[..n])| {
      ShortcutsAreShort(records[..n], j);
      var i :| 0 <= i < n && Shortcuts(records[..n])[j].0 in {records[..n][i].alpha2, records[..n][i].alpha3};
      assert Shortcuts(records)[j].0 in {records[i].alpha2, records[i].alpha3};
    } else {
      assert Shortcuts(records)[j].0 in {records[n].alpha2, records[n].alpha3};
    }
  }

  lemma NamesakesHaveNoShortcut()
    ensures NoShortcut(VERBATIM, Shortcuts(NAMESAKES), 0, "Guinea")
  {
    var shortcuts := Shortcuts(NAMESAKES);
    forall j | 0 <= j < |shortcuts| ensures VERBATIM(shortcuts[j].0) != "Guinea" {
      ShortcutsAreShort(NAMESAKES, j);
      var i :| 0 <= i < |NAMESAKES| && shortcuts[j].0 in {NAMESAKES[i].alpha2, NAMESAKES[i].alpha3};
      assert |CODES[i]| == 2 && |shortcuts[j].0| <= 3 && |"Guinea"| == 6;
    }
  }

  /** A name of the dataset that is no shortcut and not shared by decree keeps all the codes it is given. */
  lemma PlainNameKeepsCodes(norm: Normalizer, records: seq<Record>, key: string)
    requires key != "" && key != norm("Congo") && key != norm("Korea") && NoShortcut(norm, Shortcuts(records), 0, key)
    requires CodesOf(norm, AllFields(records) + ALIASES, key) != {}
    ensures var index := BuiltIndex(norm, records);
            key in index.exact && index.exact[key] == CodesOf(norm, AllFields(records) + ALIASES, key)
  {
    var entries := AllFields(records) + ALIASES;
    CollectedNamesCollect(norm, entries);
    OtherNamesKeepTheirCodes(norm, WithSharedNames(norm, CollectedNames(norm, entries)), Shortcuts(records), key);
  }

  /** A record gives its code its name, its official name and its common name, as far as it has them. */
  lemma {:induction false} FieldsAre(records: seq<Record>, e: Entry)
    ensures e in AllFields(records) <==>
            exists r :: r in records && e.1 == r.alpha2
              && (e.0 == r.name || r.official == Some(e.0) || r.common == Some(e.0))
  {
    if records != [] {
      var front, last := records[..|records| - 1], records[|records| - 1];
      assert records == front + [last];
      FieldsAre(front, e);
      assert e in FieldsOf(last) <==>
          e.1 == last.alpha2 && (e.0 == last.name || last.official == Some(e.0) || last.common == Some(e.0));
    }
  }

  function GivenCodes(norm: Normalizer, entries: seq<Entry>, key: string): set<string> {
    set e | e in entries && norm(e.0) == key :: e.1
  }

  lemma CodesAreGiven(norm: Normalizer, entries: seq<Entry>, key: string)
    ensures CodesOf(norm, entries, key) == GivenCodes(norm, entries, key)
    ensures GivenCodes(norm, entries, key) != {} <==> exists e :: e in entries && norm(e.0) == key
  {
    forall c ensures c in CodesOf(norm, entries, key) <==> c in GivenCodes(norm, entries, key) {
      if c in GivenCodes(norm, entries, key) {
        var e :| e in entries && norm(e.0) == key && e.1 == c;
        var i :| 0 <= i < |entries| && entries[i] == e;
      }
    }
    if e :| e in entries && norm(e.0) == key {
      assert e.1 in GivenCodes(norm, entries, key);
    }
  }

  /**
   Corrections are looked for among the names of at least four letters that a record or an alias
   gives, and the two shared ones, each with all its codes.
   */
  lemma ListedNames(norm: Normalizer, records: seq<Record>, key: string)
    requires norm("Congo") != norm("Korea") && key != ""
    ensures var names := BuiltIndex(norm, records).names;
            var entries := AllFields(records) + ALIASES;
            && (key in names <==>
                && |key| >= 4
                && (key == norm("Congo") || key == norm("Korea") || exists e :: e in entries && norm(e.0) == key))
            && (key in names ==>
                  names[key] == if key == norm("Congo") then {"CG", "CD"}
                                else if key == norm("Korea") then {"KR", "KP"}
                                else GivenCodes(norm, entries, key))
  {
    var entries := AllFields(records) + ALIASES;
    var collected := CollectedNames(norm, entries);
    CollectedNamesCollect(norm, entries);
    CodesAreGiven(norm, entries, key);
    assert key in collected <==> GivenCodes(norm, entries, key) != {};
    assert key in BuiltIndex(norm, records).names <==> |key| >= 4 && key in WithSharedNames(norm, collected);
  }

  lemma NamesakeCode(i: nat)
    requires i < |CODES|
    ensures CODES[i] in CodesOf(VERBATIM, AllFields(NAMESAKES) + ALIASES, "Guinea")
  {
    FieldsCover(NAMESAKES, i);
    assert NAMESAKES[i].name == "Guinea" && NAMESAKES[i].alpha2 == CODES[i];
    var fields := AllFields(NAMESAKES);
    var k :| 0 <= k < |fields| && fields[k] == ("Guinea", CODES[i]);
    assert (fields + ALIASES)[k] == ("Guinea", CODES[i]);
  }

  lemma NamesakesAreMany()
    ensures |CodesOf(VERBATIM, AllFields(NAMESAKES) + ALIASES, "Guinea")| > 3
  {
    var codes := CodesOf(VERBATIM, AllFields(NAMESAKES) + ALIASES, "Guinea");
    NamesakeCode(0);
    NamesakeCode(1);
    NamesakeCode(2);
    NamesakeCode(3);
    var four := {CODES[0], CODES[1], CODES[2], CODES[3]};
    assert CODES[0] == "AE" && CODES[1] == "BO" && CODES[2] == "CD" && CODES[3] == "CG";
    SubsetSize(four, codes);
  }

  lemma GuineaKeepsCodes()
    ensures var index := BuiltIndex(VERBATIM, NAMESAKES);
            "Guinea" in index.exact && |index.exact["Guinea"]| > 3
  {
    NamesakesAreMany();
    NamesakesHaveNoShortcut();
    assert "Guinea"[0] == 'G' && "Congo"[0] == 'C' && "Korea"[0] == 'K';
    PlainNameKeepsCodes(VERBATIM, NAMESAKES, "Guinea");
  }

  /** From such a dataset the index is built, and asking for the name raises. */
  lemma NamesakesMakeRecognitionFail(allowTypo: bool, r: Result<Recognition, RecognitionError>)
    requires Answers(VERBATIM, BuiltIndex(VERBATIM, NAMESAKES), Some("Guinea"), allowTypo, r)
    ensures AliasesKnown(NAMESAKES) && Sound(BuiltIndex(VERBATIM, NAMESAKES)) && r.Failure?
  {
    NamesakesAreKnown();
    BuiltIndexIsSound(VERBATIM, NAMESAKES);
    GuineaKeepsCodes();
    RecognitionFailsIffOvershared(VERBATIM, BuiltIndex(VERBATIM, NAMESAKES), Some("Guinea"), allowTypo, r);
  }
}
