/** The reference ranking of the destination catalogue: pure scoring, filtering and sorting. */
module DestinationRanking {
  import opened Preferences
  import opened TextOrder
  import opened Wrappers
  import opened CursorText

  datatype Style = Beaches | Adventure | Food | LuxuryTravel | Nature | Culture
  datatype Interest =
    | Hiking | Photography | Nightlife | Wellness | History | Wildlife | Shopping | LocalCulture | Events
  datatype Scope = Local | International | Both

  datatype Preference = Preference(
    user: nat, styles: seq<Style>, interests: seq<Interest>, budget: Option<BudgetTier>, pace: Option<Pace>,
    scope: Scope, home: Option<string>)
  {
    predicate PersonalizationReady() {
      styles != [] && interests != [] && budget.Some? && pace.Some?
    }
  }

  datatype Candidate = Candidate(
    id: nat, slug: string, country: string, budget: BudgetTier, styles: set<Style>, interests: set<Interest>,
    cover: nat,
    editorial: int, featured: Option<int>, popular: Option<int>)

  const STYLE_MATCH_SCORE := 30
  const INTEREST_MATCH_SCORE := 12

  function BudgetOrder(tier: BudgetTier): int {
    match tier
    case Budget => 0
    case MidRange => 1
    case Premium => 2
    case Luxury => 3
  }

  function BudgetScore(distance: int): int {
    if distance == 0 then 20 else if distance == 1 then 10 else if distance == 2 then 4 else 0
  }

  function Abs(n: int): int {
    if n < 0 then -n else n
  }

  function Elements<T>(s: seq<T>): set<T> {
    set x | x in s
  }

  function PreferenceScore(d: Candidate, p: Preference): int {
    |Elements(p.styles) * d.styles| * STYLE_MATCH_SCORE
    + |Elements(p.interests) * d.interests| * INTEREST_MATCH_SCORE
    + match p.budget
      case None => 0
      case Some(tier) => BudgetScore(Abs(BudgetOrder(tier) - BudgetOrder(d.budget)))
  }

  predicate MatchesScope(d: Candidate, scope: Scope, home: Option<string>) {
    scope.Both? || (home.Some? && (scope.Local? <==> d.country == home.value))
  }

  /** One more shared style is worth 30; one nobody asked for is worth nothing. */
  lemma StylesAddUp(d: Candidate, p: Preference, style: Style)
    ensures PreferenceScore(d.(styles := d.styles + {style}), p)
            == PreferenceScore(d, p) + if style in p.styles && style !in d.styles then 30 else 0
  {
    var shared := Elements(p.styles) * d.styles;
    var more := Elements(p.styles) * (d.styles + {style});
    if style in p.styles && style !in d.styles {
      assert more == shared + {style} && |more| == |shared| + 1;
    } else {
      assert more == shared;
    }
  }

  /** One more shared interest is worth 12. */
  lemma InterestsAddUp(d: Candidate, p: Preference, interest: Interest)
    ensures PreferenceScore(d.(interests := d.interests + {interest}), p)
            == PreferenceScore(d, p) + if interest in p.interests && interest !in d.interests then 12 else 0
  {
    var shared := Elements(p.interests) * d.interests;
    var more := Elements(p.interests) * (d.interests + {interest});
    if interest in p.interests && interest !in d.interests {
      assert more == shared + {interest} && |more| == |shared| + 1;
    } else {
      assert more == shared;
    }
  }

  /** Neighbouring tiers, cheapest first. */
  predicate Adjacent(a: BudgetTier, b: BudgetTier) {
    (a, b) in {(Budget, MidRange), (MidRange, Budget), (MidRange, Premium), (Premium, MidRange), (Premium, Luxury),
               (Luxury, Premium)}
  }

  /** The wanted tier is worth 20, its neighbours 10, theirs 4, the far end nothing; no wish is worth nothing. */
  lemma TierScores(d: Candidate, p: Preference, tier: BudgetTier)
    ensures PreferenceScore(d, p.(budget := Some(tier))) - PreferenceScore(d, p.(budget := None)) ==
            if tier == d.budget then 20
            else if Adjacent(tier, d.budget) then 10
            else if exists between :: Adjacent(tier, between) && Adjacent(between, d.budget) then 4
            else 0
  {
    var here := d.budget;
    if exists between :: Adjacent(tier, between) && Adjacent(between, here) {
      assert Abs(BudgetOrder(tier) - BudgetOrder(here)) in {0, 2};
    } else if tier != here && !Adjacent(tier, here) {
      assert !(Adjacent(tier, MidRange) && Adjacent(MidRange, here));
      assert !(Adjacent(tier, Premium) && Adjacent(Premium, here));
    }
  }

  /** A destination that differs in its tier only never scores less for lying nearer to the wanted one. */
  lemma NearerTierNeverScoresLess(d: Candidate, p: Preference, tier: BudgetTier, near: BudgetTier, far: BudgetTier)
    requires Abs(BudgetOrder(near) - BudgetOrder(tier)) <= Abs(BudgetOrder(far) - BudgetOrder(tier))
    ensures var wish := p.(budget := Some(tier));
            PreferenceScore(d.(budget := near), wish) >= PreferenceScore(d.(budget := far), wish)
  {
  }

  // ---------------------------------------------------------------- sorting by key

  /** Tuples are compared component by component. */
  predicate KeyBefore(before: (string, string) -> bool, a: Key, b: Key) {
    a.rank < b.rank || (a.rank == b.rank
      && (a.editorial < b.editorial || (a.editorial == b.editorial && before(a.slug, b.slug))))
  }

  datatype Keyed<T> = Keyed(key: Key, value: T)

  /** Stable insertion: an equal key stays in front. */
  function Insert<T>(before: (string, string) -> bool, x: Keyed<T>, s: seq<Keyed<T>>): seq<Keyed<T>> {
    if s == [] || KeyBefore(before, x.key, s[0].key) then [x] + s else [s[0]] + Insert(before, x, s[1..])
  }

  function Sort<T>(before: (string, string) -> bool, s: seq<Keyed<T>>): seq<Keyed<T>> {
    if s == [] then [] else Insert(before, s[|s| - 1], Sort(before, s[..|s| - 1]))
  }

  function Values<T>(s: seq<Keyed<T>>): seq<T> {
    seq(|s|, i requires 0 <= i < |s| => s[i].value)
  }

  predicate Ascending<T>(before: (string, string) -> bool, s: seq<Keyed<T>>) {
    forall i, j :: 0 <= i < j < |s| ==> KeyBefore(before, s[i].key, s[j].key)
  }

  ghost predicate DistinctKeys<T(!new)>(s: seq<Keyed<T>>) {
    forall i, j :: 0 <= i < j < |s| ==> s[i].key != s[j].key
  }

  lemma KeysAreOrdered(before: (string, string) -> bool, a: Key, b: Key)
    requires TotalOrder(before) && a != b
    ensures KeyBefore(before, a, b) != KeyBefore(before, b, a)
  {
    assert a.slug == b.slug || before(a.slug, b.slug) || before(b.slug, a.slug);
    assert before(a.slug, b.slug) && before(b.slug, a.slug) ==> before(a.slug, a.slug);
  }

  lemma KeysAreTransitive(before: (string, string) -> bool, a: Key, b: Key, c: Key)
    requires TotalOrder(before) && KeyBefore(before, a, b) && KeyBefore(before, b, c)
    ensures KeyBefore(before, a, c)
  {
  }

  lemma {:induction false} InsertAdds<T>(before: (string, string) -> bool, x: Keyed<T>, s: seq<Keyed<T>>)
    ensures multiset(Insert(before, x, s)) == multiset(s) + multiset{x}
  {
    if s != [] && !KeyBefore(before, x.key, s[0].key) {
      InsertAdds(before, x, s[1..]);
      assert s == [s[0]] + s[1..];
    }
  }

  lemma {:induction false} InsertKeepsOrder<T>(before: (string, string) -> bool, x: Keyed<T>, s: seq<Keyed<T>>)
    requires TotalOrder(before) && Ascending(before, s) && forall i :: 0 <= i < |s| ==> s[i].key != x.key
    ensures Ascending(before, Insert(before, x, s))
  {
    if s == [] {
    } else if KeyBefore(before, x.key, s[0].key) {
      forall i | 0 <= i < |s| ensures KeyBefore(before, x.key, s[i].key) {
        if i > 0 {
          KeysAreTransitive(before, x.key, s[0].key, s[i].key);
        }
      }
    } else {
      var rest := Insert(before, x, s[1..]);
      InsertKeepsOrder(before, x, s[1..]);
      InsertAdds(before, x, s[1..]);
      KeysAreOrdered(before, x.key, s[0].key);
      forall i | 0 <= i < |rest| ensures KeyBefore(before, s[0].key, rest[i].key) {
        assert rest[i] in multiset(rest);
      }
    }
  }

  lemma {:induction false} SortSorts<T(!new)>(before: (string, string) -> bool, s: seq<Keyed<T>>)
    requires TotalOrder(before) && DistinctKeys(s)
    ensures Ascending(before, Sort(before, s)) && multiset(Sort(before, s)) == multiset(s)
  {
    if s != [] {
      var last, front := s[|s| - 1], s[..|s| - 1];
      SortSorts(before, front);
      var sorted := Sort(before, front);
      forall i | 0 <= i < |sorted| ensures sorted[i].key != last.key {
        assert sorted[i] in multiset(front);
      }
      InsertKeepsOrder(before, last, sorted);
      InsertAdds(before, last, sorted);
      assert s == front + [last];
    }
  }

  /** There is only one ascending arrangement of the same entries. */
  lemma {:induction false} AscendingIsUnique<T(!new)>(before: (string, string) -> bool, a: seq<Keyed<T>>,
                                               b: seq<Keyed<T>>)
    requires TotalOrder(before) && Ascending(before, a) && Ascending(before, b)
    requires forall x :: x in a <==> x in b
    ensures a == b
    decreases |a|
  {
    assert b != [] ==> b[0] in a;
    if a != [] {
      assert a[0] in b && b != [] && b[0] in a;
      FirstIsSame(before, a, b);
      var x := a[0];
      forall y ensures y in a[1..] <==> y in b[1..] {
        TailMembers(before, a, y);
        TailMembers(before, b, y);
      }
      AscendingIsUnique(before, a[1..], b[1..]);
      assert a == [x] + a[1..] && b == [x] + b[1..];
    }
  }

  lemma FirstIsSame<T(!new)>(before: (string, string) -> bool, a: seq<Keyed<T>>, b: seq<Keyed<T>>)
    requires TotalOrder(before) && Ascending(before, a) && Ascending(before, b)
    requires a != [] && b != [] && a[0] in b && b[0] in a
    ensures a[0] == b[0]
  {
    var i :| 0 <= i < |b| && b[i] == a[0];
    var j :| 0 <= j < |a| && a[j] == b[0];
    if a[0].key != b[0].key {
      KeysAreOrdered(before, a[0].key, b[0].key);
    }
  }

  /** An entry occurs once in an ascending sequence. */
  lemma TailMembers<T(!new)>(before: (string, string) -> bool, s: seq<Keyed<T>>, y: Keyed<T>)
    requires TotalOrder(before) && Ascending(before, s) && s != []
    ensures y in s[1..] <==> y in s && y != s[0]
  {
    if y in s[1..] {
      var i :| 0 <= i < |s[1..]| && s[1..][i] == y;
      assert s[i + 1] == y && KeyBefore(before, s[0].key, y.key);
    }
    if y in s && y != s[0] {
      var i :| 0 <= i < |s| && s[i] == y;
      assert s[1..][i - 1] == y;
    }
  }

  // ---------------------------------------------------------------- the reference

  function SuggestedKey(d: Candidate, p: Preference): Key {
    Key(-PreferenceScore(d, p), d.editorial, d.slug)
  }

  function Scored(catalogue: seq<Candidate>, p: Preference, scope: Scope): seq<Keyed<Candidate>> {
    if catalogue == [] then []
    else
      (if MatchesScope(catalogue[0], scope, p.home) then [Keyed(SuggestedKey(catalogue[0], p), catalogue[0])] else [])
      + Scored(catalogue[1..], p, scope)
  }

  function Positive(s: seq<Keyed<Candidate>>, p: Preference): seq<Keyed<Candidate>> {
    if s == [] then []
    else (if PreferenceScore(s[0].value, p) > 0 then [s[0]] else []) + Positive(s[1..], p)
  }

  function RankSuggested(before: (string, string) -> bool, catalogue: seq<Candidate>, p: Preference,
                         scope: Scope): seq<Candidate> {
    if !p.PersonalizationReady() then []
    else Values(Positive(Sort(before, Scored(catalogue, p, scope)), p))
  }

  function WithPopularRank(catalogue: seq<Candidate>): seq<Keyed<Candidate>> {
    if catalogue == [] then []
    else
      (match catalogue[0].popular
       case None => []
       case Some(rank) => [Keyed(Key(rank, catalogue[0].editorial, catalogue[0].slug), catalogue[0])])
      + WithPopularRank(catalogue[1..])
  }

  function RankPopular(before: (string, string) -> bool, catalogue: seq<Candidate>): seq<Candidate> {
    Values(Sort(before, WithPopularRank(catalogue)))
  }

  function WithFeaturedRank(catalogue: seq<Candidate>): seq<Keyed<Candidate>> {
    if catalogue == [] then []
    else
      (match catalogue[0].featured
       case None => []
       case Some(rank) => [Keyed(Key(rank, catalogue[0].editorial, catalogue[0].slug), catalogue[0])])
      + WithFeaturedRank(catalogue[1..])
  }

  function RankFeatured(before: (string, string) -> bool, catalogue: seq<Candidate>): seq<Candidate> {
    Values(Sort(before, WithFeaturedRank(catalogue)))
  }
}
