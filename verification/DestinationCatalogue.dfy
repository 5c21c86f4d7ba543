/**
 The ranked catalogue as the database serves it: a filtered, scored and ordered query read one
 seek page at a time, with the position handed back as an opaque cursor.
 */
module DestinationCatalogue {
  import opened Preferences
  import opened TextOrder
  import opened Wrappers
  import opened CursorText
  import opened DestinationRanking

  // ---------------------------------------------------------------- stored rows

  datatype Row = Row(
    id: nat, slug: string, country: string, budget: BudgetTier, editorial: int, featured: Option<int>,
    popular: Option<int>,
    published: bool)

  datatype Attachment = Attachment(destination: nat, asset: nat, cover: bool)

  /** Tag rows have the destination and the tag as their primary key. */
  datatype Store = Store(
    destinations: seq<Row>, styles: set<(nat, Style)>, interests: set<(nat, Interest)>, media: seq<Attachment>,
    active: set<nat>)

  predicate StoredRank(n: int) {
    0 < n < INT_LIMIT
  }

  predicate StoredRow(d: Row) {
    && 2 <= |d.slug| <= 120
    && StoredRank(d.editorial)
    && (d.featured.Some? ==> StoredRank(d.featured.value))
    && (d.popular.Some? ==> StoredRank(d.popular.value))
  }

  /** The checks and unique indexes of the catalogue tables. */
  predicate Stored(s: Store) {
    match s
    case Store(destinations, _, _, media, _) =>
      && (forall i :: 0 <= i < |destinations| ==> StoredRow(destinations[i]))
      && (forall i, j :: 0 <= i < j < |destinations| ==>
            destinations[i].id != destinations[j].id && destinations[i].slug != destinations[j].slug)
      && (forall i, j :: 0 <= i < j < |media| && media[i].cover && media[j].cover ==>
           media[i].destination != media[j].destination)
  }

  // ---------------------------------------------------------------- the query

  datatype Collection = Suggested | Popular | Featured

  /** The active cover images joined to a destination. */
  function Covers(media: seq<Attachment>, active: set<nat>, id: nat): seq<nat> {
    if media == [] then []
    else
      (if media[0].destination == id && media[0].cover && media[0].asset in active then [media[0].asset] else [])
      + Covers(media[1..], active, id)
  }

  predicate HasCover(s: Store, id: nat) {
    Covers(s.media, s.active, id) != []
  }

  function StyleMatches(s: Store, id: nat, styles: seq<Style>): int {
    |set r | r in s.styles && r.0 == id && r.1 in styles|
  }

  function InterestMatches(s: Store, id: nat, interests: seq<Interest>): int {
    |set r | r in s.interests && r.0 == id && r.1 in interests|
  }

  const BUDGETS := [Budget, MidRange, Premium, Luxury]

  function IndexOf(tiers: seq<BudgetTier>, tier: BudgetTier): nat {
    if tiers == [] || tiers[0] == tier then 0 else 1 + IndexOf(tiers[1..], tier)
  }

  /** The case expression built for one preference, evaluated on a stored tier. */
  function BudgetCase(selected: BudgetTier, stored: BudgetTier): int {
    BudgetScore(Abs(IndexOf(BUDGETS, stored) - IndexOf(BUDGETS, selected)))
  }

  function Score(s: Store, d: Row, p: Preference): int {
    StyleMatches(s, d.id, p.styles) * STYLE_MATCH_SCORE
    + InterestMatches(s, d.id, p.interests) * INTEREST_MATCH_SCORE
    + (if p.budget.None? then 0 else BudgetCase(p.budget.value, d.budget))
  }

  predicate InScope(d: Row, p: Preference, scope: Scope) {
    match scope
    case Both => true
    case Local => p.home.Some? && d.country == p.home.value
    case International => p.home.Some? && d.country != p.home.value
  }

  /** The rank a row is listed with, if the filters let it through. */
  function RankOf(s: Store, collection: Collection, p: Preference, scope: Scope, d: Row): Option<int> {
    if !d.published || !HasCover(s, d.id) then None
    else
      match collection
      case Suggested => if InScope(d, p, scope) && Score(s, d, p) > 0 then Some(-Score(s, d, p)) else None
      case Popular => d.popular
      case Featured => d.featured
  }

  function Ranked(s: Store, collection: Collection, p: Preference, scope: Scope, rows: seq<Row>): seq<Keyed<Row>> {
    if rows == [] then []
    else
      (match RankOf(s, collection, p, scope, rows[0])
       case None => []
       case Some(rank) => [Keyed(Key(rank, rows[0].editorial, rows[0].slug), rows[0])])
      + Ranked(s, collection, p, scope, rows[1..])
  }

  function Beyond<T>(before: (string, string) -> bool, rows: seq<Keyed<T>>, after: Option<Key>): seq<Keyed<T>> {
    if rows == [] then []
    else
      (if after.None? || KeyBefore(before, after.value, rows[0].key) then [rows[0]] else [])
        + Beyond(before, rows[1..], after)
  }

  function Take<T>(s: seq<T>, n: nat): seq<T> {
    if |s| <= n then s else s[..n]
  }

  function Card(s: Store, d: Row, cover: nat): Candidate {
    Candidate(
      d.id, d.slug, d.country, d.budget,
      set r | r in s.styles && r.0 == d.id :: r.1,
      set r | r in s.interests && r.0 == d.id :: r.1,
      cover, d.editorial, d.featured, d.popular)
  }

  function CardsWith(s: Store, row: Keyed<Row>, covers: seq<nat>): seq<Keyed<Candidate>> {
    seq(|covers|, i requires 0 <= i < |covers| => Keyed(row.key, Card(s, row.value, covers[i])))
  }

  /** The join with cover images: a row for every active cover. */
  function Joined(s: Store, page: seq<Keyed<Row>>): seq<Keyed<Candidate>> {
    if page == [] then []
    else CardsWith(s, page[0], Covers(s.media, s.active, page[0].value.id)) + Joined(s, page[1..])
  }

  datatype ListError = BadLimit | InvalidCursor | BadPayload

  predicate Answerable(collection: Collection, p: Preference, scope: Scope) {
    collection.Suggested? ==> p.PersonalizationReady() && (scope.Both? || p.home.Some?)
  }

  function ListRanked(before: (string, string) -> bool, s: Store, collection: Collection, p: Preference, scope: Scope,
                      limit: int, after: Option<Key>): Result<seq<Keyed<Candidate>>, ListError> {
    if !(1 <= limit <= 51) then Failure(BadLimit)
    else if !Answerable(collection, p, scope) then Success([])
    else
      var page := Take(Sort(before, Beyond(before, Ranked(s, collection, p, scope, s.destinations), after)), limit);
      Success(Sort(before, Joined(s, page)))
  }

  // ---------------------------------------------------------------- the service

  const MAX_PAGE_SIZE := 50

  datatype Page = Page(items: seq<Candidate>, next: Option<string>)

  /** What the digest in a suggested context is computed from; tags are sorted first. */
  datatype Fingerprint = Fingerprint(
    user: nat, styles: multiset<Style>, interests: multiset<Interest>, budget: Option<BudgetTier>, pace: Option<Pace>,
    country: Option<string>)

  datatype Environment = Environment(before: (string, string) -> bool, digest: Fingerprint -> string)

  /** Slugs are totally ordered, and a digest is 64 characters that JSON writes as they are. */
  ghost predicate Faithful(e: Environment) {
    match e
    case Environment(before, digest) =>
      && TotalOrder(before)
      && (forall f :: |digest(f)| == 64 && Plain(digest(f)))
  }

  /** The digest tells these two profiles apart, unless they have the same ranking inputs. */
  predicate Distinguishes(e: Environment, p: Preference, q: Preference) {
    e.digest(FingerprintOf(p)) == e.digest(FingerprintOf(q)) ==> FingerprintOf(p) == FingerprintOf(q)
  }

  function FingerprintOf(p: Preference): Fingerprint {
    Fingerprint(p.user, multiset(p.styles), multiset(p.interests), p.budget, p.pace, p.home)
  }

  function CollectionName(collection: Collection): string {
    match collection
    case Suggested => "suggested"
    case Popular => "popular"
    case Featured => "featured"
  }

  function ScopeName(scope: Scope): string {
    match scope
    case Local => "local"
    case International => "international"
    case Both => "both"
  }

  function Context(e: Environment, collection: Collection, scope: Scope, p: Preference): string {
    "destinations:" + (CollectionName(collection) + (":" + (ScopeName(scope) + (":" +
    if collection.Suggested? then e.digest(FingerprintOf(p)) else ""))))
  }

  function ResolvedScope(collection: Collection, scope: Option<Scope>, p: Preference): Scope {
    if !collection.Suggested? then Both else if scope.Some? then scope.value else p.scope
  }

  predicate ValidPosition(collection: Collection, key: Key) {
    key.editorial >= 1 && if collection.Suggested? then key.rank < 0 else key.rank > 0
  }

  function ListDestinations(e: Environment, s: Store, p: Preference, collection: Collection, scope: Option<Scope>,
                            limit: int, cursor: Option<string>): Result<Page, ListError> {
    if !(1 <= limit <= MAX_PAGE_SIZE) then Failure(BadLimit)
    else if cursor.Some? && Decode(cursor.value).None? then Failure(InvalidCursor)
    else
      var resolved := ResolvedScope(collection, scope, p);
      var context := Context(e, collection, resolved, p);
      var payload := if cursor.Some? then Decode(cursor.value) else None;
      if payload.Some? && payload.value.context != context then Failure(InvalidCursor)
      else if payload.Some? && !ValidPosition(collection, payload.value.key) then Failure(InvalidCursor)
      else
        var after := if payload.Some? then Some(payload.value.key) else None;
        match ListRanked(e.before, s, collection, p, resolved, limit + 1, after)
        case Failure(error) => Failure(error)
        case Success(rows) => PageOf(Issuer(context), rows, limit)
  }

  /** How a position of one listing becomes a cursor. */
  function Issuer(context: string): Key -> Option<string> {
    key => Encode(context, key)
  }

  function PageOf(issue: Key -> Option<string>, rows: seq<Keyed<Candidate>>, limit: int): Result<Page, ListError>
    requires limit > 0
  {
    var items := Take(rows, limit);
    if |rows| <= limit then Success(Page(Values(items), None))
    else
      match issue(items[|items| - 1].key)
      case None => Failure(BadPayload)
      case Some(next) => Success(Page(Values(items), Some(next)))
  }

  // ---------------------------------------------------------------- the query's score is the reference score

  lemma {:induction false} PairCount<T(!new)>(rows: set<(nat, T)>, id: nat, tags: set<T>)
    requires forall r :: r in rows ==> r.0 == id
    requires forall t :: t in tags <==> (id, t) in rows
    ensures |rows| == |tags|
  {
    if rows == {} {
      forall t ensures t !in tags {
      }
    } else {
      var r :| r in rows;
      PairCount(rows - {r}, id, tags - {r.1});
    }
  }

  lemma StylesAgree(s: Store, d: Row, p: Preference, cover: nat)
    ensures StyleMatches(s, d.id, p.styles) == |Elements(p.styles) * Card(s, d, cover).styles|
  {
    var rows := set r | r in s.styles && r.0 == d.id && r.1 in p.styles;
    PairCount(rows, d.id, Elements(p.styles) * Card(s, d, cover).styles);
  }

  lemma InterestsAgree(s: Store, d: Row, p: Preference, cover: nat)
    ensures InterestMatches(s, d.id, p.interests) == |Elements(p.interests) * Card(s, d, cover).interests|
  {
    var rows := set r | r in s.interests && r.0 == d.id && r.1 in p.interests;
    PairCount(rows, d.id, Elements(p.interests) * Card(s, d, cover).interests);
  }

  /** Counting matching tag rows is the same as intersecting sets of tags, however often a tag is preferred. */
  lemma ScoresAgree(s: Store, d: Row, p: Preference, cover: nat)
    ensures Score(s, d, p) == PreferenceScore(Card(s, d, cover), p)
  {
    StylesAgree(s, d, p, cover);
    InterestsAgree(s, d, p, cover);
    if p.budget.Some? {
      BudgetsAreOrdered(p.budget.value);
      BudgetsAreOrdered(d.budget);
    }
  }

  lemma BudgetsAreOrdered(tier: BudgetTier)
    ensures IndexOf(BUDGETS, tier) == BudgetOrder(tier)
  {
    assert BUDGETS[1..] == [MidRange, Premium, Luxury];
    assert BUDGETS[1..][1..] == [Premium, Luxury];
    assert BUDGETS[1..][1..][1..] == [Luxury];
  }
}
