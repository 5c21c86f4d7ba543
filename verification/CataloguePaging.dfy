/** Whole runs of the listing endpoint: following cursors visits the reference ranking and then stops. */
module CataloguePaging {
  import opened Preferences
  import opened TextOrder
  import opened Wrappers
  import opened Encodings
  import opened Collections
  import opened CursorText
  import opened DestinationRanking
  import opened DestinationCatalogue
  import opened CatalogueWalk

  // ---------------------------------------------------------------- environments

  /** Comparing slugs character by character, with a digest of the right shape, is an environment. */
  lemma FaithfulEnvironment() returns (e: Environment)
    ensures Faithful(e)
  {
    BeforeIsTotalOrder();
    var digest := Repeat('0', 64);
    RepeatIsPlain('0', 64);
    e := Environment((a, b) => Before(a, b), (f: Fingerprint) => digest);
  }

  lemma {:induction false} RepeatIsPlain(c: char, n: nat)
    requires Plain([c])
    ensures |Repeat(c, n)| == n && Plain(Repeat(c, n))
  {
    if n > 0 {
      RepeatIsPlain(c, n - 1);
      assert [c][0] == c;
    }
  }

  // ---------------------------------------------------------------- stored keys are encodable

  /** Six styles, nine interests and the best budget match add up to 308. */
  lemma ScoreIsBounded(c: Candidate, p: Preference)
    ensures 0 <= PreferenceScore(c, p) <= 308
  {
    var styles := {Beaches, Adventure, Food, LuxuryTravel, Nature, Culture};
    var interests := {Hiking, Photography, Nightlife, Wellness, History, Wildlife, Shopping, LocalCulture, Events};
    forall t: Style ensures t in styles {
      assert t.Beaches? || t.Adventure? || t.Food? || t.LuxuryTravel? || t.Nature? || t.Culture?;
    }
    forall t: Interest ensures t in interests {
      assert t.Hiking? || t.Photography? || t.Nightlife? || t.Wellness? || t.History? || t.Wildlife? || t.Shopping?
             || t.LocalCulture? || t.Events?;
    }
    SubsetSize(Elements(p.styles) * c.styles, styles);
    SubsetSize(Elements(p.interests) * c.interests, interests);
    assert |styles| == 6 && |interests| == 9;
  }

  lemma ListedKeyIsValid(s: Store, collection: Collection, p: Preference, scope: Scope, d: Row, k: Key, context: string)
    requires Stored(s) && d in s.destinations && Lists(s, collection, p, scope, d, k)
    ensures ValidPosition(collection, k) && Encode(context, k).Some? && k.slug == d.slug
  {
    if collection.Suggested? {
      ScoresAgree(s, d, p, 0);
      ScoreIsBounded(Card(s, d, 0), p);
    }
  }

  // ---------------------------------------------------------------- contexts

  lemma ContextIsShort(e: Environment, collection: Collection, scope: Scope, p: Preference)
    requires Faithful(e)
    ensures 26 <= |Context(e, collection, scope, p)| <= 101
  {
  }

  lemma PlainConcat(a: string, b: string)
    ensures Plain(a + b) <==> Plain(a) && Plain(b)
  {
    if Plain(a + b) {
      assert forall i :: 0 <= i < |a| ==> a[i] == (a + b)[i];
      assert forall i :: 0 <= i < |b| ==> b[i] == (a + b)[|a| + i];
    }
  }

  lemma ContextIsPlain(e: Environment, collection: Collection, scope: Scope, p: Preference)
    requires Faithful(e)
    ensures Plain(Context(e, collection, scope, p))
  {
    var digest := if collection.Suggested? then e.digest(FingerprintOf(p)) else "";
    PlainConcat(":", digest);
    PlainConcat(ScopeName(scope), ":" + digest);
    PlainConcat(":", ScopeName(scope) + (":" + digest));
    PlainConcat(CollectionName(collection), ":" + (ScopeName(scope) + (":" + digest)));
    PlainConcat("destinations:", CollectionName(collection) + (":" + (ScopeName(scope) + (":" + digest))));
  }

  /** Equal contexts mean the same collection and scope and, for suggestions, the same digest of the ranking inputs. */
  lemma ContextsAreBinding(e: Environment, a: Collection, b: Collection, q: Scope, r: Scope, m: Preference,
                           n: Preference)
    ensures Context(e, a, q, m) == Context(e, b, r, n) <==>
            a == b && q == r && (a.Suggested? ==> e.digest(FingerprintOf(m)) == e.digest(FingerprintOf(n)))
  {
    if Context(e, a, q, m) == Context(e, b, r, n) {
      EqualContextsAgree(e, a, b, q, r, m, n);
    }
  }

  lemma EqualContextsAgree(e: Environment, a: Collection, b: Collection, q: Scope, r: Scope, m: Preference,
                           n: Preference)
    requires Context(e, a, q, m) == Context(e, b, r, n)
    ensures a == b && q == r && (a.Suggested? ==> e.digest(FingerprintOf(m)) == e.digest(FingerprintOf(n)))
  {
    var x := if a.Suggested? then e.digest(FingerprintOf(m)) else "";
    var y := if b.Suggested? then e.digest(FingerprintOf(n)) else "";
    var t := ":" + (ScopeName(q) + (":" + x));
    var u := ":" + (ScopeName(r) + (":" + y));
    SameTail("destinations:", CollectionName(a) + t, CollectionName(b) + u);
    assert (CollectionName(a) + t)[0] == CollectionName(a)[0] && (CollectionName(b) + u)[0] == CollectionName(b)[0];
    assert a == b;
    SameTail(CollectionName(a), t, u);
    SameTail(":", ScopeName(q) + (":" + x), ScopeName(r) + (":" + y));
    assert (ScopeName(q) + (":" + x))[0] == ScopeName(q)[0] && (ScopeName(r) + (":" + y))[0] == ScopeName(r)[0];
    assert q == r;
    SameTail(ScopeName(q), ":" + x, ":" + y);
    SameTail(":", x, y);
  }

  lemma SameTail(front: string, x: string, y: string)
    requires front + x == front + y
    ensures x == y
  {
    assert x == (front + x)[|front|..] && y == (front + y)[|front|..];
  }

  /** A cursor issued for other ranking inputs is refused, unless their digests collide. */
  lemma ForeignCursorIsRefused(e: Environment, s: Store, collection: Collection, p: Preference, scope: Option<Scope>,
                               limit: int, other: Collection, q: Preference, otherScope: Scope, key: Key)
    requires 1 <= limit <= MAX_PAGE_SIZE
    requires Encode(Context(e, other, otherScope, q), key).Some?
    requires || other != collection
             || otherScope != ResolvedScope(collection, scope, p)
             || (collection.Suggested? && FingerprintOf(p) != FingerprintOf(q) && Distinguishes(e, p, q))
    ensures ListDestinations(e, s, p, collection, scope, limit, Encode(Context(e, other, otherScope, q), key))
            == Failure(InvalidCursor)
  {
    ContextsAreBinding(e, collection, other, ResolvedScope(collection, scope, p), otherScope, p, q);
    IssuedCursorDecodes(Context(e, other, otherScope, q), key);
  }

  /** What the digest is computed from is all that the ranking depends on. */
  lemma SameInputsSameScore(p: Preference, q: Preference, d: Candidate)
    requires FingerprintOf(p) == FingerprintOf(q)
    ensures PreferenceScore(d, p) == PreferenceScore(d, q)
  {
    assert forall x :: x in p.styles <==> x in multiset(q.styles);
    assert forall x :: x in p.interests <==> x in multiset(q.interests);
    assert Elements(p.styles) == Elements(q.styles) && Elements(p.interests) == Elements(q.interests);
  }

  lemma {:induction false} SameInputsSameEntries(p: Preference, q: Preference, catalogue: seq<Candidate>, scope: Scope)
    requires FingerprintOf(p) == FingerprintOf(q)
    ensures Scored(catalogue, p, scope) == Scored(catalogue, q, scope)
  {
    if catalogue != [] {
      SameInputsSameScore(p, q, catalogue[0]);
      SameInputsSameEntries(p, q, catalogue[1..], scope);
    }
  }

  lemma {:induction false} SameInputsSameCut(p: Preference, q: Preference, entries: seq<Keyed<Candidate>>)
    requires FingerprintOf(p) == FingerprintOf(q)
    ensures Positive(entries, p) == Positive(entries, q)
  {
    if entries != [] {
      SameInputsSameScore(p, q, entries[0].value);
      SameInputsSameCut(p, q, entries[1..]);
    }
  }

  /**
   A cursor that is taken back was issued for the very ranking it is used on: equal contexts mean
   equal rankings, whoever asks, unless two different profiles share a digest.
   */
  lemma EqualContextsRankAlike(e: Environment, s: Store, a: Collection, b: Collection, q: Scope, r: Scope,
                               m: Preference, n: Preference)
    requires Context(e, a, q, m) == Context(e, b, r, n) && Distinguishes(e, m, n)
    ensures Reference(e.before, s, a, m, q) == Reference(e.before, s, b, n, r)
  {
    EqualContextsAgree(e, a, b, q, r, m, n);
    if a.Suggested? {
      var catalogue := Catalogue(s, s.destinations);
      SameInputsSameEntries(m, n, catalogue, q);
      SameInputsSameCut(m, n, Sort(e.before, Scored(catalogue, m, q)));
      assert m.PersonalizationReady() <==> n.PersonalizationReady() by { SameInputsReady(m, n); }
    }
  }

  lemma SameInputsReady(p: Preference, q: Preference)
    requires FingerprintOf(p) == FingerprintOf(q)
    ensures p.PersonalizationReady() <==> q.PersonalizationReady()
  {
    assert |multiset(p.styles)| == |p.styles| && |multiset(p.interests)| == |p.interests|;
    assert |multiset(q.styles)| == |q.styles| && |multiset(q.interests)| == |q.interests|;
  }

  // ---------------------------------------------------------------- one call

  function Position(issue: Key -> Option<string>, rows: seq<Keyed<Row>>, i: nat): Option<string>
    requires i <= |rows|
  {
    if i == 0 then None else issue(rows[i - 1].key)
  }

  /** Every key a page can stop at with rows left makes a payload the decoder takes back. */
  ghost predicate CursorsFit(context: string, rows: seq<Keyed<Row>>) {
    forall i :: 0 <= i < |rows| - 1 ==> PayloadBytes(context, rows[i].key) <= MAX_PAYLOAD_BYTES
  }

  /** Every key passes the checks on a decoded position, and can be encoded. */
  ghost predicate ValidKeys(collection: Collection, issue: Key -> Option<string>, rows: seq<Keyed<Row>>) {
    forall i :: 0 <= i < |rows| ==> ValidPosition(collection, rows[i].key) && issue(rows[i].key).Some?
  }

  lemma RowsAreValid(before: (string, string) -> bool, s: Store, collection: Collection, p: Preference, scope: Scope,
                     context: string)
    requires TotalOrder(before) && Stored(s)
    ensures ValidKeys(collection, Issuer(context), OrderedRows(before, s, collection, p, scope))
  {
    var rows := OrderedRows(before, s, collection, p, scope);
    if Answerable(collection, p, scope) {
      OrderedRowsAre(before, s, collection, p, scope);
      forall i | 0 <= i < |rows| ensures ValidPosition(collection, rows[i].key) && Issuer(context)(rows[i].key).Some? {
        assert rows[i] in rows;
        ListedKeyIsValid(s, collection, p, scope, rows[i].value, rows[i].key, context);
      }
    }
  }

  /** The answer carries the cards from `i` to `j`, and the position after them if any are left. */
  ghost predicate Serves(s: Store, issue: Key -> Option<string>, rows: seq<Keyed<Row>>, i: nat, j: nat,
                         answer: Result<Page, ListError>) {
    match answer
    case Failure(_) => false
    case Success(page) =>
      && i <= j <= |rows|
      && AllCovered(s, rows[i..j])
      && page.items == Values(Cards(s, rows[i..j]))
      && page.next == if j < |rows| then Position(issue, rows, j) else None
  }

  /** A cursor of this listing passes every check and becomes the key to seek past. */
  lemma CursorReachesQuery(e: Environment, s: Store, p: Preference, collection: Collection, scope: Option<Scope>,
                           limit: nat, key: Option<Key>)
    requires 1 <= limit <= MAX_PAGE_SIZE
    requires var context := Context(e, collection, ResolvedScope(collection, scope, p), p);
             key.Some? ==>
               && Encode(context, key.value).Some?
               && ValidPosition(collection, key.value)
               && PayloadBytes(context, key.value) <= MAX_PAYLOAD_BYTES
    ensures var resolved := ResolvedScope(collection, scope, p);
            var context := Context(e, collection, resolved, p);
            ListDestinations(e, s, p, collection, scope, limit, if key.None? then None else Encode(context, key.value))
            == Answer(Issuer(context), ListRanked(e.before, s, collection, p, resolved, limit + 1, key), limit)
  {
    if key.Some? {
      IssuedCursorDecodes(Context(e, collection, ResolvedScope(collection, scope, p), p), key.value);
    }
  }

  /** Asking for a page at the i-th position returns the next cards and the position after them. */
  lemma ServedPage(e: Environment, s: Store, p: Preference, collection: Collection, scope: Option<Scope>, limit: nat,
                   context: string, rows: seq<Keyed<Row>>, i: nat)
    requires Faithful(e) && Stored(s) && 1 <= limit <= MAX_PAGE_SIZE
    requires context == Context(e, collection, ResolvedScope(collection, scope, p), p)
    requires rows == OrderedRows(e.before, s, collection, p, ResolvedScope(collection, scope, p)) && i <= |rows|
    requires i > 0 ==> PayloadBytes(context, rows[i - 1].key) <= MAX_PAYLOAD_BYTES
    ensures Serves(s, Issuer(context), rows, i, End(|rows|, i, limit),
                   ListDestinations(e, s, p, collection, scope, limit, Position(Issuer(context), rows, i)))
  {
    var resolved := ResolvedScope(collection, scope, p);
    var query := ListRanked(e.before, s, collection, p, resolved, limit + 1, KeyAt(rows, i));
    var issue := Issuer(context);
    var answer := ListDestinations(e, s, p, collection, scope, limit, Position(issue, rows, i));
    assert ValidKeys(collection, issue, rows) by {
      RowsAreValid(e.before, s, collection, p, resolved, context);
    }
    assert answer == Answer(issue, query, limit) by {
      PositionReachesQuery(e, s, p, collection, scope, limit, context, rows, i);
    }
    assert IsSlice(s, rows, i, limit + 1, query) by {
      SeekPageIsSlice(e.before, s, collection, p, resolved, limit + 1, rows, i);
    }
    SliceIsServed(s, issue, rows, i, limit, query);
  }

  lemma PositionReachesQuery(e: Environment, s: Store, p: Preference, collection: Collection, scope: Option<Scope>,
                             limit: nat, context: string, rows: seq<Keyed<Row>>, i: nat)
    requires 1 <= limit <= MAX_PAGE_SIZE && i <= |rows|
    requires context == Context(e, collection, ResolvedScope(collection, scope, p), p)
    requires i > 0 ==>
               && Issuer(context)(rows[i - 1].key).Some?
               && ValidPosition(collection, rows[i - 1].key)
               && PayloadBytes(context, rows[i - 1].key) <= MAX_PAYLOAD_BYTES
    ensures var query := ListRanked(e.before, s, collection, p, ResolvedScope(collection, scope, p), limit + 1,
                                    KeyAt(rows, i));
            ListDestinations(e, s, p, collection, scope, limit, Position(Issuer(context), rows, i))
            == Answer(Issuer(context), query, limit)
  {
    CursorReachesQuery(e, s, p, collection, scope, limit, KeyAt(rows, i));
  }

  function Answer(issue: Key -> Option<string>, query: Result<seq<Keyed<Candidate>>, ListError>,
                  limit: nat): Result<Page, ListError>
    requires limit > 0
  {
    match query
    case Failure(error) => Failure(error)
    case Success(rows) => PageOf(issue, rows, limit)
  }

  /** Reading one row too many tells whether to hand out a cursor. */
  lemma SliceIsServed(s: Store, issue: Key -> Option<string>, rows: seq<Keyed<Row>>, i: nat, limit: nat,
                      query: Result<seq<Keyed<Candidate>>, ListError>)
    requires i <= |rows| && limit > 0
    requires IsSlice(s, rows, i, limit + 1, query)
    requires forall k :: 0 <= k < |rows| ==> issue(rows[k].key).Some?
    ensures Serves(s, issue, rows, i, End(|rows|, i, limit), Answer(issue, query, limit))
  {
    FirstCards(s, rows, i, limit);
    var j, items := End(|rows|, i, limit), Take(query.value, limit);
    if |query.value| > limit {
      assert items[|items| - 1].key == rows[j - 1].key;
      assert issue(items[|items| - 1].key) == Position(issue, rows, j);
    }
  }

  lemma FirstCards(s: Store, rows: seq<Keyed<Row>>, i: nat, limit: nat)
    requires i <= |rows| && AllCovered(s, rows[i..End(|rows|, i, limit + 1)])
    ensures AllCovered(s, rows[i..End(|rows|, i, limit)])
    ensures Take(Cards(s, rows[i..End(|rows|, i, limit + 1)]), limit) == Cards(s, rows[i..End(|rows|, i, limit)])
  {
    var j, wide := End(|rows|, i, limit), rows[i..End(|rows|, i, limit + 1)];
    forall k | 0 <= k < j - i ensures HasCover(s, rows[i..j][k].value.id) {
      assert rows[i..j][k] == wide[k];
    }
  }

  // ---------------------------------------------------------------- whole walks

  type Endpoint = (nat, Option<string>) -> Result<Page, ListError>

  /** The listing endpoint as one client sees it: only the page size and the cursor vary. */
  function Listing(e: Environment, s: Store, p: Preference, collection: Collection, scope: Option<Scope>): Endpoint {
    (limit: nat, cursor: Option<string>) => ListDestinations(e, s, p, collection, scope, limit, cursor)
  }

  /** A client that follows `next` for the given page sizes, or until there is none. */
  function Follow(fetch: Endpoint, sizes: seq<nat>, cursor: Option<string>): Result<Page, ListError>
    requires sizes != []
    decreases |sizes|
  {
    match fetch(sizes[0], cursor)
    case Failure(error) => Failure(error)
    case Success(page) =>
      if page.next.None? || |sizes| == 1 then Success(page)
      else
        match Follow(fetch, sizes[1..], page.next)
        case Failure(error) => Failure(error)
        case Success(rest) => Success(Page(page.items + rest.items, rest.next))
  }

  function Sum(sizes: seq<nat>): nat {
    if sizes == [] then 0 else sizes[0] + Sum(sizes[1..])
  }

  predicate PageSizes(sizes: seq<nat>) {
    forall i :: 0 <= i < |sizes| ==> 1 <= sizes[i] <= MAX_PAGE_SIZE
  }

  /** Every page the endpoint serves from a position of the listing is the next piece of it. */
  ghost predicate ServesAll(fetch: Endpoint, s: Store, issue: Key -> Option<string>, rows: seq<Keyed<Row>>) {
    && (forall i :: 0 <= i < |rows| ==> issue(rows[i].key).Some?)
    && (forall limit: nat, i: nat :: 1 <= limit <= MAX_PAGE_SIZE && (i == 0 || i < |rows|) ==>
          Serves(s, issue, rows, i, End(|rows|, i, limit), fetch(limit, Position(issue, rows, i))))
  }

  lemma {:induction false} FollowFrom(fetch: Endpoint, s: Store, issue: Key -> Option<string>, rows: seq<Keyed<Row>>,
                                      sizes: seq<nat>, i: nat)
    requires ServesAll(fetch, s, issue, rows) && sizes != [] && PageSizes(sizes) && (i == 0 || i < |rows|)
    ensures Serves(s, issue, rows, i, End(|rows|, i, Sum(sizes)), Follow(fetch, sizes, Position(issue, rows, i)))
    decreases |sizes|
  {
    var k := End(|rows|, i, sizes[0]);
    var first := fetch(sizes[0], Position(issue, rows, i));
    assert Serves(s, issue, rows, i, k, first);
    EndOfSum(|rows|, i, sizes);
    if k < |rows| && |sizes| > 1 {
      FollowFrom(fetch, s, issue, rows, sizes[1..], k);
      PagesConcat(s, issue, rows, i, k, End(|rows|, i, Sum(sizes)), first, Follow(fetch, sizes[1..], first.value.next));
    }
  }

  lemma ListingServesAll(e: Environment, s: Store, p: Preference, collection: Collection, scope: Option<Scope>)
    requires Faithful(e) && Stored(s)
    requires var resolved := ResolvedScope(collection, scope, p);
             CursorsFit(Context(e, collection, resolved, p), OrderedRows(e.before, s, collection, p, resolved))
    ensures var resolved := ResolvedScope(collection, scope, p);
            ServesAll(Listing(e, s, p, collection, scope), s, Issuer(Context(e, collection, resolved, p)),
                      OrderedRows(e.before, s, collection, p, resolved))
  {
    var resolved := ResolvedScope(collection, scope, p);
    var context := Context(e, collection, resolved, p);
    var rows := OrderedRows(e.before, s, collection, p, resolved);
    RowsAreValid(e.before, s, collection, p, resolved, context);
    var issue := Issuer(context);
    forall limit: nat, i: nat | 1 <= limit <= MAX_PAGE_SIZE && (i == 0 || i < |rows|)
      ensures Serves(s, issue, rows, i, End(|rows|, i, limit),
                     Listing(e, s, p, collection, scope)(limit, Position(issue, rows, i)))
    {
      ServedPage(e, s, p, collection, scope, limit, context, rows, i);
    }
  }

  lemma PagesConcat(s: Store, issue: Key -> Option<string>, rows: seq<Keyed<Row>>, i: nat, k: nat, j: nat,
                    first: Result<Page, ListError>,
                    rest: Result<Page, ListError>)
    requires Serves(s, issue, rows, i, k, first) && Serves(s, issue, rows, k, j, rest)
    ensures Serves(s, issue, rows, i, j, Success(Page(first.value.items + rest.value.items, rest.value.next)))
  {
    CardsConcat(s, rows, i, k, j);
  }

  lemma EndOfSum(length: nat, i: nat, sizes: seq<nat>)
    requires i <= length && sizes != []
    ensures End(length, End(length, i, sizes[0]), Sum(sizes[1..])) == End(length, i, Sum(sizes))
    ensures |sizes| == 1 || End(length, i, sizes[0]) == length ==>
              End(length, i, sizes[0]) == End(length, i, Sum(sizes))
  {
    assert |sizes| == 1 ==> Sum(sizes[1..]) == 0;
  }

  lemma CardsConcat(s: Store, rows: seq<Keyed<Row>>, i: nat, k: nat, j: nat)
    requires i <= k <= j <= |rows| && AllCovered(s, rows[i..k]) && AllCovered(s, rows[k..j])
    ensures AllCovered(s, rows[i..j])
    ensures Values(Cards(s, rows[i..k])) + Values(Cards(s, rows[k..j])) == Values(Cards(s, rows[i..j]))
  {
    assert rows[i..j] == rows[i..k] + rows[k..j];
  }

  /**
   The pages concatenate to the first destinations of the reference ranking, as many as were asked
   for; there is a further cursor exactly while some are left.
   */
  lemma WalkIsReference(e: Environment, s: Store, p: Preference, collection: Collection, scope: Option<Scope>,
                        sizes: seq<nat>)
    requires Faithful(e) && Stored(s) && sizes != [] && PageSizes(sizes)
    requires var resolved := ResolvedScope(collection, scope, p);
             CursorsFit(Context(e, collection, resolved, p), OrderedRows(e.before, s, collection, p, resolved))
    ensures var ranking := Reference(e.before, s, collection, p, ResolvedScope(collection, scope, p));
            var walk := Follow(Listing(e, s, p, collection, scope), sizes, None);
            && walk.Success?
            && walk.value.items == Take(ranking, Sum(sizes))
            && (walk.value.next.None? <==> Sum(sizes) >= |ranking|)
  {
    var resolved := ResolvedScope(collection, scope, p);
    ListingServesAll(e, s, p, collection, scope);
    ListingIsReference(e.before, s, collection, p, resolved);
    WalkIsListing(Listing(e, s, p, collection, scope), s, Issuer(Context(e, collection, resolved, p)),
                  OrderedRows(e.before, s, collection, p, resolved), sizes);
  }

  lemma WalkIsListing(fetch: Endpoint, s: Store, issue: Key -> Option<string>, rows: seq<Keyed<Row>>, sizes: seq<nat>)
    requires ServesAll(fetch, s, issue, rows) && AllCovered(s, rows) && sizes != [] && PageSizes(sizes)
    ensures var walk := Follow(fetch, sizes, None);
            && walk.Success?
            && walk.value.items == Take(Values(Cards(s, rows)), Sum(sizes))
            && (walk.value.next.None? <==> Sum(sizes) >= |rows|)
  {
    FollowFrom(fetch, s, issue, rows, sizes, 0);
    var j := End(|rows|, 0, Sum(sizes));
    assert Values(Cards(s, rows[0..j])) == Values(Cards(s, rows))[..j];
    SumIsPositive(sizes);
  }

  lemma {:induction false} SumIsPositive(sizes: seq<nat>)
    requires PageSizes(sizes)
    ensures Sum(sizes) >= |sizes|
  {
    if sizes != [] {
      SumIsPositive(sizes[1..]);
    }
  }

  /**
   A request is refused exactly for a page size outside 1 to 50, or for a cursor that does not
   decode, belongs to another listing, or names a position no row of this listing can have.
   */
  lemma RefusedIff(e: Environment, s: Store, p: Preference, collection: Collection, scope: Option<Scope>, limit: int,
                   cursor: Option<string>)
    ensures var r := ListDestinations(e, s, p, collection, scope, limit, cursor);
            var asked := if collection != Suggested then Both else if scope.Some? then scope.value else p.scope;
            var context := Context(e, collection, asked, p);
            var understood :=
              cursor.Some? ==>
                && Decode(cursor.value).Some? && Decode(cursor.value).value.context == context
                && Decode(cursor.value).value.key.editorial > 0
                && (if collection == Suggested then Decode(cursor.value).value.key.rank < 0
                    else Decode(cursor.value).value.key.rank > 0);
            && (r == Failure(BadLimit) <==> limit < 1 || limit > 50)
            && (r == Failure(InvalidCursor) <==> 1 <= limit <= 50 && !understood)
  {
  }

  /** As many pages as there are destinations always reach the end, with the whole ranking in hand. */
  lemma WalkEnds(e: Environment, s: Store, p: Preference, collection: Collection, scope: Option<Scope>, sizes: seq<nat>)
    requires Faithful(e) && Stored(s) && sizes != [] && PageSizes(sizes)
    requires var resolved := ResolvedScope(collection, scope, p);
             && CursorsFit(Context(e, collection, resolved, p), OrderedRows(e.before, s, collection, p, resolved))
             && |sizes| >= |Reference(e.before, s, collection, p, resolved)|
    ensures Follow(Listing(e, s, p, collection, scope), sizes, None)
            == Success(Page(Reference(e.before, s, collection, p, ResolvedScope(collection, scope, p)), None))
  {
    WalkIsReference(e, s, p, collection, scope, sizes);
    SumIsPositive(sizes);
  }

  /** Slugs of printable ASCII, without quotes or backslashes, always make cursors that fit. */
  lemma PlainSlugsFit(e: Environment, s: Store, p: Preference, collection: Collection, scope: Scope)
    requires Faithful(e) && Stored(s)
    requires forall i :: 0 <= i < |s.destinations| ==> Plain(s.destinations[i].slug)
    ensures CursorsFit(Context(e, collection, scope, p), OrderedRows(e.before, s, collection, p, scope))
  {
    var context := Context(e, collection, scope, p);
    var rows := OrderedRows(e.before, s, collection, p, scope);
    if Answerable(collection, p, scope) {
      OrderedRowsAre(e.before, s, collection, p, scope);
      ContextIsShort(e, collection, scope, p);
      ContextIsPlain(e, collection, scope, p);
      forall i | 0 <= i < |rows| ensures PayloadBytes(context, rows[i].key) <= MAX_PAYLOAD_BYTES {
        assert rows[i] in rows;
        ListedKeyIsValid(s, collection, p, scope, rows[i].value, rows[i].key, context);
        PlainCursorFits(context, rows[i].key);
      }
    }
  }

  /**
   The cursor handed out at a position is taken back exactly when its payload fits; otherwise the walk breaks off
   there.
   */
  lemma NextCallWorksIffPayloadFits(e: Environment, s: Store, p: Preference, collection: Collection,
                                    scope: Option<Scope>, limit: nat, i: nat)
    requires Faithful(e) && Stored(s) && 1 <= limit <= MAX_PAGE_SIZE
    requires 0 < i <= |OrderedRows(e.before, s, collection, p, ResolvedScope(collection, scope, p))|
    ensures var resolved := ResolvedScope(collection, scope, p);
            var context := Context(e, collection, resolved, p);
            var rows := OrderedRows(e.before, s, collection, p, resolved);
            var answer := ListDestinations(e, s, p, collection, scope, limit, Position(Issuer(context), rows, i));
            if PayloadBytes(context, rows[i - 1].key) <= MAX_PAYLOAD_BYTES then answer.Success?
              else answer == Failure(InvalidCursor)
  {
    var resolved := ResolvedScope(collection, scope, p);
    var context := Context(e, collection, resolved, p);
    var rows := OrderedRows(e.before, s, collection, p, resolved);
    RowsAreValid(e.before, s, collection, p, resolved, context);
    if PayloadBytes(context, rows[i - 1].key) <= MAX_PAYLOAD_BYTES {
      ServedPage(e, s, p, collection, scope, limit, context, rows, i);
    } else {
      IssuedCursorDecodes(context, rows[i - 1].key);
    }
  }

  // ---------------------------------------------------------------- a stored slug that breaks the walk

  /** Slugs the table accepts: Hiragana letters have no case, so lower-casing leaves them alone. */
  const WIDE_SLUG := Repeat('\U{3042}', 120)

  const WIDE_ROW := Row(0, WIDE_SLUG, "JP", Budget, 1, None, Some(1), true)
  const PLAIN_ROW := Row(1, "kyoto", "JP", Budget, 1, None, Some(2), true)

  /** Two published destinations with covers. */
  const WIDE_STORE := Store(
    [WIDE_ROW, PLAIN_ROW], {}, {}, [Attachment(0, 0, true), Attachment(1, 1, true)], {0, 1})

  lemma WideStoreIsStored()
    ensures Stored(WIDE_STORE) && HasCover(WIDE_STORE, 0) && HasCover(WIDE_STORE, 1)
  {
    var media := WIDE_STORE.media;
    RepeatEnds('\U{3042}', 120);
    assert |WIDE_SLUG| != |"kyoto"|;
    assert Covers(media, {0, 1}, 0) == [0] + Covers(media[1..], {0, 1}, 0);
    assert media[1..] == [Attachment(1, 1, true)];
    assert Covers(media, {0, 1}, 1) == Covers(media[1..], {0, 1}, 1);
    assert Covers(media[1..], {0, 1}, 1) == [1] + Covers(media[1..][1..], {0, 1}, 1);
  }

  lemma WideRowsAreListed(before: (string, string) -> bool, p: Preference)
    requires TotalOrder(before)
    ensures OrderedRows(before, WIDE_STORE, Popular, p, Both)
            == [Keyed(Key(1, 1, WIDE_SLUG), WIDE_ROW), Keyed(Key(2, 1, "kyoto"), PLAIN_ROW)]
  {
    WideStoreIsStored();
    var first, second := Keyed(Key(1, 1, WIDE_SLUG), WIDE_ROW), Keyed(Key(2, 1, "kyoto"), PLAIN_ROW);
    var rows := WIDE_STORE.destinations;
    assert rows[1..] == [PLAIN_ROW] && rows[1..][1..] == [];
    assert Ranked(WIDE_STORE, Popular, p, Both, rows[1..]) == [second];
    assert Ranked(WIDE_STORE, Popular, p, Both, rows) == [first] + [second] == [first, second];
    AlreadySorted(before, [first, second]);
  }

  /**
   A catalogue the tables accept in which a client is handed a cursor that the very next call
   refuses, so that the second destination is never reached.
   */
  lemma WideSlugBreaksWalk(e: Environment, p: Preference)
    requires Faithful(e)
    ensures Stored(WIDE_STORE)
    ensures var fetch := Listing(e, WIDE_STORE, p, Popular, None);
            && fetch(1, None).Success?
            && fetch(1, None).value.next.Some?
            && fetch(1, fetch(1, None).value.next) == Failure(InvalidCursor)
            && |Reference(e.before, WIDE_STORE, Popular, p, Both)| == 2
  {
    var context := Context(e, Popular, Both, p);
    var rows := OrderedRows(e.before, WIDE_STORE, Popular, p, Both);
    WideStoreIsStored();
    WideRowsAreListed(e.before, p);
    RowsAreValid(e.before, WIDE_STORE, Popular, p, Both, context);
    ListingIsReference(e.before, WIDE_STORE, Popular, p, Both);
    ServedPage(e, WIDE_STORE, p, Popular, None, 1, context, rows, 0);
    ContextIsShort(e, Popular, Both, p);
    WideSlugDoesNotFit(context, 1, 1, '\U{3042}');
    NextCallWorksIffPayloadFits(e, WIDE_STORE, p, Popular, None, 1, 1);
  }
}
