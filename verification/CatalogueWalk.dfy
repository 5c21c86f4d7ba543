/**
 Reading the catalogue page by page yields the reference ranking: every eligible destination once,
 in order, whatever page sizes the client asks for.
 */
module CatalogueWalk {
  import opened Preferences
  import opened TextOrder
  import opened Wrappers
  import opened CursorText
  import opened DestinationRanking
  import opened DestinationCatalogue

  // ---------------------------------------------------------------- the whole listing

  function CardOf(s: Store, d: Row): Candidate
    requires HasCover(s, d.id)
  {
    Card(s, d, Covers(s.media, s.active, d.id)[0])
  }

  predicate AllCovered(s: Store, rows: seq<Keyed<Row>>) {
    forall i :: 0 <= i < |rows| ==> HasCover(s, rows[i].value.id)
  }

  function Cards(s: Store, rows: seq<Keyed<Row>>): seq<Keyed<Candidate>>
    requires AllCovered(s, rows)
  {
    seq(|rows|, i requires 0 <= i < |rows| => Keyed(rows[i].key, CardOf(s, rows[i].value)))
  }

  /** Every published destination with an active cover, as the reference ranking is given it. */
  function Catalogue(s: Store, rows: seq<Row>): seq<Candidate> {
    if rows == [] then []
    else (if rows[0].published && HasCover(s, rows[0].id) then [CardOf(s, rows[0])] else []) + Catalogue(s, rows[1..])
  }

  function Reference(before: (string, string) -> bool, s: Store, collection: Collection, p: Preference,
                     scope: Scope): seq<Candidate> {
    var catalogue := Catalogue(s, s.destinations);
    match collection
    case Suggested => RankSuggested(before, catalogue, p, scope)
    case Popular => RankPopular(before, catalogue)
    case Featured => RankFeatured(before, catalogue)
  }

  function OrderedRows(before: (string, string) -> bool, s: Store, collection: Collection, p: Preference,
                       scope: Scope): seq<Keyed<Row>> {
    if Answerable(collection, p, scope) then Sort(before, Ranked(s, collection, p, scope, s.destinations)) else []
  }

  // ---------------------------------------------------------------- one cover, one card

  lemma {:induction false} NoOtherCover(media: seq<Attachment>, active: set<nat>, id: nat)
    requires forall i :: 0 <= i < |media| && media[i].cover ==> media[i].destination != id
    ensures Covers(media, active, id) == []
  {
    if media != [] {
      NoOtherCover(media[1..], active, id);
    }
  }

  /** The unique index on covers keeps the join from multiplying rows. */
  lemma {:induction false} OneCover(media: seq<Attachment>, active: set<nat>, id: nat)
    requires forall i, j :: 0 <= i < j < |media| && media[i].cover && media[j].cover ==>
               media[i].destination != media[j].destination
    ensures |Covers(media, active, id)| <= 1
  {
    if media != [] {
      if media[0].cover && media[0].destination == id {
        NoOtherCover(media[1..], active, id);
      } else {
        OneCover(media[1..], active, id);
      }
    }
  }

  lemma {:induction false} JoinGivesOneCardEach(s: Store, page: seq<Keyed<Row>>)
    requires Stored(s) && AllCovered(s, page)
    ensures Joined(s, page) == Cards(s, page)
  {
    if page != [] {
      OneCover(s.media, s.active, page[0].value.id);
      JoinGivesOneCardEach(s, page[1..]);
      assert CardsWith(s, page[0], Covers(s.media, s.active, page[0].value.id))
        == [Keyed(page[0].key, CardOf(s, page[0].value))];
      assert Cards(s, page) == [Cards(s, page)[0]] + Cards(s, page)[1..];
      assert Cards(s, page)[1..] == Cards(s, page[1..]);
    }
  }

  // ---------------------------------------------------------------- rows listed by the query

  ghost predicate Lists(s: Store, collection: Collection, p: Preference, scope: Scope, d: Row, k: Key) {
    RankOf(s, collection, p, scope, d).Some? && k == Key(RankOf(s, collection, p, scope, d).value, d.editorial, d.slug)
  }

  lemma {:induction false} RankedMembers(s: Store, collection: Collection, p: Preference, scope: Scope, rows: seq<Row>,
                                         x: Keyed<Row>)
    ensures x in Ranked(s, collection, p, scope, rows)
            <==> x.value in rows && Lists(s, collection, p, scope, x.value, x.key)
  {
    if rows != [] {
      RankedMembers(s, collection, p, scope, rows[1..], x);
      assert rows == [rows[0]] + rows[1..];
    }
  }

  ghost predicate DistinctSlugs(rows: seq<Row>) {
    forall i, j :: 0 <= i < j < |rows| ==> rows[i].slug != rows[j].slug
  }

  lemma {:induction false} RankedKeysDiffer(s: Store, collection: Collection, p: Preference, scope: Scope,
                                            rows: seq<Row>)
    requires DistinctSlugs(rows)
    ensures DistinctKeys(Ranked(s, collection, p, scope, rows))
  {
    if rows != [] {
      var rest := Ranked(s, collection, p, scope, rows[1..]);
      RankedKeysDiffer(s, collection, p, scope, rows[1..]);
      forall i | 0 <= i < |rest| ensures rest[i].key.slug != rows[0].slug {
        RankedMembers(s, collection, p, scope, rows[1..], rest[i]);
      }
    }
  }

  lemma OrderedRowsAre(before: (string, string) -> bool, s: Store, collection: Collection, p: Preference, scope: Scope)
    requires TotalOrder(before) && Stored(s) && Answerable(collection, p, scope)
    ensures var rows := OrderedRows(before, s, collection, p, scope);
            && Ascending(before, rows) && AllCovered(s, rows)
            && multiset(rows) == multiset(Ranked(s, collection, p, scope, s.destinations))
            && forall x :: x in rows <==> x.value in s.destinations && Lists(s, collection, p, scope, x.value, x.key)
  {
    var ranked := Ranked(s, collection, p, scope, s.destinations);
    RankedKeysDiffer(s, collection, p, scope, s.destinations);
    SortSorts(before, ranked);
    var rows := OrderedRows(before, s, collection, p, scope);
    forall x ensures x in rows <==> x.value in s.destinations && Lists(s, collection, p, scope, x.value, x.key) {
      RankedMembers(s, collection, p, scope, s.destinations, x);
      assert x in rows <==> x in multiset(rows);
    }
    forall i | 0 <= i < |rows| ensures HasCover(s, rows[i].value.id) {
      assert rows[i] in rows;
    }
  }

  // ---------------------------------------------------------------- a seek page is a slice

  lemma {:induction false} BeyondMembers<T>(before: (string, string) -> bool, rows: seq<Keyed<T>>, after: Option<Key>,
                                            x: Keyed<T>)
    ensures x in Beyond(before, rows, after) <==> x in rows && (after.None? || KeyBefore(before, after.value, x.key))
  {
    if rows != [] {
      BeyondMembers(before, rows[1..], after, x);
      assert rows == [rows[0]] + rows[1..];
    }
  }

  lemma {:induction false} BeyondKeepsOrder<T>(before: (string, string) -> bool, rows: seq<Keyed<T>>,
                                               after: Option<Key>)
    requires Ascending(before, rows)
    ensures Ascending(before, Beyond(before, rows, after))
  {
    if rows != [] {
      var rest := Beyond(before, rows[1..], after);
      BeyondKeepsOrder(before, rows[1..], after);
      forall i | 0 <= i < |rest| ensures KeyBefore(before, rows[0].key, rest[i].key) {
        BeyondMembers(before, rows[1..], after, rest[i]);
      }
    }
  }

  lemma {:induction false} BeyondKeepsDistinct<T(!new)>(before: (string, string) -> bool, rows: seq<Keyed<T>>,
                                                 after: Option<Key>)
    requires DistinctKeys(rows)
    ensures DistinctKeys(Beyond(before, rows, after))
  {
    if rows != [] {
      var rest := Beyond(before, rows[1..], after);
      BeyondKeepsDistinct(before, rows[1..], after);
      forall i | 0 <= i < |rest| ensures rest[i].key != rows[0].key {
        BeyondMembers(before, rows[1..], after, rest[i]);
      }
    }
  }

  /** Filtering before or after sorting gives the same rows. */
  lemma SeekThenSort<T(!new)>(before: (string, string) -> bool, rows: seq<Keyed<T>>, after: Option<Key>)
    requires TotalOrder(before) && DistinctKeys(rows)
    ensures Sort(before, Beyond(before, rows, after)) == Beyond(before, Sort(before, rows), after)
  {
    var sought, sorted := Beyond(before, rows, after), Sort(before, rows);
    BeyondKeepsDistinct(before, rows, after);
    SortSorts(before, sought);
    SortSorts(before, rows);
    BeyondKeepsOrder(before, sorted, after);
    forall x ensures x in Sort(before, sought) <==> x in Beyond(before, sorted, after) {
      BeyondMembers(before, rows, after, x);
      BeyondMembers(before, sorted, after, x);
      assert x in Sort(before, sought) <==> x in multiset(sought);
      assert x in sorted <==> x in multiset(rows);
    }
    AscendingIsUnique(before, Sort(before, sought), Beyond(before, sorted, after));
  }

  /** Seeking past the i-th row leaves exactly the rows after it. */
  lemma SeekIsDrop<T(!new)>(before: (string, string) -> bool, rows: seq<Keyed<T>>, i: nat)
    requires TotalOrder(before) && Ascending(before, rows) && 0 < i <= |rows|
    ensures Beyond(before, rows, Some(rows[i - 1].key)) == rows[i..]
  {
    var after := Some(rows[i - 1].key);
    BeyondKeepsOrder(before, rows, after);
    forall x ensures x in Beyond(before, rows, after) <==> x in rows[i..] {
      BeyondMembers(before, rows, after, x);
      AfterIsBeyond(before, rows, i, x);
    }
    AscendingIsUnique(before, Beyond(before, rows, after), rows[i..]);
  }

  lemma AfterIsBeyond<T(!new)>(before: (string, string) -> bool, rows: seq<Keyed<T>>, i: nat, x: Keyed<T>)
    requires TotalOrder(before) && Ascending(before, rows) && 0 < i <= |rows|
    ensures x in rows[i..] <==> x in rows && KeyBefore(before, rows[i - 1].key, x.key)
  {
    if x in rows && KeyBefore(before, rows[i - 1].key, x.key) {
      var j :| 0 <= j < |rows| && rows[j] == x;
      NotBeforeEarlier(before, rows, if j < i then j else i - 1, i - 1);
      assert x == rows[i..][j - i];
    }
    if x in rows[i..] {
      var j :| 0 <= j < |rows[i..]| && rows[i..][j] == x;
      assert x == rows[i + j];
    }
  }

  lemma NotBeforeEarlier<T>(before: (string, string) -> bool, rows: seq<Keyed<T>>, j: nat, i: nat)
    requires TotalOrder(before) && Ascending(before, rows) && j <= i < |rows|
    ensures !KeyBefore(before, rows[i].key, rows[j].key)
  {
    if rows[i].key != rows[j].key {
      KeysAreOrdered(before, rows[i].key, rows[j].key);
    }
  }

  lemma {:induction false} NothingBefore<T>(before: (string, string) -> bool, rows: seq<Keyed<T>>)
    ensures Beyond(before, rows, None) == rows
  {
    if rows != [] {
      NothingBefore(before, rows[1..]);
    }
  }

  function End(length: nat, i: nat, limit: nat): nat {
    if i + limit < length then i + limit else length
  }

  function KeyAt<T>(rows: seq<Keyed<T>>, i: nat): Option<Key>
    requires i <= |rows|
  {
    if i == 0 then None else Some(rows[i - 1].key)
  }

  lemma SeekFrom<T(!new)>(before: (string, string) -> bool, rows: seq<Keyed<T>>, i: nat)
    requires TotalOrder(before) && Ascending(before, rows) && i <= |rows|
    ensures Beyond(before, rows, KeyAt(rows, i)) == rows[i..]
  {
    if i == 0 {
      NothingBefore(before, rows);
    } else {
      SeekIsDrop(before, rows, i);
    }
  }

  lemma TakeIsSlice<T>(rows: seq<T>, i: nat, limit: nat)
    requires i <= |rows|
    ensures Take(rows[i..], limit) == rows[i..End(|rows|, i, limit)]
  {
  }

  lemma SeekPage<T(!new)>(before: (string, string) -> bool, entries: seq<Keyed<T>>, limit: nat, i: nat)
    requires TotalOrder(before) && DistinctKeys(entries) && i <= |Sort(before, entries)|
    ensures var rows := Sort(before, entries);
            Take(Sort(before, Beyond(before, entries, KeyAt(rows, i))), limit) == rows[i..End(|rows|, i, limit)]
  {
    var rows := Sort(before, entries);
    assert Ascending(before, rows) by { SortSorts(before, entries); }
    var after := KeyAt(rows, i);
    assert Sort(before, Beyond(before, entries, after))
      == Beyond(before, rows, after) by { SeekThenSort(before, entries, after); }
    SeekFrom(before, rows, i);
    TakeIsSlice(rows, i, limit);
  }

  lemma HydratedPage(before: (string, string) -> bool, s: Store, page: seq<Keyed<Row>>)
    requires TotalOrder(before) && Stored(s) && Ascending(before, page) && AllCovered(s, page)
    ensures Sort(before, Joined(s, page)) == Cards(s, page)
  {
    JoinGivesOneCardEach(s, page);
    AlreadySorted(before, Cards(s, page));
  }

  /** The result of a query holds the cards of at most `limit` rows from position `i`. */
  ghost predicate IsSlice(s: Store, rows: seq<Keyed<Row>>, i: nat, limit: nat,
                          query: Result<seq<Keyed<Candidate>>, ListError>) {
    match query
    case Failure(_) => false
    case Success(cards) =>
      i <= |rows| && AllCovered(s, rows[i..End(|rows|, i, limit)]) && cards == Cards(s, rows[i..End(|rows|, i, limit)])
  }

  /** The repository returns a contiguous slice of one fixed listing. */
  lemma SeekPageIsSlice(before: (string, string) -> bool, s: Store, collection: Collection, p: Preference,
                        scope: Scope, limit: nat,
                        rows: seq<Keyed<Row>>, i: nat)
    requires TotalOrder(before) && Stored(s) && 1 <= limit <= 51
    requires rows == OrderedRows(before, s, collection, p, scope) && i <= |rows|
    ensures IsSlice(s, rows, i, limit, ListRanked(before, s, collection, p, scope, limit, KeyAt(rows, i)))
  {
    var page := rows[i..End(|rows|, i, limit)];
    if Answerable(collection, p, scope) {
      assert Ascending(before, page) && AllCovered(s, page) by { OrderedRowsAre(before, s, collection, p, scope); }
      RankedKeysDiffer(s, collection, p, scope, s.destinations);
      SeekPage(before, Ranked(s, collection, p, scope, s.destinations), limit, i);
      HydratedPage(before, s, page);
    } else {
      assert Cards(s, page) == [];
    }
  }

  lemma AlreadySorted<T(!new)>(before: (string, string) -> bool, rows: seq<Keyed<T>>)
    requires TotalOrder(before) && Ascending(before, rows)
    ensures Sort(before, rows) == rows
  {
    forall i, j | 0 <= i < j < |rows| ensures rows[i].key != rows[j].key {
      NotBeforeEarlier(before, rows, i, i);
    }
    SortSorts(before, rows);
    forall x ensures x in Sort(before, rows) <==> x in rows {
      assert x in Sort(before, rows) <==> x in multiset(rows);
    }
    AscendingIsUnique(before, Sort(before, rows), rows);
  }

  // ---------------------------------------------------------------- the listing is the reference ranking

  lemma {:induction false} CatalogueMembers(s: Store, rows: seq<Row>, c: Candidate)
    ensures c in Catalogue(s, rows) <==> exists d :: d in rows && d.published && HasCover(s, d.id) && c == CardOf(s, d)
  {
    if rows != [] {
      CatalogueMembers(s, rows[1..], c);
      assert rows == [rows[0]] + rows[1..];
    }
  }

  ghost predicate DistinctCandidates(catalogue: seq<Candidate>) {
    forall i, j :: 0 <= i < j < |catalogue| ==> catalogue[i].slug != catalogue[j].slug
  }

  lemma {:induction false} CatalogueSlugsDiffer(s: Store, rows: seq<Row>)
    requires DistinctSlugs(rows)
    ensures DistinctCandidates(Catalogue(s, rows))
  {
    if rows != [] {
      var rest := Catalogue(s, rows[1..]);
      CatalogueSlugsDiffer(s, rows[1..]);
      forall i | 0 <= i < |rest| ensures rest[i].slug != rows[0].slug {
        CatalogueMembers(s, rows[1..], rest[i]);
      }
    }
  }

  /** The sequence each reference ranking sorts. */
  function Chosen(catalogue: seq<Candidate>, collection: Collection, p: Preference,
                  scope: Scope): seq<Keyed<Candidate>> {
    match collection
    case Suggested => Scored(catalogue, p, scope)
    case Popular => WithPopularRank(catalogue)
    case Featured => WithFeaturedRank(catalogue)
  }

  ghost predicate Chooses(collection: Collection, p: Preference, scope: Scope, c: Candidate, k: Key) {
    match collection
    case Suggested => MatchesScope(c, scope, p.home) && k == SuggestedKey(c, p)
    case Popular => c.popular.Some? && k == Key(c.popular.value, c.editorial, c.slug)
    case Featured => c.featured.Some? && k == Key(c.featured.value, c.editorial, c.slug)
  }

  lemma {:induction false} ChosenMembers(catalogue: seq<Candidate>, collection: Collection, p: Preference,
                                         scope: Scope, x: Keyed<Candidate>)
    ensures x in Chosen(catalogue, collection, p, scope)
            <==> x.value in catalogue && Chooses(collection, p, scope, x.value, x.key)
  {
    if catalogue != [] {
      ChosenMembers(catalogue[1..], collection, p, scope, x);
      assert catalogue == [catalogue[0]] + catalogue[1..];
    }
  }

  lemma {:induction false} ChosenKeysDiffer(catalogue: seq<Candidate>, collection: Collection, p: Preference,
                                            scope: Scope)
    requires DistinctCandidates(catalogue)
    ensures DistinctKeys(Chosen(catalogue, collection, p, scope))
  {
    if catalogue != [] {
      var rest := Chosen(catalogue[1..], collection, p, scope);
      ChosenKeysDiffer(catalogue[1..], collection, p, scope);
      forall i | 0 <= i < |rest| ensures rest[i].key.slug != catalogue[0].slug {
        ChosenMembers(catalogue[1..], collection, p, scope, rest[i]);
      }
    }
  }

  lemma {:induction false} PositiveMembers(entries: seq<Keyed<Candidate>>, p: Preference, x: Keyed<Candidate>)
    ensures x in Positive(entries, p) <==> x in entries && PreferenceScore(x.value, p) > 0
  {
    if entries != [] {
      PositiveMembers(entries[1..], p, x);
      assert entries == [entries[0]] + entries[1..];
    }
  }

  lemma {:induction false} PositiveKeepsOrder(before: (string, string) -> bool, entries: seq<Keyed<Candidate>>,
                                              p: Preference)
    requires Ascending(before, entries)
    ensures Ascending(before, Positive(entries, p))
  {
    if entries != [] {
      var rest := Positive(entries[1..], p);
      PositiveKeepsOrder(before, entries[1..], p);
      forall i | 0 <= i < |rest| ensures KeyBefore(before, entries[0].key, rest[i].key) {
        PositiveMembers(entries[1..], p, rest[i]);
      }
    }
  }

  /** The entries a reference ranking returns, keys included. */
  function ReferenceEntries(before: (string, string) -> bool, s: Store, collection: Collection, p: Preference,
                            scope: Scope): seq<Keyed<Candidate>> {
    var sorted := Sort(before, Chosen(Catalogue(s, s.destinations), collection, p, scope));
    if collection.Suggested? then Positive(sorted, p) else sorted
  }

  ghost predicate Returns(s: Store, collection: Collection, p: Preference, scope: Scope, x: Keyed<Candidate>) {
    && x.value in Catalogue(s, s.destinations)
    && Chooses(collection, p, scope, x.value, x.key)
    && (collection.Suggested? ==> PreferenceScore(x.value, p) > 0)
  }

  lemma ReferenceEntriesAre(before: (string, string) -> bool, s: Store, collection: Collection, p: Preference,
                            scope: Scope)
    requires TotalOrder(before) && Stored(s)
    ensures Ascending(before, ReferenceEntries(before, s, collection, p, scope))
    ensures forall x :: x in ReferenceEntries(before, s, collection, p, scope) <==> Returns(s, collection, p, scope, x)
  {
    var catalogue := Catalogue(s, s.destinations);
    var chosen := Chosen(catalogue, collection, p, scope);
    CatalogueSlugsDiffer(s, s.destinations);
    ChosenKeysDiffer(catalogue, collection, p, scope);
    SortSorts(before, chosen);
    PositiveKeepsOrder(before, Sort(before, chosen), p);
    forall x ensures x in ReferenceEntries(before, s, collection, p, scope) <==> Returns(s, collection, p, scope, x) {
      ChosenMembers(catalogue, collection, p, scope, x);
      PositiveMembers(Sort(before, chosen), p, x);
      assert x in Sort(before, chosen) <==> x in multiset(chosen);
    }
  }

  /** What the query's filters and labels say of a row is what the reference says of its card. */
  lemma FiltersAgree(s: Store, collection: Collection, p: Preference, scope: Scope, d: Row, k: Key)
    requires Answerable(collection, p, scope) && d.published && HasCover(s, d.id)
    ensures Lists(s, collection, p, scope, d, k)
            <==>
            && Chooses(collection, p, scope, CardOf(s, d), k)
            && (collection.Suggested? ==> PreferenceScore(CardOf(s, d), p) > 0)
  {
    ScoresAgree(s, d, p, Covers(s.media, s.active, d.id)[0]);
  }

  lemma CardIsReturned(s: Store, collection: Collection, p: Preference, scope: Scope, d: Row, k: Key)
    requires Answerable(collection, p, scope) && d in s.destinations && Lists(s, collection, p, scope, d, k)
    ensures d.published && HasCover(s, d.id) && Returns(s, collection, p, scope, Keyed(k, CardOf(s, d)))
  {
    FiltersAgree(s, collection, p, scope, d, k);
    CatalogueMembers(s, s.destinations, CardOf(s, d));
  }

  lemma ReturnedIsListed(s: Store, collection: Collection, p: Preference, scope: Scope, x: Keyed<Candidate>)
    returns (d: Row)
    requires Answerable(collection, p, scope) && Returns(s, collection, p, scope, x)
    ensures d in s.destinations && HasCover(s, d.id) && x.value == CardOf(s, d)
            && Lists(s, collection, p, scope, d, x.key)
  {
    CatalogueMembers(s, s.destinations, x.value);
    d :| d in s.destinations && d.published && HasCover(s, d.id) && x.value == CardOf(s, d);
    FiltersAgree(s, collection, p, scope, d, x.key);
  }

  lemma SameEntries(before: (string, string) -> bool, s: Store, collection: Collection, p: Preference, scope: Scope,
                    x: Keyed<Candidate>)
    requires TotalOrder(before) && Stored(s) && Answerable(collection, p, scope)
    requires AllCovered(s, OrderedRows(before, s, collection, p, scope))
    ensures x in Cards(s, OrderedRows(before, s, collection, p, scope)) <==> Returns(s, collection, p, scope, x)
  {
    var rows := OrderedRows(before, s, collection, p, scope);
    OrderedRowsAre(before, s, collection, p, scope);
    if x in Cards(s, rows) {
      var i :| 0 <= i < |rows| && Cards(s, rows)[i] == x;
      assert rows[i] in rows;
      CardIsReturned(s, collection, p, scope, rows[i].value, x.key);
    }
    if Returns(s, collection, p, scope, x) {
      var d := ReturnedIsListed(s, collection, p, scope, x);
      var row := Keyed(x.key, d);
      assert row in rows;
      var i :| 0 <= i < |rows| && rows[i] == row;
      assert Cards(s, rows)[i] == x;
    }
  }

  /** The query's listing is the reference ranking of the same catalogue. */
  lemma ListingIsReference(before: (string, string) -> bool, s: Store, collection: Collection, p: Preference,
                           scope: Scope)
    requires TotalOrder(before) && Stored(s)
    ensures var rows := OrderedRows(before, s, collection, p, scope);
            AllCovered(s, rows) && Values(Cards(s, rows)) == Reference(before, s, collection, p, scope)
  {
    var rows := OrderedRows(before, s, collection, p, scope);
    if Answerable(collection, p, scope) {
      OrderedRowsAre(before, s, collection, p, scope);
      ReferenceEntriesAre(before, s, collection, p, scope);
      var entries := ReferenceEntries(before, s, collection, p, scope);
      forall x ensures x in Cards(s, rows) <==> x in entries {
        SameEntries(before, s, collection, p, scope, x);
      }
      AscendingIsUnique(before, Cards(s, rows), entries);
    } else {
      NothingInScope(before, s, p, scope);
      assert Cards(s, rows) == [];
    }
  }

  /** Without a profile, or without a home to compare with, the reference suggests nothing either. */
  lemma NothingInScope(before: (string, string) -> bool, s: Store, p: Preference, scope: Scope)
    requires !Answerable(Suggested, p, scope)
    ensures Reference(before, s, Suggested, p, scope) == []
  {
    if p.PersonalizationReady() {
      var catalogue := Catalogue(s, s.destinations);
      var scored := Scored(catalogue, p, scope);
      if scored != [] {
        ChosenMembers(catalogue, Suggested, p, scope, scored[0]);
      }
    }
  }

  ghost predicate Eligible(s: Store, collection: Collection, p: Preference, scope: Scope, c: Candidate) {
    && c in Catalogue(s, s.destinations)
    && match collection
       case Suggested => p.PersonalizationReady() && MatchesScope(c, scope, p.home) && PreferenceScore(c, p) > 0
       case Popular => c.popular.Some?
       case Featured => c.featured.Some?
  }

  function KeyFor(collection: Collection, p: Preference, c: Candidate): Key {
    match collection
    case Suggested => SuggestedKey(c, p)
    case Popular => Key(if c.popular.Some? then c.popular.value else 0, c.editorial, c.slug)
    case Featured => Key(if c.featured.Some? then c.featured.value else 0, c.editorial, c.slug)
  }

  /** The reference holds every eligible destination, nothing else, none twice, and in the order of their keys. */
  lemma ReferenceHoldsEachOnce(before: (string, string) -> bool, s: Store, collection: Collection, p: Preference,
                               scope: Scope)
    requires TotalOrder(before) && Stored(s)
    ensures var ranking := Reference(before, s, collection, p, scope);
            && (forall c :: c in ranking <==> Eligible(s, collection, p, scope, c))
            && (forall i, j :: 0 <= i < j < |ranking| ==>
                  && ranking[i].slug != ranking[j].slug
                  && KeyBefore(before, KeyFor(collection, p, ranking[i]), KeyFor(collection, p, ranking[j])))
  {
    var ranking := Reference(before, s, collection, p, scope);
    if collection.Suggested? && !p.PersonalizationReady() {
      assert ranking == [];
    } else {
      var entries := ReferenceEntries(before, s, collection, p, scope);
      ReferenceEntriesAre(before, s, collection, p, scope);
      assert ranking == Values(entries);
      forall c ensures c in ranking <==> Eligible(s, collection, p, scope, c) {
        ListedIffEligible(s, collection, p, scope, entries, c);
      }
      SlugsDiffer(before, s, collection, p, scope, entries);
    }
  }

  lemma ListedIffEligible(s: Store, collection: Collection, p: Preference, scope: Scope,
                          entries: seq<Keyed<Candidate>>, c: Candidate)
    requires forall x :: x in entries <==> Returns(s, collection, p, scope, x)
    requires collection.Suggested? ==> p.PersonalizationReady()
    ensures c in Values(entries) <==> Eligible(s, collection, p, scope, c)
  {
    if c in Values(entries) {
      var i :| 0 <= i < |entries| && entries[i].value == c;
      assert entries[i] in entries;
    }
    if Eligible(s, collection, p, scope, c) {
      var x := Keyed(KeyFor(collection, p, c), c);
      assert x in entries;
      var i :| 0 <= i < |entries| && entries[i] == x;
      assert Values(entries)[i] == c;
    }
  }

  lemma SlugsDiffer(before: (string, string) -> bool, s: Store, collection: Collection, p: Preference, scope: Scope,
                    entries: seq<Keyed<Candidate>>)
    requires TotalOrder(before) && Ascending(before, entries)
    requires Stored(s) && forall x :: x in entries <==> Returns(s, collection, p, scope, x)
    ensures forall i, j :: 0 <= i < j < |entries| ==>
              && entries[i].value.slug != entries[j].value.slug
              && KeyBefore(before, KeyFor(collection, p, entries[i].value), KeyFor(collection, p, entries[j].value))
  {
    var catalogue := Catalogue(s, s.destinations);
    CatalogueSlugsDiffer(s, s.destinations);
    forall i, j | 0 <= i < j < |entries|
      ensures && entries[i].value.slug != entries[j].value.slug
              && KeyBefore(before, KeyFor(collection, p, entries[i].value), KeyFor(collection, p, entries[j].value))
    {
      NotBeforeEarlier(before, entries, i, i);
      assert entries[i] in entries && entries[j] in entries;
      assert entries[i].value in catalogue && entries[j].value in catalogue;
      assert entries[i].key == KeyFor(collection, p, entries[i].value)
        && entries[j].key == KeyFor(collection, p, entries[j].value);
    }
  }

  // ---------------------------------------------------------------- who is listed, and in what order

  lemma {:induction false} CoveredIff(media: seq<Attachment>, active: set<nat>, id: nat)
    ensures Covers(media, active, id) != [] <==>
            exists m :: m in media && m.destination == id && m.cover && m.asset in active
  {
    if media != [] {
      CoveredIff(media[1..], active, id);
      assert media == [media[0]] + media[1..];
      if media[0].destination == id && media[0].cover && media[0].asset in active {
        assert media[0] in media;
      }
    }
  }

  /** The score is positive exactly when a tag is shared or the tier is not at the far end from the wanted one. */
  lemma PositiveIffMatches(d: Candidate, p: Preference)
    ensures PreferenceScore(d, p) > 0 <==>
            || (exists style :: style in p.styles && style in d.styles)
            || (exists interest :: interest in p.interests && interest in d.interests)
            || (p.budget.Some? && (p.budget.value, d.budget) !in {(Budget, Luxury), (Luxury, Budget)})
  {
    var styles, interests := Elements(p.styles) * d.styles, Elements(p.interests) * d.interests;
    if style :| style in p.styles && style in d.styles {
      assert style in styles && |styles| > 0;
    } else {
      assert styles == {};
    }
    if interest :| interest in p.interests && interest in d.interests {
      assert interest in interests && |interests| > 0;
    } else {
      assert interests == {};
    }
  }

  /** What the stored rows say of a destination, for a traveller with these wishes. */
  ghost predicate Suits(s: Store, p: Preference, scope: Scope, d: Row) {
    && p.styles != [] && p.interests != [] && p.budget.Some? && p.pace.Some?
    && (scope == Local ==> p.home == Some(d.country))
    && (scope == International ==> p.home.Some? && p.home != Some(d.country))
    && (|| (exists style :: style in p.styles && (d.id, style) in s.styles)
        || (exists interest :: interest in p.interests && (d.id, interest) in s.interests)
        || (p.budget.value, d.budget) !in {(Budget, Luxury), (Luxury, Budget)})
  }

  lemma CardSuits(s: Store, p: Preference, scope: Scope, d: Row)
    requires HasCover(s, d.id)
    ensures var c := CardOf(s, d);
            p.PersonalizationReady() && MatchesScope(c, scope, p.home) && PreferenceScore(c, p) > 0
            <==> Suits(s, p, scope, d)
  {
    var c := CardOf(s, d);
    PositiveIffMatches(c, p);
    assert forall style :: style in c.styles <==> (d.id, style) in s.styles;
    assert forall interest :: interest in c.interests <==> (d.id, interest) in s.interests;
  }

  /**
   A stored destination is listed exactly when it is published, has an active cover, and carries the
   rank of the collection or suits the traveller.
   */
  lemma ListedIff(before: (string, string) -> bool, s: Store, collection: Collection, p: Preference, scope: Scope,
                  d: Row)
    requires TotalOrder(before) && Stored(s) && d in s.destinations
    ensures (exists c :: c in Reference(before, s, collection, p, scope) && c.slug == d.slug)
            <==>
            && d.published && (exists m :: m in s.media && m.destination == d.id && m.cover && m.asset in s.active)
            && match collection
               case Suggested => Suits(s, p, scope, d)
               case Popular => d.popular.Some?
               case Featured => d.featured.Some?
  {
    ReferenceHoldsEachOnce(before, s, collection, p, scope);
    CoveredIff(s.media, s.active, d.id);
    if d.published && HasCover(s, d.id) {
      CardSuits(s, p, scope, d);
      CatalogueMembers(s, s.destinations, CardOf(s, d));
    }
    if c :| c in Reference(before, s, collection, p, scope) && c.slug == d.slug {
      CatalogueMembers(s, s.destinations, c);
      var e :| e in s.destinations && e.published && HasCover(s, e.id) && c == CardOf(s, e);
      SameSlugSameRow(s, d, e);
    }
    if d.published && HasCover(s, d.id) && Eligible(s, collection, p, scope, CardOf(s, d)) {
      assert CardOf(s, d) in Reference(before, s, collection, p, scope);
    }
  }

  lemma SameSlugSameRow(s: Store, d: Row, e: Row)
    requires Stored(s) && d in s.destinations && e in s.destinations && d.slug == e.slug
    ensures d == e
  {
    var i :| 0 <= i < |s.destinations| && s.destinations[i] == d;
    var j :| 0 <= j < |s.destinations| && s.destinations[j] == e;
  }

  /** Better scores and smaller ranks first, then the smaller editorial rank, then the slug. */
  lemma ListedInOrder(before: (string, string) -> bool, s: Store, collection: Collection, p: Preference, scope: Scope,
                      i: nat, j: nat)
    requires TotalOrder(before) && Stored(s) && i < j < |Reference(before, s, collection, p, scope)|
    ensures var a, b := Reference(before, s, collection, p, scope)[i], Reference(before, s, collection, p, scope)[j];
            var tied := a.editorial < b.editorial || (a.editorial == b.editorial && before(a.slug, b.slug));
            match collection
            case Suggested =>
              PreferenceScore(a, p) > PreferenceScore(b, p) || (PreferenceScore(a, p) == PreferenceScore(b, p) && tied)
            case Popular =>
              && a.popular.Some? && b.popular.Some?
              && (a.popular.value < b.popular.value || (a.popular.value == b.popular.value && tied))
            case Featured =>
              && a.featured.Some? && b.featured.Some?
              && (a.featured.value < b.featured.value || (a.featured.value == b.featured.value && tied))
  {
    ReferenceHoldsEachOnce(before, s, collection, p, scope);
    var ranking := Reference(before, s, collection, p, scope);
    assert ranking[i] in ranking && ranking[j] in ranking;
  }
}
