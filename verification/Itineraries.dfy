/** Versioned itineraries of a trip: drafts, the one saved version, and what it superseded. */
module Itineraries {
  import opened Primitives
  import opened TripRules
  import opened Transactions
  import opened Wrappers

  datatype Status = Draft | Saved | Superseded

  datatype Item = Item(day: int, position: int, title: string)

  datatype Itinerary = Itinerary(trip: Uuid, source: Option<Uuid>, version: int, status: Status, items: seq<Item>)

  datatype Trip = Trip(user: Uuid, startDate: Date, endDate: Date)

  datatype Db = Db(trips: map<Uuid, Trip>, itineraries: map<Uuid, Itinerary>)

  datatype Error =
    | NoItems
    | DuplicatePosition
    | OutsideTripDates
    | TripNotFound
    | ItineraryNotFound
    | SupersededCannotBeSaved
    | EmptyCannotBeSaved
    | ConstraintViolation

  // ---------------------------------------------------------------- specification

  predicate Owned(db: Db, user: Uuid, id: Uuid) {
    && id in db.itineraries
    && db.itineraries[id].trip in db.trips
    && db.trips[db.itineraries[id].trip].user == user
  }

  predicate OwnedTrip(db: Db, user: Uuid, trip: Uuid) {
    trip in db.trips && db.trips[trip].user == user
  }

  /** The look-up by source message, seen through the user's own trips. */
  predicate FoundBySource(db: Db, user: Uuid, source: Uuid, found: Option<Uuid>) {
    match found
    case Some(id) => Owned(db, user, id) && db.itineraries[id].source == Some(source)
    case None => forall id :: id in db.itineraries && Owned(db, user, id) ==> db.itineraries[id].source != Some(source)
  }

  predicate SourceTaken(db: Db, source: Option<Uuid>) {
    source.Some? && exists id :: id in db.itineraries && db.itineraries[id].source == source
  }

  /** `version` is what `coalesce(max(version), 0) + 1` answers for the trip. */
  predicate NextVersion(db: Db, trip: Uuid, version: int) {
    && (forall id :: id in db.itineraries && db.itineraries[id].trip == trip ==> db.itineraries[id].version < version)
    && (version == 1 ||
        exists id ::
          id in db.itineraries && db.itineraries[id].trip == trip && db.itineraries[id].version == version - 1)
  }

  predicate DistinctPositions(items: seq<Item>) {
    forall i, j :: 0 <= i < j < |items| ==> (items[i].day, items[i].position) != (items[j].day, items[j].position)
  }

  predicate WithinTrip(trip: Trip, items: seq<Item>) {
    forall k :: 0 <= k < |items| ==> items[k].day <= InclusiveDayCount(trip.startDate, trip.endDate)
  }

  function WithDraft(db: Db, id: Uuid, trip: Uuid, source: Option<Uuid>, version: int, items: seq<Item>): Db {
    db.(itineraries := db.itineraries[id := Itinerary(trip, source, version, Draft, items)])
  }

  /** First write of a save: whatever else is saved for the trip becomes superseded. */
  function Demoted(db: Db, id: Uuid): Db
    requires id in db.itineraries
  {
    db.(itineraries := map i | i in db.itineraries ::
      if db.itineraries[i].trip == db.itineraries[id].trip && i != id && db.itineraries[i].status.Saved?
      then db.itineraries[i].(status := Superseded) else db.itineraries[i])
  }

  /** Second write of a save. */
  function Promoted(db: Db, id: Uuid): Db
    requires id in db.itineraries
  {
    db.(itineraries := db.itineraries[id := db.itineraries[id].(status := Saved)])
  }

  function Save(db: Db, user: Uuid, id: Uuid): (Result<Uuid, Error>, Db) {
    if !Owned(db, user, id) then (Failure(ItineraryNotFound), db)
    else if db.itineraries[id].status.Superseded? then (Failure(SupersededCannotBeSaved), db)
    else if db.itineraries[id].items == [] then (Failure(EmptyCannotBeSaved), db)
    else if db.itineraries[id].status.Draft? then (Success(id), Promoted(Demoted(db, id), id))
    else (Success(id), db)
  }

  /** The partial unique index "one saved itinerary per trip". */
  predicate OneSavedPerTrip(db: Db) {
    forall a, b :: a in db.itineraries && b in db.itineraries && a != b ==>
      db.itineraries[a].trip == db.itineraries[b].trip ==>
        !(db.itineraries[a].status.Saved? && db.itineraries[b].status.Saved?)
  }

  function Positions(items: seq<Item>): set<(int, int)> {
    set x | x in items :: (x.day, x.position)
  }

  lemma PositionsAppend(items: seq<Item>, last: Item)
    ensures Positions(items + [last]) == Positions(items) + {(last.day, last.position)}
    ensures DistinctPositions(items + [last]) <==>
            DistinctPositions(items) && (last.day, last.position) !in Positions(items)
  {
    var all := items + [last];
    assert all[..|items|] == items && all[|items|] == last;
    if (last.day, last.position) in Positions(items) {
      var x :| x in items && (x.day, x.position) == (last.day, last.position);
      var i :| 0 <= i < |items| && items[i] == x;
      assert all[i] == x;
    } else {
      forall i | 0 <= i < |items| ensures (items[i].day, items[i].position) in Positions(items) {
        assert items[i] in items;
      }
    }
    if DistinctPositions(all) {
      forall i, j | 0 <= i < j < |items|
        ensures (items[i].day, items[i].position) != (items[j].day, items[j].position)
      {
        assert all[i] == items[i] && all[j] == items[j];
      }
    }
  }

  /** The set of positions is as large as the list exactly when no position repeats. */
  lemma {:induction false} PositionSetSize(items: seq<Item>)
    ensures |Positions(items)| <= |items|
    ensures |Positions(items)| == |items| <==> DistinctPositions(items)
  {
    if items != [] {
      var init, last := items[..|items| - 1], items[|items| - 1];
      assert items == init + [last];
      PositionSetSize(init);
      PositionsAppend(init, last);
    }
  }

  // ---------------------------------------------------------------- the program

  class ItineraryRepository {
    const session: Session<Db>

    constructor (session: Session<Db>)
      ensures this.session == session
    {
      this.session := session;
    }

    method GetBySource(user: Uuid, source: Uuid) returns (r: Option<Uuid>)
      ensures FoundBySource(session.staged, user, source, r)
    {
      var db := session.staged;
      if id :| id in db.itineraries && Owned(db, user, id) && db.itineraries[id].source == Some(source) {
        return Some(id);
      }
      return None;
    }

    method MaxVersion(trip: Uuid) returns (v: int)
      ensures NextVersion(session.staged, trip, v + 1)
    {
      var db := session.staged;
      v := 0;
      var remaining := set id | id in db.itineraries && db.itineraries[id].trip == trip;
      ghost var all := remaining;
      while remaining != {}
        invariant remaining <= all && v >= 0
        invariant forall id :: id in all - remaining ==> db.itineraries[id].version <= v
        invariant v == 0 || exists id :: id in all && db.itineraries[id].version == v
        decreases remaining
      {
        var id :| id in remaining;
        if db.itineraries[id].version > v {
          v := db.itineraries[id].version;
        }
        remaining := remaining - {id};
      }
    }

    /** Insert the next draft with its items; the trip is locked by the caller. */
    method CreateNextDraft(id: Uuid, trip: Uuid, source: Option<Uuid>, items: seq<Item>)
      returns (r: Result<Uuid, Error>, ghost version: int)
      requires id !in session.staged.itineraries
      modifies session`staged
      ensures NextVersion(old(session.staged), trip, version)
      ensures SourceTaken(old(session.staged), source) ==>
                r == Failure(ConstraintViolation) && session.staged == old(session.staged)
      ensures !SourceTaken(old(session.staged), source) ==>
                r == Success(id) && session.staged == WithDraft(old(session.staged), id, trip, source, version, items)
    {
      var highest := MaxVersion(trip);
      version := highest + 1;
      var db := session.staged;
      if source.Some? {
        if other :| other in db.itineraries && db.itineraries[other].source == source {
          return Failure(ConstraintViolation), version;
        }
      }
      session.staged := db.(itineraries := db.itineraries[id := Itinerary(trip, source, highest + 1, Draft, items)]);
      return Success(id), version;
    }

    /** Supersede the saved version, then save the given one; `between` is the state after the first write. */
    method ReplaceSavedWith(id: Uuid) returns (ghost between: Db)
      requires id in session.staged.itineraries && OneSavedPerTrip(session.staged)
      modifies session`staged
      ensures between == Demoted(old(session.staged), id) && OneSavedPerTrip(between)
      ensures session.staged == Promoted(between, id) && OneSavedPerTrip(session.staged)
    {
      ghost var before := session.staged;
      var rows := session.staged.itineraries;
      var saved := set i | i in rows && rows[i].trip == rows[id].trip && i != id && rows[i].status.Saved?;
      ghost var all := saved;
      while saved != {}
        invariant saved <= all && id !in all && all <= before.itineraries.Keys
        invariant rows.Keys == before.itineraries.Keys
        invariant forall i :: i in rows ==>
                    rows[i] == if i in all - saved then before.itineraries[i].(status := Superseded)
                      else before.itineraries[i]
        decreases saved
      {
        var i :| i in saved;
        rows := rows[i := rows[i].(status := Superseded)];
        saved := saved - {i};
      }
      session.staged := session.staged.(itineraries := rows);
      assert rows == Demoted(before, id).itineraries;
      DemoteThenPromoteKeepsIndex(before, id);
      between := session.staged;
      session.staged := session.staged.(itineraries := rows[id := rows[id].(status := Saved)]);
    }
  }

  class ItineraryService {
    const session: Session<Db>
    const itineraries: ItineraryRepository

    ghost predicate Valid() {
      itineraries.session == session
    }

    constructor (session: Session<Db>)
      ensures Valid() && this.session == session
    {
      this.session := session;
      this.itineraries := new ItineraryRepository(session);
    }

    static method ValidateItemPositions(items: seq<Item>) returns (r: Option<Error>)
      ensures r == if items == [] then Some(NoItems) else if !DistinctPositions(items) then Some(DuplicatePosition)
              else None
    {
      if items == [] {
        return Some(NoItems);
      }
      PositionSetSize(items);
      var positions := Positions(items);
      if |positions| != |items| {
        return Some(DuplicatePosition);
      }
      return None;
    }

    /** Create and commit the next complete draft of an owned trip. */
    method CreateDraft(user: Uuid, trip: Uuid, id: Uuid, items: seq<Item>)
      returns (r: Result<Uuid, Error>, ghost version: int)
      requires Valid() && session.staged == session.committed && id !in session.committed.itineraries
      modifies session
      ensures session.staged == session.committed
      ensures (r, session.committed) == Create(old(session.committed), user, trip, id, version, items)
      ensures r.Success? ==> NextVersion(old(session.committed), trip, version)
    {
      version := 0;
      var invalid := ValidateItemPositions(items);
      if invalid.Some? {
        return Failure(invalid.value), version;
      }
      r, version := CreateForLockedTrip(user, trip, id, None, items);
      if r.Failure? {
        session.Rollback();
      } else {
        session.Commit();
      }
    }

    method CreateForLockedTrip(user: Uuid, trip: Uuid, id: Uuid, source: Option<Uuid>, items: seq<Item>)
      returns (r: Result<Uuid, Error>, ghost version: int)
      requires Valid() && id !in session.staged.itineraries
      modifies session`staged
      ensures (r, session.staged) == CreateLocked(old(session.staged), user, trip, id, source, version, items)
      ensures r.Success? ==> NextVersion(old(session.staged), trip, version)
    {
      version := 0;
      var db := session.staged;
      if trip !in db.trips || db.trips[trip].user != user {
        return Failure(TripNotFound), version;
      }
      var days := InclusiveDayCount(db.trips[trip].startDate, db.trips[trip].endDate);
      if exists k :: 0 <= k < |items| && items[k].day > days {
        return Failure(OutsideTripDates), version;
      }
      r, version := itineraries.CreateNextDraft(id, trip, source, items);
    }

    /**
     A generated draft, or the one this message already has. The caller may have staged other
     work in the same transaction, and may defer the commit. `seen` is what the look-up before
     the trip lock answered. Whatever fails under the lock takes the staged work with it, and so
     does an itinerary found only there, although the call then succeeds.
     */
    method CreateGeneratedDraft(user: Uuid, trip: Uuid, id: Uuid, source: Uuid, items: seq<Item>, seen: Option<Uuid>,
                                commit: bool)
      returns (r: Result<Uuid, Error>, ghost version: int, ghost found: Option<Uuid>)
      requires Valid() && id !in session.staged.itineraries
      modifies session
      ensures FoundBySource(old(session.staged), user, source, found)
      ensures var outcome := Generate(old(session.staged), user, trip, id, source, version, items, seen, found);
              && r == outcome.0
              && session.staged == (if Discards(old(session.staged), user, trip, source, items, seen, found)
                                    then old(session.committed) else outcome.1)
      ensures Creates(old(session.staged), user, trip, source, items, seen, found) ==>
                NextVersion(old(session.staged), trip, version)
      ensures session.committed ==
              if commit && Creates(old(session.staged), user, trip, source, items, seen, found)
              then session.staged else old(session.committed)
    {
      version := 0;
      var look := itineraries.GetBySource(user, source);
      found := look;
      var invalid := ValidateItemPositions(items);
      if invalid.Some? {
        return Failure(invalid.value), version, found;
      }
      if seen.Some? {
        return Success(seen.value), version, found;
      }
      if trip !in session.staged.trips || session.staged.trips[trip].user != user {
        session.Rollback();
        return Failure(TripNotFound), version, found;
      }
      if look.Some? {
        session.Rollback();
        return Success(look.value), version, found;
      }
      r, version := CreateForLockedTrip(user, trip, id, Some(source), items);
      if r.Failure? {
        session.Rollback();
      } else if commit {
        session.Commit();
      }
    }

    /** Saving a draft supersedes what the trip had saved. */
    method SaveItinerary(user: Uuid, id: Uuid) returns (r: Result<Uuid, Error>)
      requires Valid() && session.staged == session.committed && OneSavedPerTrip(session.committed)
      modifies session
      ensures session.staged == session.committed
      ensures (r, session.committed) == Save(old(session.committed), user, id)
    {
      if !Owned(session.staged, user, id) {
        session.Rollback();
        return Failure(ItineraryNotFound);
      }
      var itinerary := session.staged.itineraries[id];
      if itinerary.status == Superseded {
        session.Rollback();
        return Failure(SupersededCannotBeSaved);
      }
      if itinerary.items == [] {
        session.Rollback();
        return Failure(EmptyCannotBeSaved);
      }
      if itinerary.status == Draft {
        var _ := itineraries.ReplaceSavedWith(id);
      }
      session.Commit();
      return Success(id);
    }
  }

  function CreateLocked(db: Db, user: Uuid, trip: Uuid, id: Uuid, source: Option<Uuid>, version: int, items: seq<Item>)
    : (Result<Uuid, Error>, Db)
  {
    if !OwnedTrip(db, user, trip) then (Failure(TripNotFound), db)
    else if !WithinTrip(db.trips[trip], items) then (Failure(OutsideTripDates), db)
    else if SourceTaken(db, source) then (Failure(ConstraintViolation), db)
    else (Success(id), WithDraft(db, id, trip, source, version, items))
  }

  function Create(db: Db, user: Uuid, trip: Uuid, id: Uuid, version: int, items: seq<Item>): (Result<Uuid, Error>, Db) {
    if items == [] then (Failure(NoItems), db)
    else if !DistinctPositions(items) then (Failure(DuplicatePosition), db)
    else CreateLocked(db, user, trip, id, None, version, items)
  }

  /** `found` is the look-up under the trip lock, `seen` the one before it. */
  function Generate(
    db: Db, user: Uuid, trip: Uuid, id: Uuid, source: Uuid, version: int, items: seq<Item>,
    seen: Option<Uuid>, found: Option<Uuid>): (Result<Uuid, Error>, Db)
  {
    if items == [] then (Failure(NoItems), db)
    else if !DistinctPositions(items) then (Failure(DuplicatePosition), db)
    else if seen.Some? then (Success(seen.value), db)
    else if !OwnedTrip(db, user, trip) then (Failure(TripNotFound), db)
    else if found.Some? then (Success(found.value), db)
    else CreateLocked(db, user, trip, id, Some(source), version, items)
  }

  predicate ValidItems(items: seq<Item>) {
    items != [] && DistinctPositions(items)
  }

  /** Generation gets as far as inserting a draft. */
  predicate Creates(
    db: Db, user: Uuid, trip: Uuid, source: Uuid, items: seq<Item>, seen: Option<Uuid>, found: Option<Uuid>)
  {
    && ValidItems(items) && seen.None? && found.None?
    && OwnedTrip(db, user, trip) && WithinTrip(db.trips[trip], items) && !SourceTaken(db, Some(source))
  }

  /** Generation looks under the trip lock and inserts nothing, which ends the transaction. */
  predicate Discards(
    db: Db, user: Uuid, trip: Uuid, source: Uuid, items: seq<Item>, seen: Option<Uuid>, found: Option<Uuid>)
  {
    ValidItems(items) && seen.None? && !Creates(db, user, trip, source, items, seen, found)
  }

  /** A successful call loses the caller's staged work exactly when the itinerary turns up only under the lock. */
  lemma SuccessDiscardsIff(
    db: Db, user: Uuid, trip: Uuid, id: Uuid, source: Uuid, version: int, items: seq<Item>,
    seen: Option<Uuid>, found: Option<Uuid>)
    ensures Generate(db, user, trip, id, source, version, items, seen, found).0.Success?
            && Discards(db, user, trip, source, items, seen, found)
            <==> ValidItems(items) && seen.None? && found.Some? && OwnedTrip(db, user, trip)
  {
  }

  const FIRST_DRAFT := Itinerary(0, Some(7), 1, Draft, [Item(1, 1, "Fort")])
  const COMMITTED := Db(map[0 := Trip(0, 1, 5)], map[0 := FIRST_DRAFT])

  /** The same rows, with a trip the caller has staged beside them. */
  const STAGED := Db(map[0 := Trip(0, 1, 5), 1 := Trip(0, 10, 15)], map[0 := FIRST_DRAFT])

  /** A caller stages a new trip, another worker's itinerary turns up under the lock, and the trip is lost. */
  lemma SuccessCanDiscard(items: seq<Item>)
    requires ValidItems(items)
    ensures STAGED != COMMITTED && OwnedTrip(STAGED, 0, 1) && FoundBySource(STAGED, 0, 7, Some(0))
    ensures Generate(STAGED, 0, 1, 1, 7, 1, items, None, Some(0)).0 == Success(0)
    ensures Discards(STAGED, 0, 1, 7, items, None, Some(0))
  {
    assert 1 in STAGED.trips && 1 !in COMMITTED.trips;
  }

  // ---------------------------------------------------------------- what each answer means on the rows

  /** A timeline that can become a draft of a trip: something on it, no place used twice, no day after the trip. */
  predicate Drafts(trip: Trip, items: seq<Item>) {
    && |items| >= 1
    && (forall k :: 0 <= k < |items| ==> items[k].day <= trip.endDate - trip.startDate + 1)
    && (forall i, j :: 0 <= i < j < |items| ==> items[i].day != items[j].day || items[i].position != items[j].position)
  }

  /**
   A draft is made exactly in a trip of one's own from a timeline that fits it; it is stored with
   that timeline under the number given to it, and nothing else changes.
   */
  lemma CreateAnswer(db: Db, user: Uuid, trip: Uuid, id: Uuid, version: int, items: seq<Item>)
    requires id !in db.itineraries
    ensures var (r, db') := Create(db, user, trip, id, version, items);
            && (r.Success? <==> trip in db.trips && db.trips[trip].user == user && Drafts(db.trips[trip], items))
            && (r.Success? ==>
                  && r.value == id
                  && db' == Db(db.trips, db.itineraries[id := Itinerary(trip, None, version, Draft, items)]))
            && (r.Failure? ==> db' == db)
            && (r == Failure(NoItems) <==> items == [])
            && (r == Failure(DuplicatePosition) <==> items != [] && !DistinctPositions(items))
            && (r == Failure(TripNotFound) <==>
                items != [] && DistinctPositions(items) && !(trip in db.trips && db.trips[trip].user == user))
  {
  }

  /**
   Generation answers with the itinerary the message already has, or makes one exactly in a trip of
   one's own from a timeline that fits it, provided nobody else's itinerary has the message.
   */
  lemma GenerateAnswer(
    db: Db, user: Uuid, trip: Uuid, id: Uuid, source: Uuid, version: int, items: seq<Item>, found: Option<Uuid>)
    requires id !in db.itineraries && FoundBySource(db, user, source, found)
    ensures var (r, db') := Generate(db, user, trip, id, source, version, items, None, found);
            var owns := trip in db.trips && db.trips[trip].user == user;
            var taken := exists other :: other in db.itineraries && db.itineraries[other].source == Some(source);
            && (found.Some? <==>
                exists other ::
                  && other in db.itineraries && db.itineraries[other].source == Some(source)
                  && db.itineraries[other].trip in db.trips && db.trips[db.itineraries[other].trip].user == user)
            && (found.Some? ==> db' == db && (r.Success? ==> r.value == found.value)
                                && (r.Success? <==> owns && |items| >= 1 && DistinctPositions(items)))
            && (found.None? ==>
                  && (r.Success? <==> owns && Drafts(db.trips[trip], items) && !taken)
                  && (r.Success? ==>
                        && r.value == id
                        && db' == Db(db.trips,
                                     db.itineraries[id := Itinerary(trip, Some(source), version, Draft, items)]))
                  && (r.Failure? ==> db' == db))
  {
  }

  /**
   Generation keeps the caller's staged work exactly when it stops before the trip lock, or stages
   a new draft beside it; only the draft is ever committed.
   */
  lemma StagedWorkIsKeptIff(
    db: Db, user: Uuid, trip: Uuid, id: Uuid, source: Uuid, version: int, items: seq<Item>, seen: Option<Uuid>,
    found: Option<Uuid>)
    ensures var r := Generate(db, user, trip, id, source, version, items, seen, found).0;
            var stops := items == [] || !DistinctPositions(items) || seen.Some?;
            var drafts := seen.None? && found.None? && r.Success?;
            && (!Discards(db, user, trip, source, items, seen, found) <==> stops || drafts)
            && (Creates(db, user, trip, source, items, seen, found) <==> drafts)
            && (items == [] <==> r == Failure(NoItems))
            && (items != [] && !DistinctPositions(items) <==> r == Failure(DuplicatePosition))
            && (items != [] && DistinctPositions(items) && seen.Some? ==> r == Success(seen.value))
  {
  }

  /**
   A save succeeds exactly for an itinerary in one's own trip that has items and was not superseded.
   It is the saved one from then on, whatever was saved in its trip before is superseded, and no
   other row changes.
   */
  lemma SaveAnswer(db: Db, user: Uuid, id: Uuid)
    requires OneSavedPerTrip(db)
    ensures var (r, db') := Save(db, user, id);
            && (r.Success? <==>
                && id in db.itineraries && db.itineraries[id].trip in db.trips
                && db.trips[db.itineraries[id].trip].user == user
                && db.itineraries[id].items != [] && db.itineraries[id].status != Superseded)
            && (r.Failure? ==> db' == db)
            && (r == Failure(SupersededCannotBeSaved) <==>
                Owned(db, user, id) && db.itineraries[id].status == Superseded)
            && (r == Failure(EmptyCannotBeSaved) <==>
                Owned(db, user, id) && db.itineraries[id].status != Superseded && db.itineraries[id].items == [])
            && (r.Success? ==>
                  && r.value == id && db'.trips == db.trips && db'.itineraries.Keys == db.itineraries.Keys
                  && forall other :: other in db.itineraries ==>
                       var row := db.itineraries[other];
                       db'.itineraries[other] ==
                       if other == id then row.(status := Saved)
                       else if row.trip == db.itineraries[id].trip && row.status == Saved then
                         row.(status := Superseded)
                       else row)
  {
  }

  // ---------------------------------------------------------------- every single write

  /** Both writes of a save respect the unique index. */
  lemma DemoteThenPromoteKeepsIndex(db: Db, id: Uuid)
    requires id in db.itineraries && OneSavedPerTrip(db)
    ensures OneSavedPerTrip(Demoted(db, id)) && OneSavedPerTrip(Promoted(Demoted(db, id), id))
  {
  }

  /** In the other order the first write would break the index whenever it has anything to supersede. */
  lemma PromoteFirstBreaksIndex(db: Db, id: Uuid)
    requires id in db.itineraries && OneSavedPerTrip(db) && db.itineraries[id].status.Draft?
    ensures OneSavedPerTrip(Promoted(db, id)) <==>
            forall other :: other in db.itineraries && db.itineraries[other].trip == db.itineraries[id].trip ==>
              !db.itineraries[other].status.Saved?
  {
    var promoted := Promoted(db, id);
    forall other | other in db.itineraries && other != id
      ensures promoted.itineraries[other] == db.itineraries[other] {}
    assert promoted.itineraries[id].status.Saved?;
  }

  // ---------------------------------------------------------------- whole runs

  datatype Step =
    | AddTrip(trip: Uuid, user: Uuid)
    | ChangeDates(trip: Uuid, startDate: Date, endDate: Date)
    | EmptyDraft(trip: Uuid, id: Uuid, version: int)
    | DraftByHand(user: Uuid, trip: Uuid, id: Uuid, version: int, items: seq<Item>)
    | DraftByMessage(user: Uuid, trip: Uuid, id: Uuid, source: Uuid, version: int, items: seq<Item>,
                     seen: Option<Uuid>, found: Option<Uuid>)
    | SaveOne(user: Uuid, id: Uuid)

  function Init(): Db {
    Db(map[], map[])
  }

  predicate Enabled(db: Db, step: Step) {
    match step
    case AddTrip(trip, _) => trip !in db.trips
    case ChangeDates(trip, _, _) => trip in db.trips
    case EmptyDraft(trip, id, version) => trip in db.trips && id !in db.itineraries && NextVersion(db, trip, version)
    case DraftByHand(_, trip, id, version, _) => id !in db.itineraries && NextVersion(db, trip, version)
    case DraftByMessage(user, trip, id, source, version, _, seen, found) =>
      && id !in db.itineraries && NextVersion(db, trip, version)
      && FoundBySource(db, user, source, found)
      // Itineraries are never removed, so an earlier look-up missed the row or found this one.
      && (seen.None? || seen == found)
    case SaveOne(_, _) => true
  }

  function Answer(db: Db, step: Step): (Result<Uuid, Error>, Db) {
    match step
    case AddTrip(trip, user) => (Success(trip), db.(trips := db.trips[trip := Trip(user, 1, 1)]))
    case ChangeDates(trip, startDate, endDate) =>
      if trip in db.trips then
        (Success(trip), db.(trips := db.trips[trip := db.trips[trip].(startDate := startDate, endDate := endDate)]))
      else (Failure(TripNotFound), db)
    case EmptyDraft(trip, id, version) => (Success(id), WithDraft(db, id, trip, None, version, []))
    case DraftByHand(user, trip, id, version, items) => Create(db, user, trip, id, version, items)
    case DraftByMessage(user, trip, id, source, version, items, seen, found) =>
      Generate(db, user, trip, id, source, version, items, seen, found)
    case SaveOne(user, id) => Save(db, user, id)
  }

  function Next(db: Db, step: Step): Db {
    Answer(db, step).1
  }

  predicate Legal(db: Db, steps: seq<Step>)
    decreases |steps|
  {
    steps == [] || (Enabled(db, steps[0]) && Legal(Next(db, steps[0]), steps[1..]))
  }

  function After(db: Db, steps: seq<Step>): Db
    decreases |steps|
  {
    if steps == [] then db else After(Next(db, steps[0]), steps[1..])
  }

  function Versions(db: Db, trip: Uuid): set<Uuid> {
    set id | id in db.itineraries && db.itineraries[id].trip == trip
  }

  /** The trip's versions are exactly 1, 2, ..., n for its n itineraries, each used once. */
  predicate Numbered(db: Db, trip: Uuid) {
    && (forall id :: id in Versions(db, trip) ==> 1 <= db.itineraries[id].version <= |Versions(db, trip)|)
    && (forall a, b :: a in Versions(db, trip) && b in Versions(db, trip) && a != b ==>
          db.itineraries[a].version != db.itineraries[b].version)
    && (forall v {:trigger HasVersion(db, trip, v)} :: 1 <= v <= |Versions(db, trip)| ==> HasVersion(db, trip, v))
  }

  predicate HasVersion(db: Db, trip: Uuid, version: int) {
    exists id :: id in Versions(db, trip) && db.itineraries[id].version == version
  }

  predicate HasSaved(db: Db, trip: Uuid) {
    exists id :: id in db.itineraries && db.itineraries[id].trip == trip && db.itineraries[id].status.Saved?
  }

  predicate RowFits(db: Db, id: Uuid)
    requires id in db.itineraries
  {
    && db.itineraries[id].trip in db.trips
    && (db.itineraries[id].status.Saved? ==> db.itineraries[id].items != [])
    && (db.itineraries[id].status.Superseded? ==> HasSaved(db, db.itineraries[id].trip))
  }

  predicate Sound(db: Db) {
    && OneSavedPerTrip(db)
    && (forall id :: id in db.itineraries ==> RowFits(db, id))
    && (forall a, b :: a in db.itineraries && b in db.itineraries && a != b && db.itineraries[a].source.Some? ==>
          db.itineraries[a].source != db.itineraries[b].source)
  }

  ghost predicate Consistent(db: Db) {
    Sound(db) && forall trip :: Numbered(db, trip)
  }

  lemma VersionSurvives(db: Db, db': Db, trip: Uuid, version: int)
    requires HasVersion(db, trip, version)
    requires forall id :: id in db.itineraries ==>
               id in db'.itineraries && db'.itineraries[id].(status := Draft) == db.itineraries[id].(status := Draft)
    ensures HasVersion(db', trip, version)
  {
    var id :| id in Versions(db, trip) && db.itineraries[id].version == version;
    assert id in Versions(db', trip);
  }

  lemma DraftKeepsOtherNumbering(db: Db, id: Uuid, trip: Uuid, source: Option<Uuid>, version: int, items: seq<Item>,
                                 t: Uuid)
    requires id !in db.itineraries && t != trip && Numbered(db, t)
    ensures Numbered(WithDraft(db, id, trip, source, version, items), t)
  {
    var db' := WithDraft(db, id, trip, source, version, items);
    assert Versions(db', t) == Versions(db, t);
    forall v | 1 <= v <= |Versions(db', t)| ensures HasVersion(db', t, v) {
      VersionSurvives(db, db', t, v);
    }
  }

  lemma DraftVersions(db: Db, id: Uuid, trip: Uuid, source: Option<Uuid>, version: int, items: seq<Item>)
    requires id !in db.itineraries && Numbered(db, trip) && version == |Versions(db, trip)| + 1
    ensures var db' := WithDraft(db, id, trip, source, version, items);
            && Versions(db', trip) == Versions(db, trip) + {id} && |Versions(db', trip)| == version
            && (forall a :: a in Versions(db', trip) ==> 1 <= db'.itineraries[a].version <= version)
            && (forall a, b :: a in Versions(db', trip) && b in Versions(db', trip) && a != b ==>
                  db'.itineraries[a].version != db'.itineraries[b].version)
  {
    var db' := WithDraft(db, id, trip, source, version, items);
    assert Versions(db', trip) == Versions(db, trip) + {id};
    forall a | a in Versions(db', trip)
      ensures 1 <= db'.itineraries[a].version <= version && (db'.itineraries[a].version == version <==> a == id)
    {
      assert a == id || (a in Versions(db, trip) && db'.itineraries[a] == db.itineraries[a]);
    }
  }

  lemma DraftExtendsNumbering(db: Db, id: Uuid, trip: Uuid, source: Option<Uuid>, version: int, items: seq<Item>)
    requires id !in db.itineraries && NextVersion(db, trip, version) && Numbered(db, trip)
    ensures Numbered(WithDraft(db, id, trip, source, version, items), trip)
  {
    var db' := WithDraft(db, id, trip, source, version, items);
    NextVersionIsCount(db, trip, version);
    DraftVersions(db, id, trip, source, version, items);
    forall v | 1 <= v <= |Versions(db', trip)| ensures HasVersion(db', trip, v) {
      DraftHasVersion(db, id, trip, source, version, items, v);
    }
  }

  lemma DraftHasVersion(db: Db, id: Uuid, trip: Uuid, source: Option<Uuid>, version: int, items: seq<Item>, v: int)
    requires id !in db.itineraries && 1 <= v <= version && (v < version ==> HasVersion(db, trip, v))
    ensures HasVersion(WithDraft(db, id, trip, source, version, items), trip, v)
  {
    var db' := WithDraft(db, id, trip, source, version, items);
    if v < version {
      VersionSurvives(db, db', trip, v);
    } else {
      assert id in Versions(db', trip) && db'.itineraries[id].version == v;
    }
  }

  lemma NextVersionIsCount(db: Db, trip: Uuid, version: int)
    requires Numbered(db, trip) && NextVersion(db, trip, version)
    ensures version == |Versions(db, trip)| + 1
  {
    var n := |Versions(db, trip)|;
    if version != 1 {
      var id :| id in db.itineraries && db.itineraries[id].trip == trip && db.itineraries[id].version == version - 1;
      assert id in Versions(db, trip);
    }
    if n >= 1 {
      assert HasVersion(db, trip, n);
      var id :| id in Versions(db, trip) && db.itineraries[id].version == n;
    }
  }

  /** Rows keep everything but their status. */
  predicate OnlyStatusChanged(db: Db, db': Db) {
    && db'.itineraries.Keys == db.itineraries.Keys
    && forall id :: id in db.itineraries ==>
         db'.itineraries[id] == db.itineraries[id].(status := db'.itineraries[id].status)
  }

  lemma StatusKeepsNumbering(db: Db, db': Db, trip: Uuid)
    requires OnlyStatusChanged(db, db') && Numbered(db, trip)
    ensures Numbered(db', trip)
  {
    assert Versions(db', trip) == Versions(db, trip);
    forall v | 1 <= v <= |Versions(db', trip)| ensures HasVersion(db', trip, v) {
      assert HasVersion(db, trip, v);
    }
  }

  lemma DraftKeepsConsistent(db: Db, id: Uuid, trip: Uuid, source: Option<Uuid>, version: int, items: seq<Item>)
    requires Consistent(db) && id !in db.itineraries && trip in db.trips
    requires NextVersion(db, trip, version) && !SourceTaken(db, source)
    ensures Consistent(WithDraft(db, id, trip, source, version, items))
  {
    var db' := WithDraft(db, id, trip, source, version, items);
    forall t ensures Numbered(db', t) {
      assert Numbered(db, t);
      if t == trip {
        DraftExtendsNumbering(db, id, trip, source, version, items);
      } else {
        DraftKeepsOtherNumbering(db, id, trip, source, version, items, t);
      }
    }
    forall t | HasSaved(db, t) ensures HasSaved(db', t) {
      var s :| s in db.itineraries && db.itineraries[s].trip == t && db.itineraries[s].status.Saved?;
      assert s in db'.itineraries && db'.itineraries[s] == db.itineraries[s];
    }
  }

  lemma SaveKeepsConsistent(db: Db, user: Uuid, id: Uuid)
    requires Consistent(db)
    ensures Consistent(Save(db, user, id).1)
    ensures forall trip :: HasSaved(db, trip) ==> HasSaved(Save(db, user, id).1, trip)
  {
    if Save(db, user, id).0.Success? && db.itineraries[id].status.Draft? {
      SaveKeepsNumbering(db, id);
      SaveKeepsSaved(db, id);
      SaveKeepsRows(db, id);
    }
  }

  /** The state after both writes of a save. */
  function Replaced(db: Db, id: Uuid): Db
    requires id in db.itineraries
  {
    Promoted(Demoted(db, id), id)
  }

  lemma SaveKeepsNumbering(db: Db, id: Uuid)
    requires id in db.itineraries && forall trip :: Numbered(db, trip)
    ensures forall trip :: Numbered(Replaced(db, id), trip)
  {
    forall trip ensures Numbered(Replaced(db, id), trip) {
      assert Numbered(db, trip);
      StatusKeepsNumbering(db, Replaced(db, id), trip);
    }
  }

  lemma SaveKeepsSaved(db: Db, id: Uuid)
    requires id in db.itineraries
    ensures HasSaved(Replaced(db, id), db.itineraries[id].trip)
    ensures forall trip :: HasSaved(db, trip) ==> HasSaved(Replaced(db, id), trip)
  {
    var db' := Replaced(db, id);
    assert id in db'.itineraries && db'.itineraries[id].status.Saved?;
    forall trip | HasSaved(db, trip) ensures HasSaved(db', trip) {
      var s :| s in db.itineraries && db.itineraries[s].trip == trip && db.itineraries[s].status.Saved?;
      assert trip != db.itineraries[id].trip ==> db'.itineraries[s] == db.itineraries[s];
    }
  }

  lemma SaveKeepsRow(db: Db, id: Uuid, other: Uuid)
    requires id in db.itineraries && db.itineraries[id].items != []
    requires other in db.itineraries && RowFits(db, other)
    ensures RowFits(Replaced(db, id), other)
  {
    SaveKeepsSaved(db, id);
  }

  lemma SaveKeepsRows(db: Db, id: Uuid)
    requires id in db.itineraries && db.itineraries[id].items != [] && Sound(db)
    ensures Sound(Replaced(db, id))
  {
    DemoteThenPromoteKeepsIndex(db, id);
    forall other | other in db.itineraries ensures RowFits(Replaced(db, id), other) {
      SaveKeepsRow(db, id, other);
    }
  }

  lemma TripsKeepConsistent(db: Db, db': Db)
    requires Consistent(db) && db'.itineraries == db.itineraries && db.trips.Keys <= db'.trips.Keys
    ensures Consistent(db')
  {
    forall trip ensures Numbered(db', trip) {
      assert Numbered(db, trip);
      StatusKeepsNumbering(db, db', trip);
    }
    forall trip | HasSaved(db, trip) ensures HasSaved(db', trip) {
      var s :| s in db.itineraries && db.itineraries[s].trip == trip && db.itineraries[s].status.Saved?;
      assert db'.itineraries[s] == db.itineraries[s];
    }
  }

  lemma StepKeepsConsistent(db: Db, step: Step)
    requires Consistent(db) && Enabled(db, step)
    ensures Consistent(Next(db, step))
  {
    match step
    case EmptyDraft(trip, id, version) => DraftKeepsConsistent(db, id, trip, None, version, []);
    case DraftByHand(user, trip, id, version, items) =>
      if Answer(db, step).0.Success? {
        DraftKeepsConsistent(db, id, trip, None, version, items);
      }
    case DraftByMessage(user, trip, id, source, version, items, seen, found) =>
      if Next(db, step) != db {
        DraftKeepsConsistent(db, id, trip, Some(source), version, items);
      }
    case SaveOne(user, id) => SaveKeepsConsistent(db, user, id);
    case _ => TripsKeepConsistent(db, Next(db, step));
  }

  lemma {:induction false} RunKeepsConsistent(db: Db, steps: seq<Step>)
    requires Consistent(db) && Legal(db, steps)
    ensures Consistent(After(db, steps))
    decreases |steps|
  {
    if steps != [] {
      StepKeepsConsistent(db, steps[0]);
      RunKeepsConsistent(Next(db, steps[0]), steps[1..]);
    }
  }

  /**
   In every reachable state each trip's versions are exactly 1..n, at most one itinerary per
   trip is saved and it has items, and no two itineraries come from one message.
   */
  lemma ReachableIsConsistent(steps: seq<Step>, trip: Uuid)
    requires Legal(Init(), steps)
    ensures Numbered(After(Init(), steps), trip) && Sound(After(Init(), steps))
  {
    assert Consistent(Init());
    RunKeepsConsistent(Init(), steps);
  }

  /** What no step ever takes back. */
  ghost predicate Preserved(db: Db, db': Db) {
    && (forall trip :: trip in db.trips ==> trip in db'.trips && db'.trips[trip].user == db.trips[trip].user)
    && (forall id :: id in db.itineraries ==>
          && id in db'.itineraries
          && db'.itineraries[id].(status := Draft) == db.itineraries[id].(status := Draft)
          && (db.itineraries[id].status.Superseded? ==> db'.itineraries[id].status.Superseded?)
          && (db.itineraries[id].status.Saved? ==> !db'.itineraries[id].status.Draft?))
    && (forall trip :: HasSaved(db, trip) ==> HasSaved(db', trip))
  }

  lemma GrowthPreserves(db: Db, db': Db)
    requires forall trip :: trip in db.trips ==> trip in db'.trips && db'.trips[trip].user == db.trips[trip].user
    requires forall id :: id in db.itineraries ==> id in db'.itineraries && db'.itineraries[id] == db.itineraries[id]
    ensures Preserved(db, db')
  {
    forall trip | HasSaved(db, trip) ensures HasSaved(db', trip) {
      var s :| s in db.itineraries && db.itineraries[s].trip == trip && db.itineraries[s].status.Saved?;
      assert s in db'.itineraries && db'.itineraries[s] == db.itineraries[s];
    }
  }

  /** The status a save leaves on each row; everything else in the row stays. */
  lemma SaveEffect(db: Db, user: Uuid, id: Uuid, other: Uuid)
    requires other in db.itineraries
    ensures other in Save(db, user, id).1.itineraries
    ensures var before, after := db.itineraries[other], Save(db, user, id).1.itineraries[other];
            && after == before.(status := after.status)
            && (before.status == after.status
                || (before.status.Draft? && after.status.Saved? && other == id)
                || (before.status.Saved? && after.status.Superseded? && other != id))
  {
  }

  lemma SavePreserves(db: Db, user: Uuid, id: Uuid)
    requires Consistent(db)
    ensures Preserved(db, Save(db, user, id).1)
  {
    var db' := Save(db, user, id).1;
    assert forall trip :: HasSaved(db, trip) ==> HasSaved(db', trip) by {
      SaveKeepsConsistent(db, user, id);
    }
    forall other | other in db.itineraries
      ensures && other in db'.itineraries
              && db'.itineraries[other].(status := Draft) == db.itineraries[other].(status := Draft)
              && (db.itineraries[other].status.Superseded? ==> db'.itineraries[other].status.Superseded?)
              && (db.itineraries[other].status.Saved? ==> !db'.itineraries[other].status.Draft?)
    {
      SaveEffect(db, user, id, other);
    }
  }

  lemma StepPreserves(db: Db, step: Step)
    requires Consistent(db) && Enabled(db, step)
    ensures Preserved(db, Next(db, step))
  {
    match step
    case SaveOne(user, id) => SavePreserves(db, user, id);
    case _ => GrowthPreserves(db, Next(db, step));
  }

  /**
   Along every run: a superseded version never comes back, a saved one is only ever
   superseded, contents and numbers never change, and a trip with a saved itinerary keeps
   exactly one.
   */
  lemma {:induction false} RunPreserves(db: Db, steps: seq<Step>)
    requires Consistent(db) && Legal(db, steps)
    ensures Preserved(db, After(db, steps)) && OneSavedPerTrip(After(db, steps))
    decreases |steps|
  {
    if steps != [] {
      StepPreserves(db, steps[0]);
      StepKeepsConsistent(db, steps[0]);
      RunPreserves(Next(db, steps[0]), steps[1..]);
    }
  }

  /** Saves that touch this trip. */
  predicate SavesIn(db: Db, step: Step, trip: Uuid) {
    step.SaveOne? && step.id in db.itineraries && db.itineraries[step.id].trip == trip
  }

  predicate NoSaveIn(db: Db, steps: seq<Step>, trip: Uuid)
    decreases |steps|
  {
    steps == [] || (!SavesIn(db, steps[0], trip) && NoSaveIn(Next(db, steps[0]), steps[1..], trip))
  }

  lemma StepKeepsSavedRow(db: Db, step: Step, id: Uuid)
    requires Consistent(db) && Enabled(db, step) && id in db.itineraries && db.itineraries[id].status.Saved?
    requires !SavesIn(db, step, db.itineraries[id].trip)
    ensures id in Next(db, step).itineraries && Next(db, step).itineraries[id] == db.itineraries[id]
  {
  }

  lemma {:induction false} RunKeepsSavedRow(db: Db, steps: seq<Step>, id: Uuid)
    requires Consistent(db) && Legal(db, steps) && id in db.itineraries && db.itineraries[id].status.Saved?
    requires NoSaveIn(db, steps, db.itineraries[id].trip)
    ensures id in After(db, steps).itineraries && After(db, steps).itineraries[id] == db.itineraries[id]
    decreases |steps|
  {
    if steps != [] {
      StepKeepsSavedRow(db, steps[0], id);
      StepKeepsConsistent(db, steps[0]);
      RunKeepsSavedRow(Next(db, steps[0]), steps[1..], id);
    }
  }

  /**
   The last save decides: from an accepted save on, until the next one in the trip, the itinerary
   it named is saved, with the items it had, and is the only one of its trip that is.
   */
  lemma LastSaveDecides(before: seq<Step>, user: Uuid, id: Uuid, after: seq<Step>)
    requires Legal(Init(), before) && Save(After(Init(), before), user, id).0.Success?
    requires var db := Save(After(Init(), before), user, id).1;
             Legal(db, after) && NoSaveIn(db, after, After(Init(), before).itineraries[id].trip)
    ensures var first := After(Init(), before).itineraries[id];
            var rows := After(Save(After(Init(), before), user, id).1, after).itineraries;
            && id in rows && rows[id] == first.(status := Saved)
            && forall other :: other in rows && rows[other].trip == first.trip && rows[other].status.Saved? ==>
                 other == id
  {
    var db := After(Init(), before);
    assert Consistent(Init());
    RunKeepsConsistent(Init(), before);
    SaveAnswer(db, user, id);
    SaveKeepsConsistent(db, user, id);
    RunKeepsSavedRow(Save(db, user, id).1, after, id);
    RunKeepsConsistent(Save(db, user, id).1, after);
  }

  /** A message that has its itinerary gets the very same one back on every later call, and nothing changes. */
  lemma {:induction false} RepeatedGenerationReturnsFirst(db: Db, first: Step, between: seq<Step>, again: Step)
    requires Consistent(db) && first.DraftByMessage? && again.DraftByMessage?
    requires Enabled(db, first) && Answer(db, first).0.Success?
    requires Legal(Next(db, first), between) && Enabled(After(Next(db, first), between), again)
    requires again.user == first.user && again.source == first.source
    ensures var db' := After(Next(db, first), between);
            && Next(db', again) == db'
            && (Answer(db', again).0.Success? ==> Answer(db', again).0 == Answer(db, first).0)
            && (Answer(db', again).0.Success? <==>
                  ValidItems(again.items)
                  && (again.seen.Some? || OwnedTrip(db', again.user, again.trip)))
  {
    var id := Answer(db, first).0.value;
    StepKeepsConsistent(db, first);
    FirstIsStored(db, first);
    RunPreserves(Next(db, first), between);
    RunKeepsConsistent(Next(db, first), between);
    var db' := After(Next(db, first), between);
    assert Owned(db', first.user, id) && db'.itineraries[id].source == Some(first.source);
    assert again.found == Some(id);
  }

  lemma FirstIsStored(db: Db, first: Step)
    requires first.DraftByMessage? && Enabled(db, first) && Answer(db, first).0.Success?
    ensures var id := Answer(db, first).0.value;
            Owned(Next(db, first), first.user, id) && Next(db, first).itineraries[id].source == Some(first.source)
  {
  }
}
