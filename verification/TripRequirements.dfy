/** Partial trip requirements collected over a conversation, and the merge of one turn's updates. */
module TripRequirements {
  import opened Preferences
  import opened TripRules
  import opened Wrappers

  datatype Transport = Flight | Road | Rail | OwnArrangements
  datatype Cabin = Economy | PremiumEconomy | Business | First
  datatype BudgetDecision = Specified | Undecided | NoLimit
  const MAX_WINDOW_DAYS := 31

  datatype Requirements = Requirements(
    destination: Option<Text>,
    origin: Option<Text>,
    startDate: Option<Date>,
    endDate: Option<Date>,
    windowStart: Option<Date>,
    windowEnd: Option<Date>,
    durationDays: Option<int>,
    adults: Option<int>,
    minorCount: Option<int>,
    minorAges: Option<seq<int>>,
    transport: Option<Transport>,
    cabin: Option<Cabin>,
    infantOnLap: Option<seq<bool>>,
    needsLodging: Option<bool>,
    rooms: Option<int>,
    budgetDecision: Option<BudgetDecision>,
    totalBudget: Option<real>,
    currency: Option<string>,
    interests: seq<Text>,
    pace: Option<Pace>,
    constraints: seq<string>)
  {
    /** An explicit end date, or the one an inclusive duration gives. */
    function ResolvedEndDate(): Option<Date> {
      if endDate.Some? then endDate
      else if startDate.Some? && durationDays.Some? then EndDateFromDuration(startDate.value, durationDays.value)
      else None
    }

    /** Resolving the end date raises when the duration runs off the calendar. */
    predicate CalendarFits() {
      endDate.None? && startDate.Some? && durationDays.Some? ==>
        EndDateFromDuration(startDate.value, durationDays.value).Some?
    }

    function KnownMinors(): int {
      if minorCount.Some? then minorCount.value
      else if minorAges.Some? then |minorAges.value|
      else 0
    }
  }

  const EMPTY := Requirements(
    None, None, None, None, None, None, None, None, None, None, None,
    None, None, None, None, None, None, None, [], None, [])

  // ---------------------------------------------------------------- field constraints

  predicate ValidName(name: Option<Text>) {
    name.Some? ==> 2 <= |name.value.value| <= 120
  }

  predicate InRange(n: Option<int>, low: int, high: int) {
    n.Some? ==> low <= n.value <= high
  }

  predicate ValidCurrency(code: string) {
    |code| == 3 && forall i :: 0 <= i < 3 ==> 'A' <= code[i] <= 'Z'
  }

  predicate ValidInterests(values: seq<Text>) {
    |values| <= 10 && forall i :: 0 <= i < |values| ==> 1 <= |values[i].value| <= 60
  }

  predicate FieldsValid(r: Requirements) {
    && ValidName(r.destination) && ValidName(r.origin)
    && (r.durationDays.Some? ==> r.durationDays.value >= 2)
    && InRange(r.adults, 1, MAX_TRAVELERS)
    && InRange(r.minorCount, 0, MAX_TRAVELERS - 1)
    && (r.minorAges.Some? ==>
          && |r.minorAges.value| <= MAX_TRAVELERS - 1
          && forall i :: 0 <= i < |r.minorAges.value| ==> 0 <= r.minorAges.value[i] <= 17)
    && (r.infantOnLap.Some? ==> |r.infantOnLap.value| <= MAX_TRAVELERS - 1)
    && InRange(r.rooms, 1, MAX_TRAVELERS)
    && (r.totalBudget.Some? ==> r.totalBudget.value > 0.0)
    && (r.currency.Some? ==> ValidCurrency(r.currency.value))
    && ValidInterests(r.interests)
    && |r.constraints| <= 10
    && forall i :: 0 <= i < |r.constraints| ==> 1 <= |r.constraints[i]| <= 300
  }

  // ---------------------------------------------------------------- the validator

  datatype Violation =
    | FieldOutOfRange
    | CalendarOverflow
    | EndNotAfterStart
    | DurationMismatch
    | SameLocations
    | DatesAndWindowMixed
    | WindowNotOrdered
    | WindowTooLong
    | DurationExceedsWindow
    | AgesMismatch
    | TooManyTravelers
    | SeatingWithoutAges
    | SeatingIncomplete
    | LapInfantsUnaccompanied
    | TooManyRooms
    | AmountWithoutDecision
    | ExactAndWindowTogether

  function Infants(ages: seq<int>): seq<int> {
    if ages == [] then []
    else (if ages[0] < 2 then [ages[0]] else []) + Infants(ages[1..])
  }

  function CountTrue(flags: seq<bool>): nat {
    if flags == [] then 0 else (if flags[0] then 1 else 0) + CountTrue(flags[1..])
  }

  predicate ExactDates(r: Requirements) {
    r.startDate.Some? || r.endDate.Some?
  }

  predicate WindowDates(r: Requirements) {
    r.windowStart.Some? || r.windowEnd.Some?
  }

  function WindowViolation(r: Requirements): Option<Violation> {
    if r.windowStart.None? || r.windowEnd.None? then None
    else if !TripDatesOrdered(r.windowStart, r.windowEnd) then Some(WindowNotOrdered)
    else if InclusiveDayCount(r.windowStart.value, r.windowEnd.value) > MAX_WINDOW_DAYS then Some(WindowTooLong)
    else if r.durationDays.Some?
      && r.durationDays.value > InclusiveDayCount(r.windowStart.value, r.windowEnd.value) then
      Some(DurationExceedsWindow)
    else None
  }

  function PartyViolation(r: Requirements): Option<Violation> {
    if r.minorCount.Some? && r.minorAges.Some? && |r.minorAges.value| != r.minorCount.value then Some(AgesMismatch)
    else if r.adults.Some? && r.adults.value + r.KnownMinors() > MAX_TRAVELERS then Some(TooManyTravelers)
    else if r.infantOnLap.None? then None
    else if r.minorAges.None? then Some(SeatingWithoutAges)
    else if |r.infantOnLap.value| != |Infants(r.minorAges.value)| then Some(SeatingIncomplete)
    else if !LapInfantsAccompanied(r.adults, CountTrue(r.infantOnLap.value)) then Some(LapInfantsUnaccompanied)
    else None
  }

  /** The first contradiction the validator reports; missing information is not one. */
  function FirstViolation(r: Requirements): Option<Violation> {
    if !FieldsValid(r) then Some(FieldOutOfRange)
    else if !r.CalendarFits() then Some(CalendarOverflow)
    else if !TripDatesOrdered(r.startDate, r.ResolvedEndDate()) then Some(EndNotAfterStart)
    else if r.startDate.Some? && r.endDate.Some? && r.durationDays.Some?
            && r.durationDays.value != InclusiveDayCount(r.startDate.value, r.endDate.value) then Some(DurationMismatch)
    else if !DistinctLocations(r.origin, r.destination) then Some(SameLocations)
    else if ExactDates(r) && WindowDates(r) then Some(DatesAndWindowMixed)
    else if WindowViolation(r).Some? then WindowViolation(r)
    else if PartyViolation(r).Some? then PartyViolation(r)
    else if r.needsLodging == Some(true) && !RoomsStaffed(r.adults, r.rooms) then Some(TooManyRooms)
    else if r.budgetDecision.Some? && !r.budgetDecision.value.Specified? && r.totalBudget.Some?
      then Some(AmountWithoutDecision)
    else None
  }

  predicate Valid(r: Requirements) {
    FirstViolation(r).None? && DistinctKeys(r.interests)
  }

  /** Construct validated requirements: interests are deduplicated, contradictions raise. */
  function Validated(r: Requirements): Result<Requirements, Violation> {
    if FirstViolation(r).Some? then Failure(FirstViolation(r).value)
    else Success(r.(interests := FirstOccurrences(r.interests)))
  }

  lemma ValidatedIsValid(r: Requirements)
    ensures Validated(r).Success? ==> Valid(Validated(r).value)
    ensures Valid(r) ==> Validated(r) == Success(r)
  {
    FirstOccurrencesKeepsKeys(r.interests);
    if Valid(r) {
      DistinctIsFixed(r.interests);
    }
    if Validated(r).Success? {
      var v := Validated(r).value;
      forall i | 0 <= i < |v.interests| ensures 1 <= |v.interests[i].value| <= 60 {
        assert v.interests[i] in r.interests;
      }
      assert FieldsValid(v);
    }
  }

  // ---------------------------------------------------------------- the merge

  /** One turn's word on a field: nothing, or a new value that may be null. */
  datatype Change<+T> = Keep | Set(value: Option<T>)

  datatype Updates = Updates(
    destination: Change<Text>,
    origin: Change<Text>,
    startDate: Change<Date>,
    endDate: Change<Date>,
    windowStart: Change<Date>,
    windowEnd: Change<Date>,
    durationDays: Change<int>,
    adults: Change<int>,
    minorCount: Change<int>,
    minorAges: Change<seq<int>>,
    transport: Change<Transport>,
    cabin: Change<Cabin>,
    infantOnLap: Change<seq<bool>>,
    needsLodging: Change<bool>,
    rooms: Change<int>,
    budgetDecision: Change<BudgetDecision>,
    totalBudget: Change<real>,
    currency: Change<string>,
    interests: Change<seq<Text>>,
    pace: Change<Pace>,
    constraints: Change<seq<string>>)

  const NO_UPDATES := Updates(
    Keep, Keep, Keep, Keep, Keep, Keep, Keep, Keep, Keep, Keep, Keep,
    Keep, Keep, Keep, Keep, Keep, Keep, Keep, Keep, Keep, Keep)

  /** The supplied value, or `otherwise` for an omitted field. */
  function Or<T>(change: Change<T>, otherwise: Option<T>): Option<T> {
    if change.Set? then change.value else otherwise
  }

  function OrList<T>(change: Change<seq<T>>, otherwise: seq<T>): seq<T> {
    match change
    case Keep => otherwise
    case Set(None) => []
    case Set(Some(values)) => values
  }

  predicate Supplied<T>(change: Change<T>) {
    change.Set? && change.value.Some?
  }

  predicate ExactSupplied(u: Updates) {
    Supplied(u.startDate) || Supplied(u.endDate)
  }

  predicate WindowSupplied(u: Updates) {
    Supplied(u.windowStart) || Supplied(u.windowEnd)
  }

  function Unless<T>(cleared: bool, current: Option<T>): Option<T> {
    if cleared then None else current
  }

  predicate BudgetWaived(u: Updates) {
    Supplied(u.budgetDecision) && !u.budgetDecision.value.value.Specified?
  }

  predicate MinorsReset(c: Requirements, u: Updates) {
    u.minorCount.Set? && (u.minorCount.value != c.minorCount || u.minorCount.value == Some(0))
  }

  /** What each field becomes: its own update if there is one, else null when a field it depends on moved. */
  function Merged(c: Requirements, u: Updates): Requirements {
    Requirements(
      Or(u.destination, c.destination),
      Or(u.origin, c.origin),
      Or(u.startDate, Unless(WindowSupplied(u), c.startDate)),
      Or(u.endDate, Unless(WindowSupplied(u) || u.durationDays.Set?
        || (u.startDate.Set? && c.durationDays.Some?), c.endDate)),
      Or(u.windowStart, Unless(ExactSupplied(u), c.windowStart)),
      Or(u.windowEnd, Unless(ExactSupplied(u), c.windowEnd)),
      Or(u.durationDays, Unless(u.endDate.Set?, c.durationDays)),
      Or(u.adults, c.adults),
      Or(u.minorCount, c.minorCount),
      Or(u.minorAges, Unless(MinorsReset(c, u), c.minorAges)),
      Or(u.transport, c.transport),
      Or(u.cabin, c.cabin),
      Or(u.infantOnLap, Unless(MinorsReset(c, u) || u.minorAges.Set?, c.infantOnLap)),
      Or(u.needsLodging, c.needsLodging),
      Or(u.rooms, Unless(u.needsLodging == Set(Some(false)), c.rooms)),
      Or(u.budgetDecision, c.budgetDecision),
      Or(u.totalBudget, Unless(BudgetWaived(u), c.totalBudget)),
      Or(u.currency, Unless(BudgetWaived(u), c.currency)),
      OrList(u.interests, c.interests),
      Or(u.pace, c.pace),
      OrList(u.constraints, c.constraints))
  }

  function Merge(c: Requirements, u: Updates): Result<Requirements, Violation> {
    if ExactSupplied(u) && WindowSupplied(u) then Failure(ExactAndWindowTogether)
    else Validated(Merged(c, u))
  }

  /** The merge as the program performs it: overlay the updates, then clear dependants one rule after the other. */
  method MergeRequirements(current: Requirements, updates: Updates) returns (r: Result<Requirements, Violation>)
    ensures r == Merge(current, updates)
  {
    if ExactSupplied(updates) && WindowSupplied(updates) {
      return Failure(ExactAndWindowTogether);
    }
    var merged := Overlay(current, updates);
    merged := ClearDates(merged, current, updates);
    merged := ClearBudget(merged, updates);
    merged := ClearParty(merged, current, updates);
    assert merged == Merged(current, updates);
    if FirstViolation(merged).Some? {
      return Failure(FirstViolation(merged).value);
    }
    var interests := NormalizeInterests(merged.interests);
    return Success(merged.(interests := interests));
  }

  method ClearDates(overlaid: Requirements, current: Requirements, updates: Updates) returns (merged: Requirements)
    requires overlaid == Overlay(current, updates) && !(ExactSupplied(updates) && WindowSupplied(updates))
    ensures var all := Merged(current, updates);
            merged == overlaid.(startDate := all.startDate, endDate := all.endDate, windowStart := all.windowStart,
                                windowEnd := all.windowEnd, durationDays := all.durationDays)
  {
    merged := overlaid;
    if ExactSupplied(updates) {
      merged := merged.(windowStart := None, windowEnd := None);
    } else if WindowSupplied(updates) {
      merged := merged.(startDate := None, endDate := None);
    }
    if updates.durationDays.Set? && !updates.endDate.Set? {
      merged := merged.(endDate := None);
    } else if updates.endDate.Set? && !updates.durationDays.Set? {
      merged := merged.(durationDays := None);
    } else if updates.startDate.Set? && !updates.endDate.Set? && current.durationDays.Some? {
      merged := merged.(endDate := None);
    }
  }

  method ClearBudget(overlaid: Requirements, updates: Updates) returns (merged: Requirements)
    ensures merged == overlaid.(
                        totalBudget := if updates.totalBudget.Set? then overlaid.totalBudget
                                       else Unless(BudgetWaived(updates), overlaid.totalBudget),
                        currency := if updates.currency.Set? then overlaid.currency
                                    else Unless(BudgetWaived(updates), overlaid.currency))
  {
    merged := overlaid;
    if updates.budgetDecision == Set(Some(Undecided)) || updates.budgetDecision == Set(Some(NoLimit)) {
      if !updates.totalBudget.Set? {
        merged := merged.(totalBudget := None);
      }
      if !updates.currency.Set? {
        merged := merged.(currency := None);
      }
    }
  }

  method ClearParty(overlaid: Requirements, current: Requirements, updates: Updates) returns (merged: Requirements)
    ensures merged == overlaid.(
                        minorAges := if updates.minorAges.Set? then overlaid.minorAges
                                     else Unless(MinorsReset(current, updates), overlaid.minorAges),
                        infantOnLap := if updates.infantOnLap.Set? then overlaid.infantOnLap
                                       else Unless(MinorsReset(current, updates)
                                         || updates.minorAges.Set?, overlaid.infantOnLap),
                        rooms := if updates.rooms.Set? then overlaid.rooms
                                 else Unless(updates.needsLodging == Set(Some(false)), overlaid.rooms))
  {
    merged := overlaid;
    if updates.minorCount.Set? && updates.minorCount.value != current.minorCount {
      if !updates.minorAges.Set? {
        merged := merged.(minorAges := None);
      }
      if !updates.infantOnLap.Set? {
        merged := merged.(infantOnLap := None);
      }
    }
    if updates.minorAges.Set? && !updates.infantOnLap.Set? {
      merged := merged.(infantOnLap := None);
    }
    if updates.needsLodging == Set(Some(false)) && !updates.rooms.Set? {
      merged := merged.(rooms := None);
    }
    if updates.minorCount == Set(Some(0)) {
      if !updates.minorAges.Set? {
        merged := merged.(minorAges := None);
      }
      if !updates.infantOnLap.Set? {
        merged := merged.(infantOnLap := None);
      }
    }
  }

  /** The current values with the updates laid over them; a null list means an empty one. */
  function Overlay(c: Requirements, u: Updates): Requirements {
    Requirements(
      Or(u.destination, c.destination), Or(u.origin, c.origin),
      Or(u.startDate, c.startDate), Or(u.endDate, c.endDate),
      Or(u.windowStart, c.windowStart), Or(u.windowEnd, c.windowEnd),
      Or(u.durationDays, c.durationDays),
      Or(u.adults, c.adults), Or(u.minorCount, c.minorCount), Or(u.minorAges, c.minorAges),
      Or(u.transport, c.transport), Or(u.cabin, c.cabin), Or(u.infantOnLap, c.infantOnLap),
      Or(u.needsLodging, c.needsLodging), Or(u.rooms, c.rooms),
      Or(u.budgetDecision, c.budgetDecision), Or(u.totalBudget, c.totalBudget), Or(u.currency, c.currency),
      OrList(u.interests, c.interests), Or(u.pace, c.pace), OrList(u.constraints, c.constraints))
  }

  // ---------------------------------------------------------------- what the merge guarantees

  /** Applying the same updates again succeeds and changes nothing. */
  lemma MergeIsIdempotent(c: Requirements, u: Updates)
    requires Merge(c, u).Success?
    ensures Merge(Merge(c, u).value, u) == Merge(c, u)
  {
    var m := Merge(c, u).value;
    ValidatedIsValid(Merged(c, u));
    var again := Merged(m, u);
    assert again == m.(interests := again.interests);
    if u.interests.Set? {
      assert again.interests == Merged(c, u).interests;
      assert again.(interests := FirstOccurrences(again.interests)) == m;
      assert FieldsValid(again);
      assert FirstViolation(again) == FirstViolation(Merged(c, u));
    } else {
      assert again == m;
      ValidatedIsValid(m);
    }
  }

  /** The result is valid; above all, exact dates and a flexible window never coexist. */
  lemma MergeIsValid(c: Requirements, u: Updates)
    requires Merge(c, u).Success?
    ensures Valid(Merge(c, u).value)
    ensures !(ExactDates(Merge(c, u).value) && WindowDates(Merge(c, u).value))
  {
    ValidatedIsValid(Merged(c, u));
  }

  /** `after` has the value an update supplied. */
  predicate Lands<T(==)>(change: Change<T>, after: Option<T>) {
    change.Set? ==> after == change.value
  }

  /** Whatever a turn says explicitly is in the result, whichever dependants it clears. */
  lemma ExplicitUpdatesLand(c: Requirements, u: Updates)
    requires Merge(c, u).Success?
    ensures var m := Merge(c, u).value;
            && Lands(u.destination, m.destination) && Lands(u.origin, m.origin)
            && Lands(u.startDate, m.startDate) && Lands(u.endDate, m.endDate)
            && Lands(u.windowStart, m.windowStart) && Lands(u.windowEnd, m.windowEnd)
            && Lands(u.durationDays, m.durationDays) && Lands(u.adults, m.adults)
            && Lands(u.minorCount, m.minorCount) && Lands(u.minorAges, m.minorAges)
            && Lands(u.transport, m.transport) && Lands(u.cabin, m.cabin)
            && Lands(u.infantOnLap, m.infantOnLap) && Lands(u.needsLodging, m.needsLodging)
            && Lands(u.rooms, m.rooms) && Lands(u.budgetDecision, m.budgetDecision)
            && Lands(u.totalBudget, m.totalBudget) && Lands(u.currency, m.currency)
            && Lands(u.pace, m.pace)
            && (u.interests.Set? ==> m.interests == FirstOccurrences(OrList(u.interests, [])))
            && (u.constraints.Set? ==> m.constraints == OrList(u.constraints, []))
  {
  }

  predicate KeepsDates(u: Updates) {
    u.startDate.Keep? && u.endDate.Keep? && u.windowStart.Keep? && u.windowEnd.Keep? && u.durationDays.Keep?
  }

  /** Fields whose dependency group no update touches keep their value. */
  lemma UntouchedGroupsStay(c: Requirements, u: Updates)
    requires Valid(c) && Merge(c, u).Success?
    ensures var m := Merge(c, u).value;
            && (u.destination.Keep? ==> m.destination == c.destination)
            && (u.origin.Keep? ==> m.origin == c.origin)
            && (KeepsDates(u) ==>
                  && m.startDate == c.startDate && m.endDate == c.endDate && m.durationDays == c.durationDays
                  && m.windowStart == c.windowStart && m.windowEnd == c.windowEnd)
            && (u.adults.Keep? ==> m.adults == c.adults)
            && (u.minorCount.Keep? ==> m.minorCount == c.minorCount)
            && (u.minorCount.Keep? && u.minorAges.Keep? ==> m.minorAges == c.minorAges)
            && (u.minorCount.Keep? && u.minorAges.Keep? && u.infantOnLap.Keep? ==> m.infantOnLap == c.infantOnLap)
            && (u.transport.Keep? ==> m.transport == c.transport)
            && (u.cabin.Keep? ==> m.cabin == c.cabin)
            && (u.needsLodging.Keep? ==> m.needsLodging == c.needsLodging)
            && (u.needsLodging.Keep? && u.rooms.Keep? ==> m.rooms == c.rooms)
            && (u.budgetDecision.Keep? ==> m.budgetDecision == c.budgetDecision)
            && (u.budgetDecision.Keep? && u.totalBudget.Keep? ==> m.totalBudget == c.totalBudget)
            && (u.budgetDecision.Keep? && u.currency.Keep? ==> m.currency == c.currency)
            && (u.interests.Keep? ==> m.interests == c.interests)
            && (u.pace.Keep? ==> m.pace == c.pace)
            && (u.constraints.Keep? ==> m.constraints == c.constraints)
  {
    DistinctIsFixed(c.interests);
  }

  /**
   Moving only the start date of a trip with a known duration: the merge fails exactly when
   the moved trip runs off the calendar, and otherwise the stored duration is the inclusive
   day count from the new start to the new end.
   */
  lemma MovingStartKeepsDuration(c: Requirements, start: Date)
    requires Valid(c) && c.durationDays.Some?
    ensures var u := NO_UPDATES.(startDate := Set(Some(start)));
            var r := Merge(c, u);
            && (r.Success? <==> EndDateFromDuration(start, c.durationDays.value).Some?)
            && (r.Success? ==>
                  && r.value.startDate == Some(start)
                  && r.value.durationDays == c.durationDays
                  && r.value.ResolvedEndDate().Some?
                  && InclusiveDayCount(start, r.value.ResolvedEndDate().value) == c.durationDays.value)
  {
    var u := NO_UPDATES.(startDate := Set(Some(start)));
    var m := Merged(c, u);
    assert m == c.(startDate := Some(start), endDate := None, windowStart := None, windowEnd := None);
    assert FieldsValid(m);
    DistinctIsFixed(c.interests);
  }
}
