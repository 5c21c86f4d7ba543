/**
 From collected requirements to a trip request: which questions are still open, where a turn
 is routed, and the request that research works on.
 */
module TripPlanning {
  import opened Preferences
  import opened TripRequirements
  import opened TripRules
  import opened Wrappers

  const MAX_PLANNING_DAYS := 30
  const MAX_PENDING_FIELDS := 20

  // ---------------------------------------------------------------- completeness policy

  datatype Question =
    | Destination | StartDate | EndDate | DateWindow | DurationDays
    | Adults | MinorCount | MinorAges
    | Transport | Origin | CabinClass | InfantSeating
    | NeedsLodging | Rooms
    | BudgetDecision | TotalBudget | BudgetCurrency

  /** The order in which questions are asked. */
  const QUESTIONS := [
    Destination, DateWindow, DurationDays, StartDate, EndDate, Adults, MinorCount, MinorAges,
    Transport, Origin, CabinClass, InfantSeating, NeedsLodging, Rooms, BudgetDecision, TotalBudget, BudgetCurrency]

  predicate Past(date: Option<Date>, today: Date) {
    date.None? || date.value < today
  }

  predicate HasInfants(ages: Option<seq<int>>) {
    ages.Some? && exists i :: 0 <= i < |ages.value| && ages.value[i] < 2
  }

  /** When a question is open: the fact it asks for is missing, or outdated, and applies to this trip. */
  predicate Open(q: Question, r: Requirements, today: Date, tier: Option<BudgetTier>) {
    match q
    case Destination => r.destination.None?
    case DateWindow => WindowDates(r) && (Past(r.windowStart, today) || Past(r.windowEnd, today))
    case DurationDays => WindowDates(r) && r.durationDays.None?
    case StartDate => !WindowDates(r) && Past(r.startDate, today)
    case EndDate => !WindowDates(r) && Past(r.ResolvedEndDate(), today)
    case Adults => r.adults.None?
    case MinorCount => r.minorCount.None?
    case MinorAges => r.minorCount.Some? && r.minorCount.value > 0 && r.minorAges.None?
    case Transport => r.transport.None?
    case Origin => r.transport.Some? && !r.transport.value.OwnArrangements? && r.origin.None?
    case CabinClass => r.transport == Some(Flight) && r.cabin.None?
    case InfantSeating => r.transport == Some(Flight) && HasInfants(r.minorAges) && r.infantOnLap.None?
    case NeedsLodging => r.needsLodging.None?
    case Rooms => r.needsLodging == Some(true) && r.rooms.None?
    case BudgetDecision => r.budgetDecision.None? && tier.None?
    case TotalBudget => r.budgetDecision == Some(Specified) && r.totalBudget.None?
    case BudgetCurrency => r.budgetDecision == Some(Specified) && r.currency.None?
  }

  /** The open ones among the first `n` questions, in order. */
  function OpenAmong(n: nat, r: Requirements, today: Date, tier: Option<BudgetTier>): seq<Question>
    requires n <= |QUESTIONS|
  {
    if n == 0 then []
    else
      var before := OpenAmong(n - 1, r, today, tier);
      if Open(QUESTIONS[n - 1], r, today, tier) then before + [QUESTIONS[n - 1]] else before
  }

  /** The open questions, in the order they are asked. */
  function Missing(r: Requirements, today: Date, tier: Option<BudgetTier>): seq<Question> {
    OpenAmong(|QUESTIONS|, r, today, tier)
  }

  /** The policy's chain of conditionals appends exactly the open questions, in order. */
  method MissingFields(r: Requirements, today: Date, tier: Option<BudgetTier>) returns (missing: seq<Question>)
    ensures missing == Missing(r, today, tier)
  {
    missing := MissingDates(r, today, tier);
    missing := MissingParty(missing, r, today, tier);
    missing := MissingTransport(missing, r, today, tier);
    if r.needsLodging.None? {
      missing := missing + [NeedsLodging];
    } else if r.needsLodging.value && r.rooms.None? {
      missing := missing + [Rooms];
    }
    assert OpenAmong(13, r, today, tier) == OpenAmong(12, r, today, tier) + if r.needsLodging.None?
      then [NeedsLodging] else [];
    assert missing == OpenAmong(14, r, today, tier);
    missing := MissingBudget(missing, r, today, tier);
  }

  method MissingDates(r: Requirements, today: Date, tier: Option<BudgetTier>) returns (missing: seq<Question>)
    ensures missing == OpenAmong(5, r, today, tier)
  {
    missing := [];
    if r.destination.None? {
      missing := missing + [Destination];
    }
    assert missing == OpenAmong(1, r, today, tier);
    var hasWindow := r.windowStart.Some? || r.windowEnd.Some?;
    if hasWindow {
      if r.windowStart.None? || r.windowEnd.None? || r.windowStart.value < today || r.windowEnd.value < today {
        missing := missing + [DateWindow];
      }
      assert missing == OpenAmong(2, r, today, tier);
      if r.durationDays.None? {
        missing := missing + [DurationDays];
      }
      assert missing == OpenAmong(3, r, today, tier);
      assert missing == OpenAmong(4, r, today, tier);
    } else {
      assert missing == OpenAmong(2, r, today, tier);
      assert missing == OpenAmong(3, r, today, tier);
      if r.startDate.None? || r.startDate.value < today {
        missing := missing + [StartDate];
      }
      assert missing == OpenAmong(4, r, today, tier);
      var endDate := r.ResolvedEndDate();
      if endDate.None? || endDate.value < today {
        missing := missing + [EndDate];
      }
    }
  }

  method MissingParty(before: seq<Question>, r: Requirements, today: Date, tier: Option<BudgetTier>)
    returns (missing: seq<Question>)
    requires before == OpenAmong(5, r, today, tier)
    ensures missing == OpenAmong(8, r, today, tier)
  {
    missing := before;
    if r.adults.None? {
      missing := missing + [Adults];
    }
    assert missing == OpenAmong(6, r, today, tier);
    if r.minorCount.None? {
      missing := missing + [MinorCount];
      assert missing == OpenAmong(7, r, today, tier);
    } else {
      assert missing == OpenAmong(7, r, today, tier);
      if r.minorCount.value > 0 && r.minorAges.None? {
        missing := missing + [MinorAges];
      }
    }
  }

  method MissingTransport(before: seq<Question>, r: Requirements, today: Date, tier: Option<BudgetTier>)
    returns (missing: seq<Question>)
    requires before == OpenAmong(8, r, today, tier)
    ensures missing == OpenAmong(12, r, today, tier)
  {
    missing := before;
    if r.transport.None? {
      missing := missing + [Transport];
      assert missing == OpenAmong(9, r, today, tier);
    } else {
      assert missing == OpenAmong(9, r, today, tier);
      if r.transport.value != OwnArrangements {
        if r.origin.None? {
          missing := missing + [Origin];
        }
      }
    }
    assert missing == OpenAmong(10, r, today, tier);
    if r.transport == Some(Flight) {
      if r.cabin.None? {
        missing := missing + [CabinClass];
      }
      assert missing == OpenAmong(11, r, today, tier);
      if HasInfants(r.minorAges) && r.infantOnLap.None? {
        missing := missing + [InfantSeating];
      }
    } else {
      assert missing == OpenAmong(11, r, today, tier);
    }
  }

  method MissingBudget(before: seq<Question>, r: Requirements, today: Date, tier: Option<BudgetTier>)
    returns (missing: seq<Question>)
    requires before == OpenAmong(14, r, today, tier)
    ensures missing == OpenAmong(17, r, today, tier)
  {
    missing := before;
    if r.budgetDecision.None? {
      if tier.None? {
        missing := missing + [BudgetDecision];
      }
      assert missing == OpenAmong(15, r, today, tier);
      assert missing == OpenAmong(16, r, today, tier);
    } else {
      assert missing == OpenAmong(15, r, today, tier);
      if r.budgetDecision.value == Specified {
        if r.totalBudget.None? {
          missing := missing + [TotalBudget];
        }
        assert missing == OpenAmong(16, r, today, tier);
        if r.currency.None? {
          missing := missing + [BudgetCurrency];
        }
      } else {
        assert missing == OpenAmong(16, r, today, tier);
      }
    }
  }

  function PlaceOf(q: Question): nat {
    match q
    case Destination => 0
    case DateWindow => 1
    case DurationDays => 2
    case StartDate => 3
    case EndDate => 4
    case Adults => 5
    case MinorCount => 6
    case MinorAges => 7
    case Transport => 8
    case Origin => 9
    case CabinClass => 10
    case InfantSeating => 11
    case NeedsLodging => 12
    case Rooms => 13
    case BudgetDecision => 14
    case TotalBudget => 15
    case BudgetCurrency => 16
  }

  lemma PlaceIsIndex(k: nat)
    requires k < |QUESTIONS|
    ensures PlaceOf(QUESTIONS[k]) == k
  {
  }

  lemma {:induction false} OpenAmongMembers(n: nat, r: Requirements, today: Date, tier: Option<BudgetTier>)
    requires n <= |QUESTIONS|
    ensures |OpenAmong(n, r, today, tier)| <= n
    ensures forall q :: q in OpenAmong(n, r, today, tier) <==> PlaceOf(q) < n && Open(q, r, today, tier)
  {
    if n > 0 {
      OpenAmongMembers(n - 1, r, today, tier);
      forall q ensures PlaceOf(q) == n - 1 <==> q == QUESTIONS[n - 1] {
        OnlyQuestionAt(q, n - 1);
      }
    }
  }

  lemma OnlyQuestionAt(q: Question, k: nat)
    requires k < |QUESTIONS|
    ensures PlaceOf(q) == k <==> q == QUESTIONS[k]
  {
    PlaceIsIndex(k);
    assert QUESTIONS[PlaceOf(q)] == q;
  }

  /** A question is pending exactly when it is open, and the pending list always fits the planning state. */
  lemma MissingIsExact(r: Requirements, today: Date, tier: Option<BudgetTier>)
    ensures forall q :: q in Missing(r, today, tier) <==> Open(q, r, today, tier)
    ensures Missing(r, today, tier) == [] <==> forall q :: !Open(q, r, today, tier)
    ensures |Missing(r, today, tier)| <= MAX_PENDING_FIELDS
  {
    OpenAmongMembers(|QUESTIONS|, r, today, tier);
    if Missing(r, today, tier) != [] {
      assert Missing(r, today, tier)[0] in Missing(r, today, tier);
    }
  }

  /** The traveller facts that have to be known. */
  predicate PartyKnown(r: Requirements) {
    && r.adults.Some? && r.minorCount.Some?
    && (r.minorCount.value > 0 ==> r.minorAges.Some?)
  }

  /** Dates from today on: a whole window and a duration, or a start and an end. */
  predicate DatesKnown(r: Requirements, today: Date) {
    if r.windowStart.Some? || r.windowEnd.Some? then
      && r.windowStart.Some? && r.windowEnd.Some? && r.durationDays.Some?
      && today <= r.windowStart.value && today <= r.windowEnd.value
    else
      && r.startDate.Some? && today <= r.startDate.value
      && (r.endDate.Some? ==> today <= r.endDate.value)
      && (r.endDate.None? ==>
            && r.durationDays.Some? && r.durationDays.value >= 1
            && today <= r.startDate.value + r.durationDays.value - 1 <= 3_652_059)
  }

  /** How to get there; a flight needs a cabin, and a seat or a lap for everybody under two. */
  predicate TransportKnown(r: Requirements) {
    && r.transport.Some?
    && (r.transport != Some(OwnArrangements) ==> r.origin.Some?)
    && (r.transport == Some(Flight) ==>
          && r.cabin.Some?
          && (r.infantOnLap.None? && r.minorAges.Some? ==>
                forall i :: 0 <= i < |r.minorAges.value| ==> r.minorAges.value[i] >= 2))
  }

  predicate CostsKnown(r: Requirements, tier: Option<BudgetTier>) {
    && r.needsLodging.Some? && (r.needsLodging.value ==> r.rooms.Some?)
    && (r.budgetDecision.None? ==> tier.Some?)
    && (r.budgetDecision == Some(Specified) ==> r.totalBudget.Some? && r.currency.Some?)
  }

  /** Nothing is asked exactly when everything a trip needs is known and not past. */
  lemma NothingIsAskedIff(r: Requirements, today: Date, tier: Option<BudgetTier>)
    ensures Missing(r, today, tier) == [] <==>
            r.destination.Some? && DatesKnown(r, today) && PartyKnown(r) && TransportKnown(r) && CostsKnown(r, tier)
  {
    MissingIsExact(r, today, tier);
    PlaceAndDatesAsked(r, today, tier);
    PartyAsked(r, today, tier);
    TransportAsked(r, today, tier);
    CostsAsked(r, today, tier);
  }

  lemma PlaceAndDatesAsked(r: Requirements, today: Date, tier: Option<BudgetTier>)
    ensures !Open(Destination, r, today, tier) && !Open(DateWindow, r, today, tier)
            && !Open(DurationDays, r, today, tier) && !Open(StartDate, r, today, tier) && !Open(EndDate, r, today, tier)
            <==> r.destination.Some? && DatesKnown(r, today)
  {
  }

  lemma PartyAsked(r: Requirements, today: Date, tier: Option<BudgetTier>)
    ensures !Open(Adults, r, today, tier) && !Open(MinorCount, r, today, tier) && !Open(MinorAges, r, today, tier)
            <==> PartyKnown(r)
  {
  }

  lemma TransportAsked(r: Requirements, today: Date, tier: Option<BudgetTier>)
    ensures !Open(Question.Transport, r, today, tier) && !Open(Origin, r, today, tier)
            && !Open(CabinClass, r, today, tier) && !Open(InfantSeating, r, today, tier)
            <==> TransportKnown(r)
  {
  }

  lemma CostsAsked(r: Requirements, today: Date, tier: Option<BudgetTier>)
    ensures !Open(Question.NeedsLodging, r, today, tier) && !Open(Rooms, r, today, tier)
            && !Open(Question.BudgetDecision, r, today, tier) && !Open(TotalBudget, r, today, tier)
            && !Open(BudgetCurrency, r, today, tier)
            <==> CostsKnown(r, tier)
  {
  }

  /** No question asks for a fact that is known, or for one this trip has no use for. */
  lemma OnlyTheUnknownIsAsked(r: Requirements, today: Date, tier: Option<BudgetTier>, q: Question)
    requires q in Missing(r, today, tier)
    ensures match q
            case Destination => r.destination.None?
            case DateWindow => r.windowStart.Some? != r.windowEnd.Some? || (r.windowStart.Some?
              && (r.windowStart.value < today || r.windowEnd.value < today))
            case DurationDays => r.durationDays.None? && (r.windowStart.Some? || r.windowEnd.Some?)
            case StartDate => r.startDate.None? || r.startDate.value < today
            case EndDate => r.endDate.None? || r.endDate.value < today
            case Adults => r.adults.None?
            case MinorCount => r.minorCount.None?
            case MinorAges => r.minorAges.None? && r.minorCount.Some? && r.minorCount.value > 0
            case Transport => r.transport.None?
            case Origin => r.origin.None? && r.transport.Some? && r.transport != Some(OwnArrangements)
            case CabinClass => r.cabin.None? && r.transport == Some(Flight)
            case InfantSeating => r.infantOnLap.None? && r.transport == Some(Flight)
              && r.minorAges.Some? && exists i :: 0 <= i < |r.minorAges.value| && r.minorAges.value[i] < 2
            case NeedsLodging => r.needsLodging.None?
            case Rooms => r.rooms.None? && r.needsLodging == Some(true)
            case BudgetDecision => r.budgetDecision.None? && tier.None?
            case TotalBudget => r.totalBudget.None? && r.budgetDecision == Some(Specified)
            case BudgetCurrency => r.currency.None? && r.budgetDecision == Some(Specified)
  {
    MissingIsExact(r, today, tier);
    assert Open(q, r, today, tier);
  }

  // ---------------------------------------------------------------- router

  datatype Phase = Idle | Collecting | Ready | Generated

  /** The part of the planning state the router reads and writes. */
  datatype Planning = Planning(
    requirements: Requirements, phase: Phase, pendingFields: seq<Question>, pendingCountry: bool,
    pendingDestination: bool)

  datatype Answer =
    | ChooseCountry
    | ChooseCity
    | AskFor(fields: seq<Question>)
    | SplitTrip
    | GiveExactDatesForCabin
    | ChooseExactDates

  /** `Fault` stands for the error of counting days from a missing date. */
  datatype Route = Respond(answer: Answer) | DealDiscovery | Research | Fault

  function RouteRequirements(p: Planning, today: Date, tier: Option<BudgetTier>): (Planning, Route) {
    if p.pendingCountry then
      (p.(phase := Collecting, pendingFields := [Destination]), Respond(ChooseCountry))
    else if p.pendingDestination then
      (p.(phase := Collecting, pendingFields := [Destination]), Respond(ChooseCity))
    else
      var missing := Missing(p.requirements, today, tier);
      var current := p.(phase := if missing != [] then Collecting else Ready, pendingFields := missing);
      (current, if missing != [] then Respond(AskFor(missing)) else RouteComplete(p.requirements))
  }

  /** Where complete requirements go. */
  function RouteComplete(r: Requirements): Route {
    if r.windowStart.Some? then
      if r.durationDays.Some? && r.durationDays.value > MAX_PLANNING_DAYS then Respond(SplitTrip)
      else if r.transport == Some(Flight) then
        if r.cabin != Some(Economy) then Respond(GiveExactDatesForCabin) else DealDiscovery
      else Respond(ChooseExactDates)
    else if r.startDate.Some? && r.ResolvedEndDate().Some? then
      if InclusiveDayCount(r.startDate.value, r.ResolvedEndDate().value) > MAX_PLANNING_DAYS then Respond(SplitTrip)
      else Research
    else Fault
  }

  /** The days of a trip whose dates are known: the duration inside a window, or from the first to the last date. */
  function DaysOf(r: Requirements): int {
    match r.windowStart
    case Some(_) => if r.durationDays.Some? then r.durationDays.value else 0
    case None =>
      if r.startDate.None? then 0
      else if r.endDate.Some? then r.endDate.value - r.startDate.value + 1
      else if r.durationDays.Some? then r.durationDays.value
      else 0
  }

  /**
   Where each state goes. With nothing to choose and nothing to ask, up to thirty days with exact
   dates are researched, an economy flight inside a window looks for deals, and every other trip is
   answered with what has to change.
   */
  lemma RouteIsExact(p: Planning, today: Date, tier: Option<BudgetTier>)
    ensures var (current, route) := RouteRequirements(p, today, tier);
            var r := p.requirements;
            var choosing := p.pendingCountry || p.pendingDestination;
            var complete := !choosing && Missing(r, today, tier) == [];
            var short, window, flight := DaysOf(r) <= 30, r.windowStart.Some?, r.transport == Some(Flight);
            && (route == Respond(ChooseCountry) <==> p.pendingCountry)
            && (route == Respond(ChooseCity) <==> !p.pendingCountry && p.pendingDestination)
            && (route.Respond? && route.answer.AskFor? <==> !choosing && !complete)
            && (route == Respond(SplitTrip) <==> complete && !short)
            && (route.Research? <==> complete && short && !window)
            && (route.DealDiscovery? <==> complete && short && window && flight && r.cabin == Some(Economy))
            && (route == Respond(GiveExactDatesForCabin) <==>
                complete && short && window && flight && r.cabin != Some(Economy))
            && (route == Respond(ChooseExactDates) <==> complete && short && window && !flight)
            && (current.phase == if complete then Ready else Collecting)
            && (current.pendingFields == if choosing then [Destination] else Missing(r, today, tier))
            && (route.Respond? && route.answer.AskFor? ==> route.answer.fields == current.pendingFields)
  {
    NothingIsAskedIff(p.requirements, today, tier);
  }

  // ---------------------------------------------------------------- mapper

  predicate Within(ages: seq<int>, low: int, high: int) {
    forall i :: 0 <= i < |ages| ==> low <= ages[i] <= high
  }

  datatype Party = Party(adults: int, children: seq<int>, seated: seq<int>, lap: seq<int>) {
    function Total(): int {
      adults + |children| + |seated| + |lap|
    }

    predicate Valid() {
      && 1 <= adults <= MAX_TRAVELERS
      && |children| <= MAX_TRAVELERS && |seated| <= MAX_TRAVELERS && |lap| <= MAX_TRAVELERS
      && Within(children, 2, 17) && Within(seated, 0, 1) && Within(lap, 0, 1)
      && LapInfantsAccompanied(Some(adults), |lap|)
      && Total() <= MAX_TRAVELERS
    }
  }

  datatype TripRequest = TripRequest(
    origin: Option<Text>,
    destination: Text,
    startDate: Date,
    endDate: Date,
    travelers: Party,
    rooms: int,
    interests: seq<Text>,
    totalBudget: Option<real>,
    currency: string,
    cabin: Cabin)
  {
    predicate Valid() {
      && ValidName(origin) && ValidName(Some(destination))
      && travelers.Valid()
      && 1 <= rooms <= 100
      && ValidInterests(interests) && DistinctKeys(interests)
      && (totalBudget.Some? ==> totalBudget.value > 0.0)
      && ValidCurrency(currency)
      && TripDatesOrdered(Some(startDate), Some(endDate))
      && DistinctLocations(origin, Some(destination))
      && RoomsStaffed(Some(travelers.adults), Some(rooms))
    }
  }

  /** The infants whose flag, in order of occurrence, is `onLap`; infants beyond the flags count as seated. */
  function Select(infants: seq<int>, flags: seq<bool>, onLap: bool): seq<int> {
    if infants == [] then []
    else
      var flag := flags != [] && flags[0];
      (if flag == onLap then [infants[0]] else []) + Select(infants[1..], if flags == [] then [] else flags[1..], onLap)
  }

  function Children(ages: seq<int>): seq<int> {
    if ages == [] then [] else (if ages[0] >= 2 then [ages[0]] else []) + Children(ages[1..])
  }

  function AgesOf(r: Requirements): seq<int> {
    if r.minorAges.Some? then r.minorAges.value else []
  }

  function FlagsOf(r: Requirements): seq<bool> {
    if r.infantOnLap.Some? then r.infantOnLap.value else []
  }

  /** Split minors by walking the ages once while consuming one seating flag per infant. */
  method SplitMinors(ages: seq<int>, flags: seq<bool>) returns (children: seq<int>, seated: seq<int>, lap: seq<int>)
    ensures children == Children(ages)
    ensures seated == Select(Infants(ages), flags, false)
    ensures lap == Select(Infants(ages), flags, true)
  {
    children, seated, lap := [], [], [];
    var infantSeating := flags;
    var i := 0;
    while i < |ages|
      invariant 0 <= i <= |ages|
      invariant children + Children(ages[i..]) == Children(ages)
      invariant seated + Select(Infants(ages[i..]), infantSeating, false) == Select(Infants(ages), flags, false)
      invariant lap + Select(Infants(ages[i..]), infantSeating, true) == Select(Infants(ages), flags, true)
    {
      var age := ages[i];
      AgeStep(ages, i);
      if age < 2 {
        SelectStep(age, Infants(ages[i + 1..]), infantSeating, seated, false);
        SelectStep(age, Infants(ages[i + 1..]), infantSeating, lap, true);
        var onLap := infantSeating != [] && infantSeating[0];
        if infantSeating != [] {
          infantSeating := infantSeating[1..];
        }
        if onLap {
          lap := lap + [age];
        } else {
          seated := seated + [age];
        }
      } else {
        assert children + ([age] + Children(ages[i + 1..])) == (children + [age]) + Children(ages[i + 1..]);
        children := children + [age];
      }
      i := i + 1;
    }
    assert ages[i..] == [];
  }

  lemma AgeStep(ages: seq<int>, i: nat)
    requires i < |ages|
    ensures ages[i] >= 2 ==>
              && Children(ages[i..]) == [ages[i]] + Children(ages[i + 1..])
              && Infants(ages[i..]) == Infants(ages[i + 1..])
    ensures ages[i] < 2 ==>
              && Infants(ages[i..]) == [ages[i]] + Infants(ages[i + 1..])
              && Children(ages[i..]) == Children(ages[i + 1..])
  {
    assert ages[i..][1..] == ages[i + 1..];
  }

  /** Handling one infant consumes one flag, if there is one left. */
  lemma SelectStep(age: int, rest: seq<int>, flags: seq<bool>, before: seq<int>, onLap: bool)
    ensures var flag := flags != [] && flags[0];
            before + Select([age] + rest, flags, onLap) ==
            (if flag == onLap then before + [age] else before)
              + Select(rest, if flags == [] then [] else flags[1..], onLap)
  {
    assert ([age] + rest)[1..] == rest;
  }

  /** The request complete requirements describe, or None where constructing it raises. */
  function ToTripRequest(r: Requirements): Option<TripRequest> {
    if r.adults.None? || r.destination.None? || r.startDate.None? || r.ResolvedEndDate().None? then None
    else
      var rooms := if r.needsLodging == Some(true) then r.rooms else Some(1);
      if rooms.None? then None
      else
        var request := TripRequest(
          r.origin, r.destination.value, r.startDate.value, r.ResolvedEndDate().value,
          Party(r.adults.value, Children(AgesOf(r)),
                Select(Infants(AgesOf(r)), FlagsOf(r), false), Select(Infants(AgesOf(r)), FlagsOf(r), true)),
          rooms.value, FirstOccurrences(r.interests), r.totalBudget,
          if r.currency.Some? then r.currency.value else "USD",
          if r.cabin.Some? then r.cabin.value else Economy);
        if request.Valid() then Some(request) else None
  }

  /** The mapper as written; None stands for the validation error the request model raises. */
  method MapToTripRequest(r: Requirements) returns (request: Option<TripRequest>)
    ensures request == ToTripRequest(r)
  {
    var children, seated, lap := SplitMinors(AgesOf(r), FlagsOf(r));
    var endDate := r.ResolvedEndDate();
    var rooms := Some(1);
    if r.needsLodging.Some? && r.needsLodging.value {
      rooms := r.rooms;
    }
    if r.adults.None? || r.destination.None? || r.startDate.None? || endDate.None? || rooms.None? {
      return None;
    }
    var interests := NormalizeInterests(r.interests);
    var candidate := TripRequest(
      r.origin, r.destination.value, r.startDate.value, endDate.value,
      Party(r.adults.value, children, seated, lap),
      rooms.value, interests, r.totalBudget,
      if r.currency.Some? then r.currency.value else "USD",
      if r.cabin.Some? then r.cabin.value else Economy);
    if !candidate.Valid() {
      return None;
    }
    return Some(candidate);
  }

  // ---------------------------------------------------------------- the three agree

  lemma OneMore(age: int, rest: seq<int>, lap: seq<int>, seated: seq<int>)
    requires multiset(lap) + multiset(seated) == multiset(rest)
    ensures multiset([age] + lap) + multiset(seated) == multiset([age] + rest)
    ensures multiset(lap) + multiset([age] + seated) == multiset([age] + rest)
  {
  }

  /** Every infant is seated or on a lap, and nobody else is. */
  lemma {:induction false} SelectPartitions(infants: seq<int>, flags: seq<bool>)
    ensures multiset(Select(infants, flags, true)) + multiset(Select(infants, flags, false)) == multiset(infants)
  {
    if infants != [] {
      var age, tail, rest := infants[0], infants[1..], if flags == [] then [] else flags[1..];
      SelectPartitions(tail, rest);
      SelectFirst(age, tail, flags, true);
      SelectFirst(age, tail, flags, false);
      OneMore(age, tail, Select(tail, rest, true), Select(tail, rest, false));
      assert infants == [age] + tail;
    }
  }

  lemma SelectFirst(age: int, tail: seq<int>, flags: seq<bool>, onLap: bool)
    ensures var rest := if flags == [] then [] else flags[1..];
            Select([age] + tail, flags, onLap)
            == if (flags != [] && flags[0]) == onLap then [age] + Select(tail, rest, onLap)
              else Select(tail, rest, onLap)
  {
    assert ([age] + tail)[1..] == tail;
  }

  /** With a flag for every infant, the lap count is the number of flags set; without flags nobody is on a lap. */
  lemma {:induction false} SelectCounts(infants: seq<int>, flags: seq<bool>)
    ensures |Select(infants, flags, true)| + |Select(infants, flags, false)| == |infants|
    ensures |flags| == |infants| ==> |Select(infants, flags, true)| == CountTrue(flags)
    ensures flags == [] ==> Select(infants, flags, true) == []
  {
    if infants != [] {
      SelectCounts(infants[1..], if flags == [] then [] else flags[1..]);
    }
  }

  lemma {:induction false} AgesPartition(ages: seq<int>)
    ensures multiset(Children(ages)) + multiset(Infants(ages)) == multiset(ages)
    ensures |Children(ages)| + |Infants(ages)| == |ages|
  {
    if ages != [] {
      AgesPartition(ages[1..]);
      assert ages == [ages[0]] + ages[1..];
    }
  }

  lemma {:induction false} AgesInRange(ages: seq<int>)
    requires Within(ages, 0, 17)
    ensures Within(Children(ages), 2, 17) && Within(Infants(ages), 0, 1)
  {
    if ages != [] {
      AgesInRange(ages[1..]);
    }
  }

  lemma {:induction false} SelectInRange(infants: seq<int>, flags: seq<bool>, onLap: bool)
    requires Within(infants, 0, 1)
    ensures Within(Select(infants, flags, onLap), 0, 1)
  {
    if infants != [] {
      SelectInRange(infants[1..], if flags == [] then [] else flags[1..], onLap);
    }
  }

  /** What a validated set of requirements needs, and all it needs, to be mapped. */
  predicate Mappable(r: Requirements) {
    && r.destination.Some? && r.startDate.Some? && r.ResolvedEndDate().Some? && r.adults.Some?
    && (r.needsLodging == Some(true) ==> r.rooms.Some?)
  }

  function PartyOf(r: Requirements): Party
    requires r.adults.Some?
  {
    var infants := Infants(AgesOf(r));
    Party(r.adults.value, Children(AgesOf(r)), Select(infants, FlagsOf(r), false), Select(infants, FlagsOf(r), true))
  }

  lemma ValidityFacts(r: Requirements)
    requires Valid(r)
    ensures FieldsValid(r) && PartyViolation(r).None? && DistinctKeys(r.interests)
    ensures TripDatesOrdered(r.startDate, r.ResolvedEndDate()) && DistinctLocations(r.origin, r.destination)
    ensures !(ExactDates(r) && WindowDates(r))
    ensures r.needsLodging == Some(true) ==> RoomsStaffed(r.adults, r.rooms)
  {
  }

  lemma PartyIsExact(r: Requirements)
    requires FieldsValid(r) && PartyViolation(r).None? && r.adults.Some?
    ensures PartyOf(r).Total() == r.adults.value + |AgesOf(r)|
    ensures |PartyOf(r).lap| == CountTrue(FlagsOf(r))
    ensures multiset(PartyOf(r).children) + multiset(PartyOf(r).seated) + multiset(PartyOf(r).lap)
            == multiset(AgesOf(r))
  {
    SplitIsExact(AgesOf(r), FlagsOf(r));
  }

  lemma SplitIsExact(ages: seq<int>, flags: seq<bool>)
    requires flags == [] || |flags| == |Infants(ages)|
    ensures var seated, lap := Select(Infants(ages), flags, false), Select(Infants(ages), flags, true);
            && |Children(ages)| + |seated| + |lap| == |ages| && |lap| == CountTrue(flags)
            && multiset(Children(ages)) + multiset(seated) + multiset(lap) == multiset(ages)
  {
    AgesPartition(ages);
    SelectPartitions(Infants(ages), flags);
    SelectCounts(Infants(ages), flags);
  }

  lemma SplitPartyIsValid(adults: int, ages: seq<int>, flags: seq<bool>)
    requires 1 <= adults && adults + |ages| <= MAX_TRAVELERS && Within(ages, 0, 17)
    requires flags == [] || |flags| == |Infants(ages)|
    requires CountTrue(flags) <= adults
    ensures Party(adults, Children(ages), Select(Infants(ages), flags, false),
                  Select(Infants(ages), flags, true)).Valid()
  {
    AgesPartition(ages);
    SelectCounts(Infants(ages), flags);
    AgesInRange(ages);
    SelectInRange(Infants(ages), flags, false);
    SelectInRange(Infants(ages), flags, true);
  }

  lemma PartyIsValid(r: Requirements)
    requires FieldsValid(r) && PartyViolation(r).None? && r.adults.Some?
    ensures PartyOf(r).Valid()
  {
    assert Within(AgesOf(r), 0, 17);
    SplitPartyIsValid(r.adults.value, AgesOf(r), FlagsOf(r));
  }

  /** On validated requirements the mapper succeeds exactly when they are mappable. */
  lemma MapperSucceedsIffMappable(r: Requirements)
    requires Valid(r)
    ensures ToTripRequest(r).Some? <==> Mappable(r)
  {
    if Mappable(r) {
      ValidityFacts(r);
      MappableIsMapped(r);
    }
  }

  lemma MappableIsMapped(r: Requirements)
    requires FieldsValid(r) && PartyViolation(r).None? && DistinctKeys(r.interests) && Mappable(r)
    requires TripDatesOrdered(r.startDate, r.ResolvedEndDate()) && DistinctLocations(r.origin, r.destination)
    requires r.needsLodging == Some(true) ==> RoomsStaffed(r.adults, r.rooms)
    ensures ToTripRequest(r).Some?
  {
    PartyIsValid(r);
    DistinctIsFixed(r.interests);
    assert ValidCurrency("USD");
  }

  /** What a request says, field by field, of the requirements it was made from. */
  lemma RequestTells(r: Requirements)
    requires ToTripRequest(r).Some?
    ensures var q := ToTripRequest(r).value;
            && q.origin == r.origin && Some(q.destination) == r.destination
            && Some(q.startDate) == r.startDate
            && (r.endDate.Some? ==> Some(q.endDate) == r.endDate)
            && (r.endDate.None? ==> r.durationDays == Some(q.endDate - q.startDate + 1))
            && Some(q.travelers.adults) == r.adults
            && (r.needsLodging == Some(true) ==> Some(q.rooms) == r.rooms)
            && (r.needsLodging != Some(true) ==> q.rooms == 1)
            && q.totalBudget == r.totalBudget
            && (r.currency.Some? ==> Some(q.currency) == r.currency) && (r.currency.None? ==> q.currency == "USD")
            && (r.cabin.Some? ==> Some(q.cabin) == r.cabin) && (r.cabin.None? ==> q.cabin == Economy)
            && Keys(q.interests) == Keys(r.interests)
  {
    FirstOccurrencesKeepsKeys(r.interests);
  }

  /** Flags and infants go together in order: one more infant, with a flag of its own, goes where the flag says. */
  lemma {:induction false} SeatingFollowsFlags(infants: seq<int>, flags: seq<bool>, age: int, flag: bool, onLap: bool)
    requires |infants| == |flags|
    ensures Select(infants + [age], flags + [flag], onLap)
            == Select(infants, flags, onLap) + if flag == onLap then [age] else []
  {
    if infants == [] {
      assert (infants + [age])[1..] == [] && (flags + [flag])[0] == flag;
    } else {
      assert (infants + [age])[1..] == infants[1..] + [age] && (flags + [flag])[1..] == flags[1..] + [flag];
      SeatingFollowsFlags(infants[1..], flags[1..], age, flag, onLap);
    }
  }

  lemma ResearchMeansNothingOpen(p: Planning, today: Date, tier: Option<BudgetTier>)
    requires RouteRequirements(p, today, tier).1.Research?
    ensures forall q :: !Open(q, p.requirements, today, tier)
    ensures RouteComplete(p.requirements).Research?
  {
    MissingIsExact(p.requirements, today, tier);
    forall q ensures !Open(q, p.requirements, today, tier) {
      assert q !in Missing(p.requirements, today, tier);
    }
  }

  /** What complete requirements routed to research have collected. */
  lemma ResearchFacts(r: Requirements, today: Date, tier: Option<BudgetTier>)
    requires forall q :: !Open(q, r, today, tier)
    requires RouteComplete(r).Research?
    ensures Mappable(r) && r.minorCount.Some? && (r.minorCount.value > 0 ==> r.minorAges.Some?)
    ensures today <= r.startDate.value
    ensures InclusiveDayCount(r.startDate.value, r.ResolvedEndDate().value) <= MAX_PLANNING_DAYS
  {
    assert !Open(Destination, r, today, tier) && !Open(DateWindow, r, today, tier) && !Open(StartDate, r, today, tier);
    assert !Open(Adults, r, today, tier) && !Open(MinorCount, r, today, tier) && !Open(MinorAges, r, today, tier);
    assert !Open(Rooms, r, today, tier);
  }

  /**
   Whenever the router sends a turn to research, the mapper succeeds and its request keeps
   every rule: two to thirty days, a party that is exactly the travellers collected, one
   lap place per flag set, and rooms the adults can staff.
   */
  lemma ResearchIsMappable(p: Planning, today: Date, tier: Option<BudgetTier>)
    requires Valid(p.requirements) && RouteRequirements(p, today, tier).1.Research?
    ensures ToTripRequest(p.requirements).Some?
    ensures var r := p.requirements;
            var request := ToTripRequest(r).value;
            var party := request.travelers;
            && request.Valid()
            && today <= request.startDate
            && 2 <= InclusiveDayCount(request.startDate, request.endDate) <= MAX_PLANNING_DAYS
            && multiset(party.children) + multiset(party.seated) + multiset(party.lap) == multiset(AgesOf(r))
            && |party.lap| == CountTrue(FlagsOf(r))
            && r.minorCount.Some? && party.Total() == party.adults + r.minorCount.value
            && request.interests == r.interests
  {
    var r := p.requirements;
    ResearchMeansNothingOpen(p, today, tier);
    ResearchFacts(r, today, tier);
    ValidityFacts(r);
    MapperSucceedsIffMappable(r);
    PartyIsExact(r);
    DistinctIsFixed(r.interests);
    assert ToTripRequest(r).value.travelers == PartyOf(r);
  }

  /** The router never counts days from a missing date, and only settled dates reach a search. */
  lemma CompleteIsAlwaysRouted(p: Planning, today: Date, tier: Option<BudgetTier>)
    ensures !RouteRequirements(p, today, tier).1.Fault?
    ensures var (current, route) := RouteRequirements(p, today, tier);
            && current.requirements == p.requirements
            && |current.pendingFields| <= MAX_PENDING_FIELDS
            && (current.phase.Ready? <==> current.pendingFields == [])
            && (route.Research? || route.DealDiscovery? ==> current.phase.Ready?)
            && (route.DealDiscovery? ==> p.requirements.windowStart.Some? && p.requirements.windowEnd.Some?)
            && (route.Research? ==> !WindowDates(p.requirements))
  {
    var r := p.requirements;
    MissingIsExact(r, today, tier);
    if Missing(r, today, tier) == [] {
      assert DateWindow !in Missing(r, today, tier) && StartDate !in Missing(r, today, tier)
        && EndDate !in Missing(r, today, tier);
      assert !Open(DateWindow, r, today, tier) && !Open(StartDate, r, today, tier) && !Open(EndDate, r, today, tier);
    }
  }
}
