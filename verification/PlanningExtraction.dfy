/**
 One extracted turn applied to the planning state: which updates are merged, and which
 travel selections survive them.
 */
module PlanningExtraction {
  import opened Preferences
  import opened TripPlanning
  import opened TripRequirements
  import opened TripRules
  import opened Wrappers

  datatype Intent = Plan | Revise | NewTrip

  datatype SelectionKind = FlightSelection | HotelSelection | FlightDatesSelection | DealSelection

  datatype State = State(
    requirements: Requirements,
    transportInferred: bool,
    interestsOverridden: bool,
    revision: nat,
    pendingSelection: Option<SelectionKind>,
    pendingDestination: bool,
    pendingCountry: bool,
    selectedDeal: Option<string>,
    selectedFlightId: Option<string>,
    selectedHotelId: Option<string>,
    nearbyFlightDatesChecked: bool)

  const FRESH := State(EMPTY, false, false, 0, None, false, false, None, None, None, false)

  /** What the model extracted: `updates` holds the changed fields only. */
  datatype Extraction = Extraction(intent: Intent, updates: Updates, transportInferred: bool)

  /** The destination resolver's answers about the proposed destination. */
  datatype Resolver = Unavailable | Available(isCountry: bool, cities: seq<Text>)

  // ---------------------------------------------------------------- which updates apply

  function Base(previous: State, x: Extraction): State {
    if x.intent.NewTrip? then FRESH else previous
  }

  /** A city proposed while a country or a city is still being chosen. */
  predicate UnverifiedCity(base: State, u: Updates) {
    && Supplied(u.destination)
    && u.destination.value != base.requirements.destination
    && (base.pendingDestination || base.pendingCountry)
  }

  /** The extracted updates after an unverified city has been replaced by its catalogue name or dropped. */
  function Verified(base: State, u: Updates, resolver: Resolver): Updates {
    if !UnverifiedCity(base, u) then u
    else match resolver
      case Unavailable => u.(destination := Keep)
      case Available(isCountry, cities) =>
        if isCountry then u
        else if base.pendingDestination && |cities| == 1 then u.(destination := Set(Some(cities[0])))
        else u.(destination := Keep)
  }

  predicate TouchesFlight(u: Updates) {
    || u.origin.Set? || u.destination.Set?
    || u.startDate.Set? || u.endDate.Set? || u.windowStart.Set? || u.windowEnd.Set? || u.durationDays.Set?
    || u.adults.Set? || u.minorCount.Set? || u.minorAges.Set? || u.infantOnLap.Set?
    || u.transport.Set? || u.cabin.Set? || u.currency.Set?
  }

  predicate TouchesHotel(u: Updates) {
    || u.destination.Set?
    || u.startDate.Set? || u.endDate.Set? || u.windowStart.Set? || u.windowEnd.Set? || u.durationDays.Set?
    || u.adults.Set? || u.minorCount.Set? || u.minorAges.Set?
    || u.needsLodging.Set? || u.rooms.Set?
    || u.budgetDecision.Set? || u.totalBudget.Set? || u.currency.Set?
  }

  /** What a chosen flight was searched for. */
  datatype FlightFacts = FlightFacts(
    origin: Option<Text>, destination: Option<Text>, start: Option<Date>, end: Option<Date>,
    windowStart: Option<Date>, windowEnd: Option<Date>, duration: Option<int>,
    adults: Option<int>, minors: Option<int>, ages: Option<seq<int>>, onLap: Option<seq<bool>>,
    transport: Option<Transport>, cabin: Option<Cabin>)

  function FlightFactsOf(r: Requirements): FlightFacts {
    FlightFacts(r.origin, r.destination, r.startDate, r.endDate, r.windowStart, r.windowEnd, r.durationDays,
                r.adults, r.minorCount, r.minorAges, r.infantOnLap, r.transport, r.cabin)
  }

  /** What a chosen hotel was searched for. */
  datatype HotelFacts = HotelFacts(
    destination: Option<Text>, start: Option<Date>, end: Option<Date>,
    windowStart: Option<Date>, windowEnd: Option<Date>, duration: Option<int>,
    adults: Option<int>, minors: Option<int>, ages: Option<seq<int>>, lodging: Option<bool>, rooms: Option<int>)

  function HotelFactsOf(r: Requirements): HotelFacts {
    HotelFacts(r.destination, r.startDate, r.endDate, r.windowStart, r.windowEnd, r.durationDays,
               r.adults, r.minorCount, r.minorAges, r.needsLodging, r.rooms)
  }

  /** A merge that touches no flight field leaves everything a flight was searched for. */
  lemma MergeKeepsFlightFacts(c: Requirements, u: Updates)
    requires Valid(c) && Merge(c, u).Success? && !TouchesFlight(u)
    ensures FlightFactsOf(Merge(c, u).value) == FlightFactsOf(c)
  {
    UntouchedGroupsStay(c, u);
  }

  lemma MergeKeepsHotelFacts(c: Requirements, u: Updates)
    requires Valid(c) && Merge(c, u).Success? && !TouchesHotel(u)
    ensures HotelFactsOf(Merge(c, u).value) == HotelFactsOf(c)
  {
    UntouchedGroupsStay(c, u);
  }

  // ---------------------------------------------------------------- the turn

  /** The merged updates are the extracted ones plus defaults that no selection depends on. */
  predicate Extends(base: State, extracted: Updates, updates: Updates) {
    && updates == extracted.(interests := updates.interests, transport := updates.transport, cabin := updates.cabin)
    && (updates.transport != extracted.transport || updates.cabin != extracted.cabin ==>
          extracted.origin.Set? || extracted.destination.Set?)
  }

  predicate UsesProfileInterests(base: State, extracted: Updates, preferred: seq<Text>) {
    !base.interestsOverridden && base.requirements.interests == [] && preferred != [] && extracted.interests.Keep?
  }

  /** The turn moves an end of the route whose flight was only inferred, and says nothing about transport. */
  predicate DropsTransport(base: State, extracted: Updates) {
    && base.transportInferred && extracted.transport.Keep?
    && ((extracted.origin.Set? && extracted.origin.value != base.requirements.origin)
        || (extracted.destination.Set? && extracted.destination.value != base.requirements.destination))
  }

  function Effective(base: State, extracted: Updates, preferred: seq<Text>): Updates {
    extracted.(
      interests := if UsesProfileInterests(base, extracted, preferred) then Set(Some(preferred))
        else extracted.interests,
      transport := if DropsTransport(base, extracted) then Set(None) else extracted.transport,
      cabin := if DropsTransport(base, extracted) then Set(None) else extracted.cabin)
  }

  /** Add profile interests to a trip without any, and forget an inferred transport when the route moves. */
  method EffectiveUpdates(base: State, extracted: Updates, preferred: seq<Text>) returns (updates: Updates)
    ensures updates == Effective(base, extracted, preferred) && Extends(base, extracted, updates)
  {
    updates := extracted;
    if !base.interestsOverridden && base.requirements.interests == [] && preferred != [] && extracted.interests.Keep? {
      updates := updates.(interests := Set(Some(preferred)));
    }
    var routeChanged :=
      || (extracted.origin.Set? && extracted.origin.value != base.requirements.origin)
      || (extracted.destination.Set? && extracted.destination.value != base.requirements.destination);
    if routeChanged && base.transportInferred && extracted.transport.Keep? {
      updates := updates.(transport := Set(None), cabin := Set(None));
    }
  }

  /** What the merge leaves alone, seen from the extracted updates. */
  lemma SelectionsSurvive(base: State, extracted: Updates, updates: Updates)
    requires Valid(base.requirements) && Extends(base, extracted, updates) && Merge(base.requirements, updates).Success?
    ensures !TouchesFlight(extracted) ==>
              FlightFactsOf(Merge(base.requirements, updates).value) == FlightFactsOf(base.requirements)
    ensures !TouchesHotel(extracted) ==>
              HotelFactsOf(Merge(base.requirements, updates).value) == HotelFactsOf(base.requirements)
    ensures extracted.destination.Keep? ==>
              Merge(base.requirements, updates).value.destination == base.requirements.destination
    ensures extracted.destination.Set? ==>
              Merge(base.requirements, updates).value.destination == extracted.destination.value
  {
    if !TouchesFlight(extracted) {
      MergeKeepsFlightFacts(base.requirements, updates);
    }
    if !TouchesHotel(extracted) {
      MergeKeepsHotelFacts(base.requirements, updates);
    }
    UntouchedGroupsStay(base.requirements, updates);
    ExplicitUpdatesLand(base.requirements, updates);
  }

  /** An id chosen before the turn is kept over unchanged facts, or dropped because the turn names one of them. */
  predicate KeptOnlyUnchanged(before: Option<string>, after: Option<string>, settled: bool, touched: bool) {
    && (after.Some? ==> after == before && settled)
    && (before.Some? && after.None? ==> touched)
  }

  predicate SameFlightFacts(a: Requirements, b: Requirements) {
    FlightFactsOf(a) == FlightFactsOf(b)
  }

  predicate SameHotelFacts(a: Requirements, b: Requirements) {
    HotelFactsOf(a) == HotelFactsOf(b)
  }

  /** What a pending choice was offered for has not moved: a hotel search, or a flight search. */
  predicate SameOfferFacts(kind: SelectionKind, a: Requirements, b: Requirements) {
    if kind.HotelSelection? then SameHotelFacts(a, b) else SameFlightFacts(a, b)
  }

  /** The turn names a fact of the search a pending choice came from. */
  predicate TouchesOffer(kind: SelectionKind, u: Updates) {
    if kind.HotelSelection? then TouchesHotel(u) else TouchesFlight(u)
  }

  /** Selections kept in `after` rest on search facts that have not moved since `base`. */
  predicate SelectionsUnchanged(base: State, flightTouched: bool, hotelTouched: bool, after: State) {
    var sameFlight := SameFlightFacts(base.requirements, after.requirements);
    var sameHotel := SameHotelFacts(base.requirements, after.requirements);
    && KeptOnlyUnchanged(base.selectedFlightId, after.selectedFlightId, sameFlight, flightTouched)
    && KeptOnlyUnchanged(base.selectedDeal, after.selectedDeal, sameFlight, flightTouched)
    && KeptOnlyUnchanged(base.selectedHotelId, after.selectedHotelId, sameHotel, hotelTouched)
    && PendingUnchanged(base.pendingSelection, after.pendingSelection, sameFlight, sameHotel)
  }

  /** A pending choice kept over moved facts can only be one of nearby dates. */
  predicate PendingUnchanged(before: Option<SelectionKind>, after: Option<SelectionKind>, sameFlight: bool,
                             sameHotel: bool) {
    after.Some? ==>
      && after == before
      && (after.value.FlightSelection? || after.value.DealSelection? ==> sameFlight)
      && (after.value.HotelSelection? ==> sameHotel)
  }

  /** A flight, deal or hotel choice goes with the facts it was offered for; a choice of nearby dates stays. */
  function KeptPending(before: Option<SelectionKind>, clearFlight: bool, clearHotel: bool): Option<SelectionKind> {
    match before
    case None => None
    case Some(FlightDatesSelection) => before
    case Some(HotelSelection) => if clearHotel then None else before
    case Some(_) => if clearFlight then None else before
  }

  method KeepPending(before: Option<SelectionKind>, clearFlight: bool, clearHotel: bool)
    returns (after: Option<SelectionKind>)
    ensures after == KeptPending(before, clearFlight, clearHotel)
  {
    after := before;
    if before.Some? {
      var kind := before.value;
      if || (kind == FlightSelection && clearFlight)
         || (kind == HotelSelection && clearHotel)
         || (kind == DealSelection && clearFlight)
      {
        after := None;
      }
    }
  }

  // ---------------------------------------------------------------- the next state

  predicate SeveralCities(base: State, x: Extraction, resolver: Resolver) {
    && UnverifiedCity(base, x.updates) && base.pendingDestination
    && resolver.Available? && !resolver.isCountry && |resolver.cities| > 1
  }

  predicate InferredAfter(base: State, x: Extraction, updates: Updates) {
    if updates.transport.Set? then updates.transport.value == Some(Flight) && x.transportInferred
    else base.transportInferred
  }

  /** The planning state around merged requirements. */
  function Advanced(
    base: State, revision: nat, requirements: Requirements, extracted: Updates,
    transportInferred: bool, resolverAvailable: bool, severalCities: bool): State
  {
    var clearFlight, clearHotel := TouchesFlight(extracted), TouchesHotel(extracted);
    var sameDestination := requirements.destination == base.requirements.destination;
    var sameInterests := requirements.interests == base.requirements.interests;
    State(
      requirements := requirements,
      transportInferred := transportInferred,
      interestsOverridden := base.interestsOverridden || extracted.interests.Set?,
      revision := revision,
      pendingSelection := KeptPending(base.pendingSelection, clearFlight, clearHotel),
      pendingDestination :=
        severalCities || (base.pendingDestination && sameDestination && (sameInterests || !resolverAvailable)),
      pendingCountry := base.pendingCountry && sameDestination,
      selectedDeal := if clearFlight then None else base.selectedDeal,
      selectedFlightId := if clearFlight then None else base.selectedFlightId,
      selectedHotelId := if clearHotel then None else base.selectedHotelId,
      nearbyFlightDatesChecked := base.nearbyFlightDatesChecked && !clearFlight)
  }

  method NextState(
    base: State, revision: nat, requirements: Requirements, extracted: Updates,
    transportInferred: bool, resolverAvailable: bool, severalCities: bool)
    returns (after: State)
    ensures after == Advanced(base, revision, requirements, extracted, transportInferred, resolverAvailable,
                              severalCities)
  {
    var clearFlight, clearHotel := TouchesFlight(extracted), TouchesHotel(extracted);
    var pendingSelection := KeepPending(base.pendingSelection, clearFlight, clearHotel);
    var destinationChanged := requirements.destination != base.requirements.destination;
    var interestsChanged := requirements.interests != base.requirements.interests;
    var pendingDestination := base.pendingDestination;
    var pendingCountry := base.pendingCountry;
    if destinationChanged || (interestsChanged && resolverAvailable) {
      pendingDestination := false;
    }
    if destinationChanged {
      pendingCountry := false;
    }
    if severalCities {
      pendingDestination := true;
    }
    after := State(
      requirements,
      transportInferred,
      base.interestsOverridden || extracted.interests.Set?,
      revision,
      pendingSelection,
      pendingDestination,
      pendingCountry,
      if clearFlight then None else base.selectedDeal,
      if clearFlight then None else base.selectedFlightId,
      if clearHotel then None else base.selectedHotelId,
      if clearFlight then false else base.nearbyFlightDatesChecked);
  }

  /** One extracted turn: the conflict that stops it, or the next planning state. */
  function Applied(previous: State, x: Extraction, resolver: Resolver, preferred: seq<Text>): Result<State, Violation> {
    var base := Base(previous, x);
    var extracted := Verified(base, x.updates, resolver);
    var updates := Effective(base, extracted, preferred);
    match Merge(base.requirements, updates)
    case Failure(violation) => Failure(violation)
    case Success(merged) =>
      Success(Advanced(base, previous.revision + 1, merged, extracted, InferredAfter(base, x, updates),
                       resolver.Available?, SeveralCities(base, x, resolver)))
  }

  method ApplyExtraction(previous: State, x: Extraction, resolver: Resolver, preferred: seq<Text>)
    returns (r: Result<State, Violation>)
    ensures r == Applied(previous, x, resolver, preferred)
  {
    var base := if x.intent == NewTrip then FRESH else previous;
    var extracted := Verified(base, x.updates, resolver);
    var updates := EffectiveUpdates(base, extracted, preferred);
    var merged := MergeRequirements(base.requirements, updates);
    if merged.Failure? {
      return Failure(merged.error);
    }
    var transportInferred := base.transportInferred;
    if updates.transport.Set? {
      transportInferred := updates.transport.value == Some(Flight) && x.transportInferred;
    }
    var severalCities := UnverifiedCity(base, x.updates) && resolver.Available? && !resolver.isCountry
                         && base.pendingDestination && |resolver.cities| > 1;
    var after := NextState(
      base, previous.revision + 1, merged.value, extracted, transportInferred, resolver.Available?, severalCities);
    return Success(after);
  }

  // ---------------------------------------------------------------- what a turn guarantees

  /** The state a turn starts from has valid requirements, also when it starts a new trip. */
  lemma BaseIsValid(previous: State, x: Extraction)
    requires Valid(previous.requirements)
    ensures Valid(Base(previous, x).requirements)
  {
    ValidatedIsValid(EMPTY);
  }

  /**
   A selected flight, deal or hotel is kept only over exactly the facts it was searched for, and
   dropped only when the turn names one of them; the new requirements are valid.
   */
  lemma TurnKeepsSelectionFacts(previous: State, x: Extraction, resolver: Resolver, preferred: seq<Text>)
    requires Valid(previous.requirements) && Applied(previous, x, resolver, preferred).Success?
    ensures var base := Base(previous, x);
            var extracted := Verified(base, x.updates, resolver);
            var after := Applied(previous, x, resolver, preferred).value;
            && Valid(after.requirements) && after.revision == previous.revision + 1
            && SelectionsUnchanged(base, TouchesFlight(extracted), TouchesHotel(extracted), after)
  {
    var base := Base(previous, x);
    var extracted := Verified(base, x.updates, resolver);
    BaseIsValid(previous, x);
    MergeIsValid(base.requirements, Effective(base, extracted, preferred));
    SelectionsSurvive(base, extracted, Effective(base, extracted, preferred));
  }

  /** While a place is still being chosen, only a country or one verified city replaces the destination. */
  lemma UnverifiedCityNeverLands(previous: State, x: Extraction, resolver: Resolver, preferred: seq<Text>)
    requires Valid(previous.requirements) && Applied(previous, x, resolver, preferred).Success?
    requires UnverifiedCity(Base(previous, x), x.updates)
    ensures var destination := Applied(previous, x, resolver, preferred).value.requirements.destination;
            || destination == Base(previous, x).requirements.destination
            || (&& resolver.Available?
                && (resolver.isCountry || (|resolver.cities| == 1 && destination == Some(resolver.cities[0]))))
  {
    var base := Base(previous, x);
    var extracted := Verified(base, x.updates, resolver);
    BaseIsValid(previous, x);
    SelectionsSurvive(base, extracted, Effective(base, extracted, preferred));
  }

  /** Which destination a turn leaves, for every answer of the resolver. */
  lemma DestinationAfter(previous: State, x: Extraction, resolver: Resolver, preferred: seq<Text>)
    requires Valid(previous.requirements) && Applied(previous, x, resolver, preferred).Success?
    ensures var base := if x.intent == NewTrip then FRESH else previous;
            var known, named := base.requirements.destination, x.updates.destination;
            var choosing := base.pendingDestination || base.pendingCountry;
            Applied(previous, x, resolver, preferred).value.requirements.destination ==
            if named.Keep? then known
            else if named.value.None? || named.value == known || !choosing then named.value
            else if resolver.Unavailable? then known
            else if resolver.isCountry then named.value
            else if base.pendingDestination && |resolver.cities| == 1 then Some(resolver.cities[0])
            else known
  {
    var base := Base(previous, x);
    var extracted := Verified(base, x.updates, resolver);
    BaseIsValid(previous, x);
    SelectionsSurvive(base, extracted, Effective(base, extracted, preferred));
  }

  /**
   A flight that was only inferred is forgotten, cabin and all, exactly when the route really moves
   and the turn names no transport.
   */
  lemma TransportAfter(previous: State, x: Extraction, resolver: Resolver, preferred: seq<Text>)
    requires Valid(previous.requirements) && Applied(previous, x, resolver, preferred).Success?
    ensures var base := if x.intent == NewTrip then FRESH else previous;
            var after := Applied(previous, x, resolver, preferred).value;
            var r, r', u := base.requirements, after.requirements, x.updates;
            var forgotten :=
              base.transportInferred && u.transport.Keep? && (r'.origin != r.origin || r'.destination != r.destination);
            && (after.transportInferred <==>
                if u.transport.Set? then u.transport.value == Some(Flight) && x.transportInferred
                else base.transportInferred && !forgotten)
            && (forgotten ==> r'.transport.None? && r'.cabin.None?)
            && (u.transport.Keep? && !forgotten ==> r'.transport == r.transport)
            && (u.cabin.Keep? && !forgotten ==> r'.cabin == r.cabin)
  {
    var base := Base(previous, x);
    var extracted := Verified(base, x.updates, resolver);
    var updates := Effective(base, extracted, preferred);
    BaseIsValid(previous, x);
    var m := Merge(base.requirements, updates).value;
    assert && m.origin == Or(updates.origin, base.requirements.origin)
           && m.destination == Or(updates.destination, base.requirements.destination)
           && m.transport == Or(updates.transport, base.requirements.transport)
           && m.cabin == Or(updates.cabin, base.requirements.cabin);
  }

  /** Profile interests fill in as long as nobody has spoken about interests. */
  lemma InterestsAfter(previous: State, x: Extraction, resolver: Resolver, preferred: seq<Text>)
    requires Valid(previous.requirements) && Applied(previous, x, resolver, preferred).Success?
    ensures var base := if x.intent == NewTrip then FRESH else previous;
            var after := Applied(previous, x, resolver, preferred).value;
            && after.revision == previous.revision + 1
            && (after.interestsOverridden <==> base.interestsOverridden || x.updates.interests.Set?)
            && (x.updates.interests.Keep? ==>
                  after.requirements.interests ==
                  if base.interestsOverridden || base.requirements.interests != [] then base.requirements.interests
                  else FirstOccurrences(preferred))
  {
    BaseIsValid(previous, x);
    DistinctIsFixed(Base(previous, x).requirements.interests);
  }

  /**
   A choice of place stays open as long as nothing it depends on changed: a country until the
   destination moves, a city also until the interests move with a resolver at hand, and again when
   the resolver finds several cities.
   */
  lemma PlaceChoicesAfter(previous: State, x: Extraction, resolver: Resolver, preferred: seq<Text>)
    requires Applied(previous, x, resolver, preferred).Success?
    ensures var base := if x.intent == NewTrip then FRESH else previous;
            var after := Applied(previous, x, resolver, preferred).value;
            var r, r', named := base.requirements, after.requirements, x.updates.destination;
            var several :=
              && base.pendingDestination && named.Set? && named.value.Some? && named.value != r.destination
              && resolver.Available? && !resolver.isCountry && |resolver.cities| >= 2;
            && (after.pendingCountry <==> base.pendingCountry && r'.destination == r.destination)
            && (after.pendingDestination <==>
                several || (&& base.pendingDestination && r'.destination == r.destination
                            && (resolver.Unavailable? || r'.interests == r.interests)))
  {
  }

  /** The turn speaks of nothing but lodging, rooms, amounts and tastes. */
  predicate NamesNoFlightFact(u: Updates) {
    u == NO_UPDATES.(
      needsLodging := u.needsLodging, rooms := u.rooms, budgetDecision := u.budgetDecision,
      totalBudget := u.totalBudget, interests := u.interests, pace := u.pace, constraints := u.constraints)
  }

  /** The turn speaks of nothing but the way there and tastes. */
  predicate NamesNoHotelFact(u: Updates) {
    u == NO_UPDATES.(
      origin := u.origin, transport := u.transport, cabin := u.cabin, infantOnLap := u.infantOnLap,
      interests := u.interests, pace := u.pace, constraints := u.constraints)
  }

  /** Exactly which turns keep the selections and the search for nearby dates, and that a new trip keeps none. */
  lemma SelectionsAfter(previous: State, x: Extraction, resolver: Resolver, preferred: seq<Text>)
    requires Applied(previous, x, resolver, preferred).Success?
    ensures var after := Applied(previous, x, resolver, preferred).value;
            var extracted := Verified(Base(previous, x), x.updates, resolver);
            var keepsFlight := x.intent != NewTrip && NamesNoFlightFact(extracted);
            var keepsHotel := x.intent != NewTrip && NamesNoHotelFact(extracted);
            && after.selectedFlightId == (if keepsFlight then previous.selectedFlightId else None)
            && after.selectedDeal == (if keepsFlight then previous.selectedDeal else None)
            && after.selectedHotelId == (if keepsHotel then previous.selectedHotelId else None)
            && (after.nearbyFlightDatesChecked <==> keepsFlight && previous.nearbyFlightDatesChecked)
            && (after.pendingSelection ==
                if x.intent == NewTrip then None
                else match previous.pendingSelection
                  case Some(HotelSelection) => if keepsHotel then previous.pendingSelection else None
                  case Some(FlightDatesSelection) => previous.pendingSelection
                  case _ => if keepsFlight then previous.pendingSelection else None)
  {
  }

  /** A pending choice outlives a turn that names one of its facts exactly when it is a choice of nearby dates. */
  lemma PendingKeptThoughTouchedIff(previous: State, x: Extraction, resolver: Resolver, preferred: seq<Text>)
    requires Applied(previous, x, resolver, preferred).Success?
    requires Base(previous, x).pendingSelection.Some?
    ensures var base := Base(previous, x);
            var kind := base.pendingSelection.value;
            var extracted := Verified(base, x.updates, resolver);
            var after := Applied(previous, x, resolver, preferred).value;
            && (after.pendingSelection.Some? ==> after.pendingSelection == base.pendingSelection)
            && (after.pendingSelection.Some? && TouchesOffer(kind, extracted)
                <==> kind.FlightDatesSelection? && TouchesFlight(extracted))
            && (after.pendingSelection.None? ==> TouchesOffer(kind, extracted))
  {
  }

  /**
   It is kept over facts that really changed exactly when it is a choice of nearby dates and a flight fact changed.
   */
  lemma PendingIsStaleIff(previous: State, x: Extraction, resolver: Resolver, preferred: seq<Text>)
    requires Valid(previous.requirements) && Applied(previous, x, resolver, preferred).Success?
    requires Base(previous, x).pendingSelection.Some?
    ensures var base := Base(previous, x);
            var kind := base.pendingSelection.value;
            var after := Applied(previous, x, resolver, preferred).value;
            after.pendingSelection.Some? && !SameOfferFacts(kind, base.requirements, after.requirements)
            <==> kind.FlightDatesSelection? && !SameFlightFacts(base.requirements, after.requirements)
  {
    TurnKeepsSelectionFacts(previous, x, resolver, preferred);
  }

  /**
   A kept flight stays while the currency moves exactly when the turn waives a budget that had one
   and names no fact of the flight; otherwise a kept flight keeps its currency too.
   */
  lemma CurrencyMovesUnderKeptFlightIff(previous: State, x: Extraction, resolver: Resolver, preferred: seq<Text>)
    requires Valid(previous.requirements) && Applied(previous, x, resolver, preferred).Success?
    requires Base(previous, x).selectedFlightId.Some?
    ensures var base := Base(previous, x);
            var extracted := Verified(base, x.updates, resolver);
            var after := Applied(previous, x, resolver, preferred).value;
            && (after.selectedFlightId.Some? && after.requirements.currency != base.requirements.currency <==>
                !TouchesFlight(extracted) && BudgetWaived(extracted) && base.requirements.currency.Some?)
            && (after.selectedFlightId.Some? && after.requirements.currency != base.requirements.currency ==>
                after.requirements.currency.None?)
  {
  }

  // ---------------------------------------------------------------- a complete trip

  const LAHORE := Text("Lahore", "lahore")
  const KARACHI := Text("Karachi", "karachi")
  const DUBAI := Text("Dubai", "dubai")

  /** A flight from Lahore to Dubai for one adult, with nothing left to ask. */
  function FlightTrip(start: Date, end: Date): Requirements {
    EMPTY.(
      origin := Some(LAHORE), destination := Some(DUBAI), startDate := Some(start), endDate := Some(end),
      adults := Some(1), minorCount := Some(0), transport := Some(Flight), cabin := Some(Economy),
      needsLodging := Some(false), budgetDecision := Some(Specified), totalBudget := Some(900.0),
      currency := Some("USD"))
  }

  lemma FlightTripIsResearched(start: Date, end: Date, today: Date, tier: Option<BudgetTier>)
    requires today <= start < end <= start + 29
    ensures Valid(FlightTrip(start, end)) && Missing(FlightTrip(start, end), today, tier) == []
    ensures RouteComplete(FlightTrip(start, end)).Research?
  {
    var r := FlightTrip(start, end);
    ValidatedIsValid(r);
    assert ValidCurrency("USD");
    assert FieldsValid(r);
    MissingIsExact(r, today, tier);
    assert forall q :: !Open(q, r, today, tier);
  }

  /** A selected flight outlives a turn that drops the limit on the budget, and with it the currency. */
  lemma CurrencyCanChangeUnderKeptFlight(start: Date, end: Date, flight: string)
    requires start < end <= start + 29
    ensures var before := FRESH.(requirements := FlightTrip(start, end), selectedFlightId := Some(flight));
            var turn := Extraction(Revise, NO_UPDATES.(budgetDecision := Set(Some(NoLimit))), false);
            var after := Applied(before, turn, Unavailable, []);
            && Valid(before.requirements) && after.Success?
            && after.value.selectedFlightId == Some(flight)
            && SameFlightFacts(before.requirements, after.value.requirements)
            && before.requirements.currency == Some("USD") && after.value.requirements.currency.None?
  {
    var r := FlightTrip(start, end);
    FlightTripIsResearched(start, end, start, None);
    var u := NO_UPDATES.(budgetDecision := Set(Some(NoLimit)));
    var m := r.(budgetDecision := Some(NoLimit), totalBudget := None, currency := None);
    assert Merged(r, u) == m;
    ValidatedIsValid(m);
  }

  // ---------------------------------------------------------------- choosing nearby dates

  /** Accepting a pair of offered dates merges them with their day count and forgets what was searched. */
  function DatesChosen(s: State, departure: Date, returning: Date): Result<State, Violation> {
    var u := NO_UPDATES.(
      startDate := Set(Some(departure)), endDate := Set(Some(returning)),
      durationDays := Set(Some(InclusiveDayCount(departure, returning))));
    match Merge(s.requirements, u)
    case Failure(violation) => Failure(violation)
    case Success(merged) =>
      Success(s.(requirements := merged, revision := s.revision + 1, pendingSelection := None,
                 selectedFlightId := None, selectedHotelId := None))
  }

  /** The part of the state the router reads. */
  function PlanningOf(s: State): Planning {
    Planning(s.requirements, Collecting, [], s.pendingCountry, s.pendingDestination)
  }

  /**
   The offer waits for the user's next message over changed facts: the turn keeps it, and is not
   routed to research, which would search again and replace it.
   */
  predicate StaleOfferWaits(base: State, after: State, today: Date, tier: Option<BudgetTier>) {
    && base.pendingSelection == after.pendingSelection == Some(FlightDatesSelection)
    && !SameFlightFacts(base.requirements, after.requirements)
    && !RouteRequirements(PlanningOf(after), today, tier).1.Research?
  }

  /**
   Dates offered for other facts wait exactly when dates were offered, a flight fact changed, and
   the turn ends without research: a place is being chosen, a question is open, or the complete
   trip goes elsewhere.
   */
  lemma StaleOfferWaitsIff(
    previous: State, x: Extraction, resolver: Resolver, preferred: seq<Text>, today: Date, tier: Option<BudgetTier>)
    requires Valid(previous.requirements) && Applied(previous, x, resolver, preferred).Success?
    ensures var base := Base(previous, x);
            var after := Applied(previous, x, resolver, preferred).value;
            StaleOfferWaits(base, after, today, tier) <==>
            && base.pendingSelection == Some(FlightDatesSelection)
            && !SameFlightFacts(base.requirements, after.requirements)
            && (after.pendingCountry || after.pendingDestination || Missing(after.requirements, today, tier) != []
                || !RouteComplete(after.requirements).Research?)
  {
  }

  /**
   A complete trip from Lahore, whose flight was inferred, is researched and nearby dates are
   offered. The next turn moves the origin to Karachi: the inferred transport goes, so a question
   is open and nothing is searched, but the offer waits. Accepting it puts dates found for Lahore
   on the trip from Karachi.
   */
  lemma DatesOfferedForOldRouteLand(
    start: Date, end: Date, today: Date, tier: Option<BudgetTier>, departure: Date, returning: Date)
    requires today <= start < end <= start + 29 && departure < returning <= departure + 29
    ensures var offered := FRESH.(requirements := FlightTrip(start, end), transportInferred := true,
                                  pendingSelection := Some(FlightDatesSelection), nearbyFlightDatesChecked := true);
            var turn := Extraction(Revise, NO_UPDATES.(origin := Set(Some(KARACHI))), false);
            var moved := Applied(offered, turn, Unavailable, []);
            && Valid(offered.requirements) && Missing(offered.requirements, today, tier) == []
            && RouteComplete(offered.requirements).Research?
            && moved.Success? && Missing(moved.value.requirements, today, tier) != []
            && StaleOfferWaits(offered, moved.value, today, tier)
            && var chosen := DatesChosen(moved.value, departure, returning);
               && chosen.Success?
               && chosen.value.requirements.origin == Some(KARACHI)
               && chosen.value.requirements.startDate == Some(departure)
               && chosen.value.requirements.endDate == Some(returning)
  {
    var r := FlightTrip(start, end);
    var days := InclusiveDayCount(departure, returning);
    var dates := NO_UPDATES.(
      startDate := Set(Some(departure)), endDate := Set(Some(returning)), durationDays := Set(Some(days)));
    var u := NO_UPDATES.(origin := Set(Some(KARACHI)), transport := Set(None), cabin := Set(None));
    var m := r.(origin := Some(KARACHI), transport := None, cabin := None);
    var c := m.(startDate := Some(departure), endDate := Some(returning), durationDays := Some(days));
    FlightTripIsResearched(start, end, today, tier);
    assert Merged(r, u) == m && Merged(m, dates) == c;
    ValidatedIsValid(m);
    ValidatedIsValid(c);
    MissingIsExact(m, today, tier);
    assert Open(Question.Transport, m, today, tier);
  }
}
