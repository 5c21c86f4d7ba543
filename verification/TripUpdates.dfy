/**
 One field at a time: for a turn that sets a single fact of valid requirements, exactly when the
 merge accepts it, and the whole of what it leaves behind.
 */
module TripUpdates {
  import opened TripRequirements
  import opened TripRules
  import opened Wrappers

  /** The merge accepts the updates exactly under `condition`, and then answers `merged`. */
  predicate Gives(c: Requirements, u: Updates, condition: bool, merged: Requirements) {
    var r := Merge(c, u);
    (r.Success? <==> condition) && (condition ==> r.value == merged)
  }

  /** The rules of the validator, without the order in which it reports them. */
  predicate Obeys(r: Requirements) {
    var party := PartyViolation(r).None? && (r.needsLodging == Some(true) ==> RoomsStaffed(r.adults, r.rooms));
    var dates :=
      && r.CalendarFits() && TripDatesOrdered(r.startDate, r.ResolvedEndDate()) && WindowViolation(r).None?
      && !(ExactDates(r) && WindowDates(r))
      && (r.startDate.Some? && r.endDate.Some? && r.durationDays.Some? ==>
            r.durationDays.value == InclusiveDayCount(r.startDate.value, r.endDate.value));
    var budget := r.budgetDecision.Some? && !r.budgetDecision.value.Specified? ==> r.totalBudget.None?;
    FieldsValid(r) && dates && DistinctLocations(r.origin, r.destination) && party && budget
  }

  lemma ValidMeansObeys(r: Requirements)
    ensures FirstViolation(r).None? <==> Obeys(r)
  {
  }

  /** A merge that leaves the interests alone only has to keep the rules. */
  lemma Validates(c: Requirements, u: Updates, merged: Requirements)
    requires Valid(c) && Merged(c, u) == merged && merged.interests == c.interests
    requires !(ExactSupplied(u) && WindowSupplied(u))
    ensures Gives(c, u, Obeys(merged), merged) && Obeys(c)
  {
    DistinctIsFixed(c.interests);
    ValidMeansObeys(c);
    ValidMeansObeys(merged);
  }

  // ---------------------------------------------------------------- places

  /** A route needs two names of 2 to 120 characters that differ in more than case. */
  lemma NewOrigin(c: Requirements, place: Text)
    requires Valid(c)
    ensures Gives(c, NO_UPDATES.(origin := Set(Some(place))),
                  2 <= |place.value| <= 120 && (c.destination.Some? ==> c.destination.value.folded != place.folded),
                  c.(origin := Some(place)))
  {
    Validates(c, NO_UPDATES.(origin := Set(Some(place))), c.(origin := Some(place)));
  }

  lemma NewDestination(c: Requirements, place: Text)
    requires Valid(c)
    ensures Gives(c, NO_UPDATES.(destination := Set(Some(place))),
                  2 <= |place.value| <= 120 && (c.origin.Some? ==> c.origin.value.folded != place.folded),
                  c.(destination := Some(place)))
  {
    Validates(c, NO_UPDATES.(destination := Set(Some(place))), c.(destination := Some(place)));
  }

  // ---------------------------------------------------------------- dates

  /** A window of at most 31 days, long enough for a known duration, replaces the exact dates. */
  lemma WindowReplacesDates(c: Requirements, start: Date, end: Date)
    requires Valid(c)
    ensures Gives(c, NO_UPDATES.(windowStart := Set(Some(start)), windowEnd := Set(Some(end))),
                  start < end <= start + 30 && (c.durationDays.Some? ==> start + c.durationDays.value - 1 <= end),
                  c.(startDate := None, endDate := None, windowStart := Some(start), windowEnd := Some(end)))
  {
    Validates(c, NO_UPDATES.(windowStart := Set(Some(start)), windowEnd := Set(Some(end))),
              c.(startDate := None, endDate := None, windowStart := Some(start), windowEnd := Some(end)));
  }

  /** Exact dates in their order replace a window and an earlier duration. */
  lemma DatesReplaceWindow(c: Requirements, start: Date, end: Date)
    requires Valid(c)
    ensures Gives(c, NO_UPDATES.(startDate := Set(Some(start)), endDate := Set(Some(end))),
                  start < end,
                  c.(startDate := Some(start), endDate := Some(end), windowStart := None, windowEnd := None,
                     durationDays := None))
  {
    Validates(c, NO_UPDATES.(startDate := Set(Some(start)), endDate := Set(Some(end))),
              c.(startDate := Some(start), endDate := Some(end), windowStart := None, windowEnd := None,
                 durationDays := None));
  }

  /** A new end date clears the duration. */
  lemma NewEndClearsDuration(c: Requirements, end: Date)
    requires Valid(c)
    ensures Gives(c, NO_UPDATES.(endDate := Set(Some(end))),
                  c.startDate.Some? ==> c.startDate.value < end,
                  c.(endDate := Some(end), windowStart := None, windowEnd := None, durationDays := None))
  {
    Validates(c, NO_UPDATES.(endDate := Set(Some(end))),
              c.(endDate := Some(end), windowStart := None, windowEnd := None, durationDays := None));
  }

  /** A new duration of at least two days clears the end date; it has to fit the calendar and the window. */
  lemma NewDurationClearsEnd(c: Requirements, days: int)
    requires Valid(c)
    ensures Gives(c, NO_UPDATES.(durationDays := Set(Some(days))),
                  && 2 <= days
                  && (c.startDate.Some? ==> c.startDate.value + days - 1 <= 3_652_059)
                  && (c.windowStart.Some? && c.windowEnd.Some? ==>
                        c.windowStart.value + days - 1 <= c.windowEnd.value),
                  c.(durationDays := Some(days), endDate := None))
  {
    Validates(c, NO_UPDATES.(durationDays := Set(Some(days))), c.(durationDays := Some(days), endDate := None));
  }

  // ---------------------------------------------------------------- the party

  /** How many minors are known to travel. */
  function Minors(c: Requirements): int {
    match c.minorCount
    case Some(n) => n
    case None => if c.minorAges.Some? then |c.minorAges.value| else 0
  }

  lemma {:induction false} InfantsAreCounted(ages: seq<int>)
    requires forall i :: 0 <= i < |ages| ==> 0 <= ages[i]
    ensures |Infants(ages)| == multiset(ages)[0] + multiset(ages)[1]
  {
    if ages != [] {
      InfantsAreCounted(ages[1..]);
      assert ages == [ages[0]] + ages[1..];
    }
  }

  lemma {:induction false} FlagsAreCounted(flags: seq<bool>)
    ensures CountTrue(flags) == multiset(flags)[true]
  {
    if flags != [] {
      FlagsAreCounted(flags[1..]);
      assert flags == [flags[0]] + flags[1..];
    }
  }

  /** Another number of minors forgets their ages and who sits on a lap, and so does the number zero. */
  lemma NewMinorCountForgetsMinors(c: Requirements, n: int)
    requires Valid(c)
    ensures Gives(c, NO_UPDATES.(minorCount := Set(Some(n))),
                  0 <= n <= 99 && (c.adults.Some? ==> c.adults.value + n <= 100),
                  if c.minorCount == Some(n) && n != 0 then c
                  else c.(minorCount := Some(n), minorAges := None, infantOnLap := None))
  {
    var merged := if c.minorCount == Some(n) && n != 0 then c
      else c.(minorCount := Some(n), minorAges := None, infantOnLap := None);
    Validates(c, NO_UPDATES.(minorCount := Set(Some(n))), merged);
  }

  /** Withdrawing a known number forgets the same. */
  lemma WithdrawnMinorCountForgetsMinors(c: Requirements)
    requires Valid(c)
    ensures Gives(c, NO_UPDATES.(minorCount := Set(None)), true,
                  if c.minorCount.None? then c else c.(minorCount := None, minorAges := None, infantOnLap := None))
  {
    var merged := if c.minorCount.None? then c
      else c.(minorCount := None, minorAges := None, infantOnLap := None);
    Validates(c, NO_UPDATES.(minorCount := Set(None)), merged);
  }

  /** New ages, from 0 to 17 and as many as there are minors, forget who sits on a lap. */
  lemma NewAgesForgetSeating(c: Requirements, ages: seq<int>)
    requires Valid(c)
    ensures Gives(c, NO_UPDATES.(minorAges := Set(Some(ages))),
                  && |ages| <= 99 && (forall i :: 0 <= i < |ages| ==> 0 <= ages[i] <= 17)
                  && (c.minorCount.Some? ==> |ages| == c.minorCount.value)
                  && (c.adults.Some? ==> c.adults.value + |ages| <= 100),
                  c.(minorAges := Some(ages), infantOnLap := None))
  {
    Validates(c, NO_UPDATES.(minorAges := Set(Some(ages))), c.(minorAges := Some(ages), infantOnLap := None));
  }

  /** Seating has one flag for each minor under two, and no more lap places than adults. */
  lemma NewSeating(c: Requirements, flags: seq<bool>)
    requires Valid(c)
    ensures Gives(c, NO_UPDATES.(infantOnLap := Set(Some(flags))),
                  && c.minorAges.Some?
                  && |flags| == multiset(c.minorAges.value)[0] + multiset(c.minorAges.value)[1]
                  && (c.adults.Some? ==> multiset(flags)[true] <= c.adults.value),
                  c.(infantOnLap := Some(flags)))
  {
    FlagsAreCounted(flags);
    if c.minorAges.Some? {
      InfantsAreCounted(c.minorAges.value);
      InfantsAreFewer(c.minorAges.value);
    }
    Validates(c, NO_UPDATES.(infantOnLap := Set(Some(flags))), c.(infantOnLap := Some(flags)));
  }

  lemma {:induction false} InfantsAreFewer(ages: seq<int>)
    ensures |Infants(ages)| <= |ages|
  {
    if ages != [] {
      InfantsAreFewer(ages[1..]);
    }
  }

  /** Adults: from 1 to 100 with the minors, one for each lap infant, one for each room that is needed. */
  lemma NewAdults(c: Requirements, n: int)
    requires Valid(c)
    ensures Gives(c, NO_UPDATES.(adults := Set(Some(n))),
                  && 1 <= n && n + Minors(c) <= 100
                  && (c.infantOnLap.Some? ==> multiset(c.infantOnLap.value)[true] <= n)
                  && (c.needsLodging == Some(true) && c.rooms.Some? ==> c.rooms.value <= n),
                  c.(adults := Some(n)))
  {
    if c.infantOnLap.Some? {
      FlagsAreCounted(c.infantOnLap.value);
    }
    Validates(c, NO_UPDATES.(adults := Set(Some(n))), c.(adults := Some(n)));
  }

  // ---------------------------------------------------------------- lodging

  /** Declining lodging forgets the rooms; asking for it needs an adult for each room already named. */
  lemma NewLodging(c: Requirements, needed: bool)
    requires Valid(c)
    ensures Gives(c, NO_UPDATES.(needsLodging := Set(Some(needed))),
                  needed && c.adults.Some? && c.rooms.Some? ==> c.rooms.value <= c.adults.value,
                  if needed then c.(needsLodging := Some(true)) else c.(needsLodging := Some(false), rooms := None))
  {
    var merged := if needed then c.(needsLodging := Some(true)) else c.(needsLodging := Some(false), rooms := None);
    Validates(c, NO_UPDATES.(needsLodging := Set(Some(needed))), merged);
  }

  lemma NewRooms(c: Requirements, n: int)
    requires Valid(c)
    ensures Gives(c, NO_UPDATES.(rooms := Set(Some(n))),
                  1 <= n <= 100 && (c.needsLodging == Some(true) && c.adults.Some? ==> n <= c.adults.value),
                  c.(rooms := Some(n)))
  {
    Validates(c, NO_UPDATES.(rooms := Set(Some(n))), c.(rooms := Some(n)));
  }

  // ---------------------------------------------------------------- money and tastes

  /** A budget left open forgets amount and currency; a specified one keeps them. */
  lemma NewBudgetDecision(c: Requirements, d: BudgetDecision)
    requires Valid(c)
    ensures Gives(c, NO_UPDATES.(budgetDecision := Set(Some(d))), true,
                  if d == Specified then c.(budgetDecision := Some(d))
                  else c.(budgetDecision := Some(d), totalBudget := None, currency := None))
  {
    var merged := if d == Specified then c.(budgetDecision := Some(d))
      else c.(budgetDecision := Some(d), totalBudget := None, currency := None);
    Validates(c, NO_UPDATES.(budgetDecision := Set(Some(d))), merged);
  }

  /** An amount is positive and not given to a budget left open. */
  lemma NewAmount(c: Requirements, amount: real)
    requires Valid(c)
    ensures Gives(c, NO_UPDATES.(totalBudget := Set(Some(amount))),
                  amount > 0.0 && c.budgetDecision != Some(Undecided) && c.budgetDecision != Some(NoLimit),
                  c.(totalBudget := Some(amount)))
  {
    Validates(c, NO_UPDATES.(totalBudget := Set(Some(amount))), c.(totalBudget := Some(amount)));
  }

  /** A currency is three capitals. */
  lemma NewCurrency(c: Requirements, code: string)
    requires Valid(c)
    ensures Gives(c, NO_UPDATES.(currency := Set(Some(code))),
                  |code| == 3 && forall i :: 0 <= i < |code| ==> 'A' <= code[i] <= 'Z',
                  c.(currency := Some(code)))
  {
    Validates(c, NO_UPDATES.(currency := Set(Some(code))), c.(currency := Some(code)));
  }

  /** Up to ten interests of 1 to 60 characters, each taken once in its first spelling; null empties the list. */
  lemma NewInterests(c: Requirements, values: seq<Text>)
    requires Valid(c)
    ensures var r := Merge(c, NO_UPDATES.(interests := Set(Some(values))));
            && (r.Success? <==> |values| <= 10 && forall i :: 0 <= i < |values| ==> 1 <= |values[i].value| <= 60)
            && (r.Success? ==> r.value == c.(interests := FirstOccurrences(values)))
    ensures Merge(c, NO_UPDATES.(interests := Set(None))) == Success(c.(interests := []))
  {
    assert Merged(c, NO_UPDATES.(interests := Set(None))) == c.(interests := []);
    assert Merged(c, NO_UPDATES.(interests := Set(Some(values)))) == c.(interests := values);
    OtherRulesStay(c, []);
    OtherRulesStay(c, values);
  }

  lemma OtherRulesStay(c: Requirements, values: seq<Text>)
    requires Valid(c)
    ensures FirstViolation(c.(interests := values)).None? <==> ValidInterests(values)
  {
    ValidMeansObeys(c);
    ValidMeansObeys(c.(interests := values));
  }
}
