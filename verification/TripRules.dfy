/** Business rules shared by trip requirements and trip requests. */
module TripRules {
  import opened Wrappers

  const MAX_TRAVELERS := 100
  const MAX_ORDINAL := 3_652_059

  /** A calendar date as its proleptic day number, from 1 January of year 1 to 31 December of year 9999. */
  type Date = d: int | 1 <= d <= MAX_ORDINAL witness 1

  /** A parsed string together with its case-folded form; folding itself is not modelled. */
  datatype Text = Text(value: string, folded: string)

  predicate TripDatesOrdered(start: Option<Date>, end: Option<Date>) {
    start.Some? && end.Some? ==> start.value < end.value
  }

  function InclusiveDayCount(start: Date, end: Date): int {
    end - start + 1
  }

  /** Resolve an inclusive duration; None where the program raises for a bad duration or calendar overflow. */
  function EndDateFromDuration(start: Date, days: int): Option<Date> {
    if days < 1 || start + days - 1 > MAX_ORDINAL then None else Some(start + days - 1)
  }

  predicate DistinctLocations(origin: Option<Text>, destination: Option<Text>) {
    origin.Some? && destination.Some? ==> origin.value.folded != destination.value.folded
  }

  predicate LapInfantsAccompanied(adults: Option<int>, lap: int) {
    adults.Some? ==> lap <= adults.value
  }

  predicate RoomsStaffed(adults: Option<int>, rooms: Option<int>) {
    adults.Some? && rooms.Some? ==> rooms.value <= adults.value
  }

  // ---------------------------------------------------------------- interests

  function Keys(values: seq<Text>): set<string> {
    set v | v in values :: v.folded
  }

  predicate DistinctKeys(values: seq<Text>) {
    forall i, j :: 0 <= i < j < |values| ==> values[i].folded != values[j].folded
  }

  /** The values whose key does not occur earlier. */
  function FirstOccurrences(values: seq<Text>): seq<Text> {
    if values == [] then []
    else
      var init, last := values[..|values| - 1], values[|values| - 1];
      if last.folded in Keys(init) then FirstOccurrences(init) else FirstOccurrences(init) + [last]
  }

  lemma KeysAppend(values: seq<Text>, v: Text)
    ensures Keys(values + [v]) == Keys(values) + {v.folded}
  {
    forall k | k in Keys(values) ensures k in Keys(values + [v]) {
      var x :| x in values && x.folded == k;
      assert x in values + [v];
    }
    assert v in values + [v];
  }

  /** No key is lost, none repeats, every survivor comes from the input, and the list never grows. */
  lemma {:induction false} FirstOccurrencesKeepsKeys(values: seq<Text>)
    ensures Keys(FirstOccurrences(values)) == Keys(values)
    ensures DistinctKeys(FirstOccurrences(values))
    ensures |FirstOccurrences(values)| <= |values|
    ensures forall v :: v in FirstOccurrences(values) ==> v in values
  {
    if values != [] {
      var init, last := values[..|values| - 1], values[|values| - 1];
      assert values == init + [last];
      FirstOccurrencesKeepsKeys(init);
      KeysAppend(init, last);
      KeysAppend(FirstOccurrences(init), last);
      forall v | v in FirstOccurrences(init) ensures v.folded in Keys(init) {
        assert v.folded in Keys(FirstOccurrences(init));
      }
    }
  }

  /** Of the spellings of one interest the first stays. */
  lemma {:induction false} FirstSpellingStays(values: seq<Text>, i: nat)
    requires i < |values|
    ensures (forall j :: 0 <= j < i ==> values[j].folded != values[i].folded) ==>
              values[i] in FirstOccurrences(values)
  {
    var init, last := values[..|values| - 1], values[|values| - 1];
    if i < |init| {
      FirstSpellingStays(init, i);
    } else if forall j :: 0 <= j < i ==> values[j].folded != values[i].folded {
      forall v | v in init ensures v.folded != last.folded {
        var j :| 0 <= j < |init| && init[j] == v;
        assert values[j] == v;
      }
      assert last.folded !in Keys(init);
    }
  }

  /** A list without repeated keys is left alone. */
  lemma {:induction false} DistinctIsFixed(values: seq<Text>)
    requires DistinctKeys(values)
    ensures FirstOccurrences(values) == values
  {
    if values != [] {
      var init, last := values[..|values| - 1], values[|values| - 1];
      assert values == init + [last];
      forall v | v in init ensures v.folded != last.folded {
        var i :| 0 <= i < |init| && init[i] == v;
        assert values[i] == v;
      }
      assert last.folded !in Keys(init);
      DistinctIsFixed(init);
    }
  }

  lemma NormalizingTwice(values: seq<Text>)
    ensures FirstOccurrences(FirstOccurrences(values)) == FirstOccurrences(values)
  {
    FirstOccurrencesKeepsKeys(values);
    DistinctIsFixed(FirstOccurrences(values));
  }

  /** Deduplicate interests by folded key, keeping their first spelling and their order. */
  method NormalizeInterests(values: seq<Text>) returns (normalized: seq<Text>)
    ensures normalized == FirstOccurrences(values)
  {
    normalized := [];
    var seen: set<string> := {};
    var i := 0;
    while i < |values|
      invariant 0 <= i <= |values|
      invariant normalized == FirstOccurrences(values[..i])
      invariant seen == Keys(values[..i])
    {
      var interest := values[i];
      assert values[..i + 1] == values[..i] + [interest];
      KeysAppend(values[..i], interest);
      if interest.folded !in seen {
        normalized := normalized + [interest];
        seen := seen + {interest.folded};
      }
      i := i + 1;
    }
    assert values[..i] == values;
  }
}
