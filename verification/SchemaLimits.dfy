/** Where schema simplification stops being a weakening, keyword by keyword. */
module SchemaLimits {
  import opened JsonSchema
  import opened SchemaSimplifier

  /** Keywords that apply other schemas. */
  const APPLICATORS := {
    Ref, AllOf, AnyOf, OneOf, Not, If, DependentSchemas, Properties, PatternProperties, AdditionalProperties,
    PropertyNames,
    PrefixItems, Items, Contains}

  /** A keyword that is not there asks for nothing. */
  lemma Idle(o: Oracle, root: Json, schema: Json, v: Json, fuel: nat)
    requires schema.Obj?
    ensures Ref !in schema.fields ==> ReferenceOk(o, root, schema, v, fuel)
    ensures AllOf !in schema.fields ==> AllOfOk(o, root, schema, v, fuel)
    ensures AnyOf !in schema.fields ==> AnyOfOk(o, root, schema, v, fuel)
    ensures OneOf !in schema.fields ==> OneOfOk(o, root, schema, v, fuel)
    ensures Not !in schema.fields ==> NotOk(o, root, schema, v, fuel)
    ensures If !in schema.fields ==> ConditionalOk(o, root, schema, v, fuel)
    ensures DependentSchemas !in schema.fields ==> DependentsOk(o, root, schema, v, fuel)
    ensures Properties !in schema.fields ==> PropertiesOk(o, root, schema, v, fuel)
    ensures PatternProperties !in schema.fields ==> PatternsOk(o, root, schema, v, fuel)
    ensures AdditionalProperties !in schema.fields ==> AdditionalOk(o, root, schema, v, fuel)
    ensures PropertyNames !in schema.fields ==> NamesOk(o, root, schema, v, fuel)
    ensures PrefixItems !in schema.fields ==> PrefixOk(o, root, schema, v, fuel)
    ensures Items !in schema.fields ==> ItemsOk(o, root, schema, v, fuel)
    ensures Contains !in schema.fields ==> ContainsOk(o, root, schema, v, fuel)
  {
  }

  predicate Asserts(k: Word) {
    match k
    case Type | Enum | Const | MultipleOf | UniqueItems => true
    case MinProperties | MaxProperties | Required | DependentRequired => true
    case Pattern | Format | MinLength | MaxLength | Minimum | Maximum | ExclusiveMinimum | ExclusiveMaximum => true
    case MinItems | MaxItems => true
    case _ => false
  }

  /** Without assertions, only the keywords that apply other schemas are left. */
  lemma Silent(o: Oracle, f: map<Word, Json>, v: Json)
    requires forall k :: k in f ==> !Asserts(k)
    ensures TypeOk(f, v) && ValuesOk(f, v) && RangesOk(o, f, v)
  {
  }

  lemma OnlyAssertions(o: Oracle, root: Json, schema: Json, v: Json, fuel: nat)
    requires schema.Obj? && schema.fields.Keys !! APPLICATORS
    ensures var f := schema.fields;
            Accepts(o, root, schema, v, fuel) <==> TypeOk(f, v) && ValuesOk(f, v) && RangesOk(o, f, v)
  {
    Idle(o, root, schema, v, fuel);
  }

  /** Kept, and not a map of names. */
  predicate Ordinary(k: Word) {
    k !in LOCAL_KEYWORDS && k !in NAME_MAPS
  }

  lemma Alone(k: Word, child: Json)
    requires Shaped(child) && Ordinary(k)
    ensures Shaped(Obj(map[k := child])) && Simplify(Obj(map[k := child])) == Obj(map[k := Simplify(child)])
  {
    assert Simplify(Obj(map[k := child])).fields == map[k := Simplify(child)];
  }

  lemma Both(k: Word, child: Json, l: Word, other: Json, s: Json)
    requires Shaped(child) && Shaped(other) && k != l && Ordinary(k) && Ordinary(l)
    requires s == Obj(map[k := child, l := other])
    ensures Shaped(s) && Simplify(s) == Obj(map[k := Simplify(child), l := Simplify(other)])
  {
    KeptMember(s.fields, k);
    KeptMember(s.fields, l);
    var after := Simplify(s).fields;
    forall m ensures m in after <==> m in {k, l} {
      KeptMember(s.fields, m);
    }
    assert after == map[k := Simplify(child), l := Simplify(other)];
  }

  /** Every value accepted before is accepted after. */
  ghost predicate OnlyWeakened(o: Oracle, s: Json)
    requires Shaped(s)
  {
    forall v :: Accepts(o, s, s, v, 0) ==> Accepts(o, Simplify(s), Simplify(s), v, 0)
  }

  // ---------------------------------------------------------------- fixed values

  /** A fixed value survives exactly when the simplifier leaves it alone. */
  lemma ConstWeakensIffUntouched(o: Oracle, c: Json)
    requires Shaped(c)
    ensures var s := Obj(map[Const := c]); Shaped(s) && (OnlyWeakened(o, s) <==> Untouched(c))
  {
    Alone(Const, c);
    if !Untouched(c) {
      ConstMeans(o, c, c);
      ConstMeans(o, Simplify(c), c);
    }
  }

  lemma ConstMeans(o: Oracle, c: Json, v: Json)
    ensures Accepts(o, Obj(map[Const := c]), Obj(map[Const := c]), v, 0) <==> v == c
  {
    OnlyAssertions(o, Obj(map[Const := c]), Obj(map[Const := c]), v, 0);
  }

  // ---------------------------------------------------------------- listed values

  lemma EnumMeans(o: Oracle, s: Json, items: seq<Json>, v: Json)
    requires s == Obj(map[Enum := Arr(items)])
    ensures Accepts(o, s, s, v, 0) <==> v in items
  {
    OnlyAssertions(o, s, s, v, 0);
  }

  /** A value is still listed exactly when the simplifier leaves it alone: what it returns, it leaves alone. */
  lemma ListedIffUntouched(items: seq<Json>, v: Json)
    requires Shaped(Arr(items)) && v in items
    ensures v in Simplify(Arr(items)).items <==> Untouched(v)
  {
    var i :| 0 <= i < |items| && items[i] == v;
    assert Simplify(Arr(items)).items[i] == Simplify(v);
    if v in Simplify(Arr(items)).items {
      var j :| 0 <= j < |items| && Simplify(Arr(items)).items[j] == v;
      SimplifyIsIdempotent(items[j]);
    }
  }

  /** A list of values is only weakened exactly when the simplifier leaves every one of them alone. */
  lemma EnumWeakensIffUntouched(o: Oracle, items: seq<Json>)
    requires Shaped(Arr(items))
    ensures var s := Obj(map[Enum := Arr(items)]);
            Shaped(s) && (OnlyWeakened(o, s) <==> forall v :: v in items ==> Untouched(v))
  {
    var s, after := Obj(map[Enum := Arr(items)]), Simplify(Arr(items)).items;
    Alone(Enum, Arr(items));
    assert Simplify(s) == Obj(map[Enum := Arr(after)]);
    forall v
      ensures (Accepts(o, s, s, v, 0) <==> v in items) && (Accepts(o, Simplify(s), Simplify(s), v, 0) <==> v in after)
    {
      EnumMeans(o, s, items, v);
      EnumMeans(o, Simplify(s), after, v);
    }
    forall v | v in items ensures v in after <==> Untouched(v) {
      ListedIffUntouched(items, v);
    }
  }

  // ---------------------------------------------------------------- length bounds

  const ANYTHING := Obj(map[])

  function AtLeast(n: real): Json {
    Obj(map[MinLength := Num(n)])
  }

  function AtMost(n: real): Json {
    Obj(map[MaxLength := Num(n)])
  }

  predicate LongEnough(v: Json, n: real) {
    v.Str? ==> n <= |Spelling(v.s)| as real
  }

  predicate ShortEnough(v: Json, n: real) {
    v.Str? ==> |Spelling(v.s)| as real <= n
  }

  lemma BoundsVanish(n: real)
    ensures Shaped(AtLeast(n)) && Simplify(AtLeast(n)) == ANYTHING
    ensures Shaped(AtMost(n)) && Simplify(AtMost(n)) == ANYTHING
  {
    assert Simplify(AtLeast(n)).fields == map[] && Simplify(AtMost(n)).fields == map[];
  }

  lemma AtLeastMeans(o: Oracle, root: Json, n: real, v: Json)
    ensures Accepts(o, root, AtLeast(n), v, 0) <==> LongEnough(v, n)
  {
    OnlyAssertions(o, root, AtLeast(n), v, 0);
  }

  lemma AtMostMeans(o: Oracle, root: Json, n: real, v: Json)
    ensures Accepts(o, root, AtMost(n), v, 0) <==> ShortEnough(v, n)
  {
    OnlyAssertions(o, root, AtMost(n), v, 0);
  }

  lemma AnythingMeans(o: Oracle, root: Json, v: Json)
    ensures Accepts(o, root, ANYTHING, v, 0)
  {
    OnlyAssertions(o, root, ANYTHING, v, 0);
  }

  // ---------------------------------------------------------------- negation

  lemma NotMeans(o: Oracle, s: Json, inner: Json, v: Json)
    requires s == Obj(map[Not := inner])
    ensures Accepts(o, s, s, v, 0) <==> !Accepts(o, s, inner, v, 0)
  {
    Idle(o, s, s, v, 0);
    Silent(o, s.fields, v);
    assert NotOk(o, s, s, v, 0) <==> !Accepts(o, s, inner, v, 0);
  }

  /** Negation turns a weakening into a strengthening: short strings pass before, nothing passes after. */
  lemma NegationStrengthens(o: Oracle, n: real, v: Json)
    ensures var s := Obj(map[Not := AtLeast(n)]);
            && Shaped(s)
            && (Accepts(o, s, s, v, 0) <==> !LongEnough(v, n))
            && !Accepts(o, Simplify(s), Simplify(s), v, 0)
  {
    var s, t := Obj(map[Not := AtLeast(n)]), Obj(map[Not := ANYTHING]);
    BoundsVanish(n);
    Alone(Not, AtLeast(n));
    NotMeans(o, s, AtLeast(n), v);
    AtLeastMeans(o, s, n, v);
    NotMeans(o, t, ANYTHING, v);
    AnythingMeans(o, t, v);
  }

  /** A value every length bound above zero turns away. */
  const EMPTY_TEXT := Str(Text(""))

  /** A negated length bound is only weakened exactly when it did not bind. */
  lemma NegationWeakensIff(o: Oracle, n: real)
    ensures var s := Obj(map[Not := AtLeast(n)]); Shaped(s) && (OnlyWeakened(o, s) <==> n <= 0.0)
  {
    forall v ensures var s := Obj(map[Not := AtLeast(n)]);
                     Shaped(s) && (Accepts(o, s, s, v, 0) <==> !LongEnough(v, n))
                     && !Accepts(o, Simplify(s), Simplify(s), v, 0)
    {
      NegationStrengthens(o, n, v);
    }
    assert n > 0.0 ==> !LongEnough(EMPTY_TEXT, n);
  }

  // ---------------------------------------------------------------- exactly one branch

  lemma OneOfMeans(o: Oracle, s: Json, first: Json, second: Json, v: Json)
    requires s == Obj(map[OneOf := Arr([first, second])])
    ensures Accepts(o, s, s, v, 0) <==> Accepts(o, s, first, v, 0) != Accepts(o, s, second, v, 0)
  {
    Idle(o, s, s, v, 0);
    Silent(o, s.fields, v);
    MatchingPair(o, s, first, second, v, 0);
    assert OneOfOk(o, s, s, v, 0) <==> Matching(o, s, [first, second], v, 0) == 1;
  }

  lemma MatchingPair(o: Oracle, root: Json, first: Json, second: Json, v: Json, fuel: nat)
    ensures Matching(o, root, [first, second], v, fuel)
            == (if Accepts(o, root, first, v, fuel) then 1 else 0)
              + (if Accepts(o, root, second, v, fuel) then 1 else 0)
  {
    var both, last := [first, second], [second];
    assert both[1..] == last && last[1..] == [] && both[0] == first && last[0] == second;
    MatchingFirst(o, root, both, v, fuel);
    MatchingFirst(o, root, last, v, fuel);
  }

  lemma MatchingFirst(o: Oracle, root: Json, branches: seq<Json>, v: Json, fuel: nat)
    requires branches != []
    ensures Matching(o, root, branches, v, fuel)
            == (if Accepts(o, root, branches[0], v, fuel) then 1 else 0) + Matching(o, root, branches[1..], v, fuel)
  {
  }

  lemma BoundedPair(n: real, m: real)
    ensures var s := Obj(map[OneOf := Arr([AtLeast(n), AtMost(m)])]);
            Shaped(s) && Simplify(s) == Obj(map[OneOf := Arr([ANYTHING, ANYTHING])])
  {
    var pair := Arr([AtLeast(n), AtMost(m)]);
    BoundsVanish(n);
    BoundsVanish(m);
    assert Shaped(pair) && Simplify(pair).items == [ANYTHING, ANYTHING];
    Alone(OneOf, pair);
  }

  /** Weaker branches overlap, and then every value matches more than one of them. */
  lemma ExactlyOneStrengthens(o: Oracle, n: real, m: real, v: Json)
    ensures var s := Obj(map[OneOf := Arr([AtLeast(n), AtMost(m)])]);
            && Shaped(s)
            && (Accepts(o, s, s, v, 0) <==> LongEnough(v, n) != ShortEnough(v, m))
            && !Accepts(o, Simplify(s), Simplify(s), v, 0)
  {
    var s, t := Obj(map[OneOf := Arr([AtLeast(n), AtMost(m)])]), Obj(map[OneOf := Arr([ANYTHING, ANYTHING])]);
    BoundedPair(n, m);
    OneOfMeans(o, s, AtLeast(n), AtMost(m), v);
    AtLeastMeans(o, s, n, v);
    AtMostMeans(o, s, m, v);
    OneOfMeans(o, t, ANYTHING, ANYTHING, v);
  }

  /** Text of a given length. */
  function Letters(n: nat): string {
    seq(n, _ => 'a')
  }

  /** Two bounds under `oneOf` are never only weakened: some text is long enough for one and too long for the other. */
  lemma ExactlyOneNeverWeakens(o: Oracle, n: real, m: real)
    ensures var s := Obj(map[OneOf := Arr([AtLeast(n), AtMost(m)])]); Shaped(s) && !OnlyWeakened(o, s)
  {
    var longest := if n < m then m else n;
    var length: nat := if longest < 0.0 then 0 else longest.Floor + 1;
    var v := Str(Text(Letters(length)));
    assert LongEnough(v, n) && !ShortEnough(v, m);
    ExactlyOneStrengthens(o, n, m, v);
  }

  // ---------------------------------------------------------------- conditions

  function Forbids(test: Json): Json {
    Obj(map[If := test, Then := Bool(false)])
  }

  lemma OnlyCondition(o: Oracle, s: Json, v: Json)
    requires s.Obj? && s.fields.Keys <= {If, Then, Else}
    ensures Accepts(o, s, s, v, 0) <==> ConditionalOk(o, s, s, v, 0)
  {
    assert && ObjectChildrenOk(o, s, s, v, 0) && ArrayChildrenOk(o, s, s, v, 0)
           && (InPlaceOk(o, s, s, v, 0) <==> ConditionalOk(o, s, s, v, 0)) by {
      Idle(o, s, s, v, 0);
    }
    Silent(o, s.fields, v);
  }

  lemma ForbidsMeans(o: Oracle, s: Json, test: Json, v: Json)
    requires s == Forbids(test)
    ensures Accepts(o, s, s, v, 0) <==> !Accepts(o, s, test, v, 0)
  {
    OnlyCondition(o, s, v);
    assert !ThenOk(o, s, s, v, 0) && ElseOk(o, s, s, v, 0);
  }

  lemma ConditionLosesBound(n: real)
    ensures Shaped(Forbids(AtLeast(n))) && Simplify(Forbids(AtLeast(n))) == Forbids(ANYTHING)
  {
    BoundsVanish(n);
    Both(If, AtLeast(n), Then, Bool(false), Forbids(AtLeast(n)));
  }

  /** A weaker test sends more values to `then`: short strings escape it before, nothing does after. */
  lemma ConditionStrengthens(o: Oracle, n: real, v: Json)
    ensures var s := Forbids(AtLeast(n));
            && Shaped(s)
            && (Accepts(o, s, s, v, 0) <==> !LongEnough(v, n))
            && !Accepts(o, Simplify(s), Simplify(s), v, 0)
  {
    var s, t := Forbids(AtLeast(n)), Forbids(ANYTHING);
    ConditionLosesBound(n);
    ForbidsMeans(o, s, AtLeast(n), v);
    AtLeastMeans(o, s, n, v);
    ForbidsMeans(o, t, ANYTHING, v);
    AnythingMeans(o, t, v);
  }

  /** A condition on length is only weakened exactly when it did not bind. */
  lemma ConditionWeakensIff(o: Oracle, n: real)
    ensures var s := Forbids(AtLeast(n)); Shaped(s) && (OnlyWeakened(o, s) <==> n <= 0.0)
  {
    forall v ensures var s := Forbids(AtLeast(n));
                     Shaped(s) && (Accepts(o, s, s, v, 0) <==> !LongEnough(v, n))
                     && !Accepts(o, Simplify(s), Simplify(s), v, 0)
    {
      ConditionStrengthens(o, n, v);
    }
    assert n > 0.0 ==> !LongEnough(EMPTY_TEXT, n);
  }

  // ---------------------------------------------------------------- counting matches

  function AtMostMatching(rule: Json, most: nat): Json {
    Obj(map[Contains := rule, MaxContains := Num(most as real)])
  }

  predicate HitsInRange(o: Oracle, root: Json, rule: Json, most: nat, v: Json) {
    v.Arr? ==> 1 <= |Hits(o, root, rule, v.items, 0)| <= most
  }

  lemma AtMostMatchingMeans(o: Oracle, s: Json, rule: Json, most: nat, v: Json)
    requires s == AtMostMatching(rule, most)
    ensures Accepts(o, s, s, v, 0) <==> HitsInRange(o, s, rule, most, v)
  {
    Idle(o, s, s, v, 0);
    Silent(o, s.fields, v);
    if v.Arr? {
      RangeMeans(s, rule, most, |Hits(o, s, rule, v.items, 0)|);
    }
    assert ContainsOk(o, s, s, v, 0) <==> HitsInRange(o, s, rule, most, v);
  }

  lemma RangeMeans(s: Json, rule: Json, most: nat, hits: nat)
    requires s == AtMostMatching(rule, most)
    ensures ContainsRange(s.fields, hits) <==> 1 <= hits <= most
  {
  }

  /** One value that every rule on string lengths passes, and `most` empty strings. */
  function OneAndEmpties(most: nat): seq<Json> {
    seq(most + 1, (i: int) => if i == 0 then Null else Str(Text("")))
  }

  function Below(n: nat): set<int> {
    if n == 0 then {} else Below(n - 1) + {n - 1}
  }

  lemma {:induction false} BelowIs(n: nat)
    ensures |Below(n)| == n && forall i :: i in Below(n) <==> 0 <= i < n
  {
    if n > 0 {
      BelowIs(n - 1);
    }
  }

  lemma BoundHitsOne(o: Oracle, root: Json, n: real, most: nat)
    requires n > 0.0
    ensures Hits(o, root, AtLeast(n), OneAndEmpties(most), 0) == {0}
  {
    var items := OneAndEmpties(most);
    forall i | 0 <= i < |items| ensures Accepts(o, root, AtLeast(n), items[i], 0) <==> i == 0 {
      AtLeastMeans(o, root, n, items[i]);
    }
  }

  lemma AnythingHitsAll(o: Oracle, root: Json, items: seq<Json>)
    ensures Hits(o, root, ANYTHING, items, 0) == Below(|items|) && |Hits(o, root, ANYTHING, items, 0)| == |items|
  {
    BelowIs(|items|);
    forall i | 0 <= i < |items| ensures Accepts(o, root, ANYTHING, items[i], 0) {
      AnythingMeans(o, root, items[i]);
    }
  }

  lemma IdleBoundHitsAll(o: Oracle, root: Json, n: real, items: seq<Json>)
    requires n <= 0.0
    ensures Hits(o, root, AtLeast(n), items, 0) == Below(|items|)
  {
    BelowIs(|items|);
    forall i | 0 <= i < |items| ensures Accepts(o, root, AtLeast(n), items[i], 0) {
      AtLeastMeans(o, root, n, items[i]);
    }
  }

  lemma LimitLosesBound(n: real, most: nat)
    ensures Shaped(AtMostMatching(AtLeast(n), most))
    ensures Simplify(AtMostMatching(AtLeast(n), most)) == AtMostMatching(ANYTHING, most)
  {
    BoundsVanish(n);
    Both(Contains, AtLeast(n), MaxContains, Num(most as real), AtMostMatching(AtLeast(n), most));
  }

  lemma LimitOnMatches(o: Oracle, n: real, most: nat, v: Json)
    ensures var s, t := AtMostMatching(AtLeast(n), most), AtMostMatching(ANYTHING, most);
            && Shaped(s) && Simplify(s) == t
            && (Accepts(o, s, s, v, 0) <==> HitsInRange(o, s, AtLeast(n), most, v))
            && (Accepts(o, t, t, v, 0) <==> HitsInRange(o, t, ANYTHING, most, v))
  {
    var s, t := AtMostMatching(AtLeast(n), most), AtMostMatching(ANYTHING, most);
    LimitLosesBound(n, most);
    AtMostMatchingMeans(o, s, AtLeast(n), most, v);
    AtMostMatchingMeans(o, t, ANYTHING, most, v);
  }

  lemma BindingLimitRefuses(o: Oracle, n: real, most: nat)
    requires most >= 1 && n > 0.0
    ensures var s, t, v := AtMostMatching(AtLeast(n), most), AtMostMatching(ANYTHING, most), Arr(OneAndEmpties(most));
            HitsInRange(o, s, AtLeast(n), most, v) && !HitsInRange(o, t, ANYTHING, most, v)
  {
    BoundHitsOne(o, AtMostMatching(AtLeast(n), most), n, most);
    AnythingHitsAll(o, AtMostMatching(ANYTHING, most), OneAndEmpties(most));
  }

  lemma IdleLimitKeeps(o: Oracle, n: real, most: nat, v: Json)
    requires n <= 0.0
    ensures var s, t := AtMostMatching(AtLeast(n), most), AtMostMatching(ANYTHING, most);
            HitsInRange(o, s, AtLeast(n), most, v) == HitsInRange(o, t, ANYTHING, most, v)
  {
    if v.Arr? {
      IdleBoundHitsAll(o, AtMostMatching(AtLeast(n), most), n, v.items);
      AnythingHitsAll(o, AtMostMatching(ANYTHING, most), v.items);
    }
  }

  /** An upper limit on matches survives simplification exactly when the dropped length bound did not bind. */
  lemma MaxContainsWeakensIff(o: Oracle, n: real, most: nat)
    requires most >= 1
    ensures var s := AtMostMatching(AtLeast(n), most); Shaped(s) && (OnlyWeakened(o, s) <==> n <= 0.0)
  {
    var s := AtMostMatching(AtLeast(n), most);
    LimitOnMatches(o, n, most, Null);
    if n <= 0.0 {
      forall v ensures Accepts(o, s, s, v, 0) ==> Accepts(o, Simplify(s), Simplify(s), v, 0) {
        LimitOnMatches(o, n, most, v);
        IdleLimitKeeps(o, n, most, v);
      }
    } else {
      var v := Arr(OneAndEmpties(most));
      LimitOnMatches(o, n, most, v);
      BindingLimitRefuses(o, n, most);
    }
  }

  // ---------------------------------------------------------------- patterns spelled like keywords

  function OnlyPatterns(patterns: map<Word, Json>): Json {
    Obj(map[PatternProperties := Obj(patterns), AdditionalProperties := Bool(false)])
  }

  /** Patterns that ask nothing of the members they fit. */
  function Admitting(patterns: set<Word>): map<Word, Json> {
    map p | p in patterns :: Bool(true)
  }

  lemma TruePatternsPass(o: Oracle, s: Json, patterns: map<Word, Json>, v: Json)
    requires s == OnlyPatterns(patterns) && forall p :: p in patterns ==> patterns[p] == Bool(true)
    ensures PatternsOk(o, s, s, v, 0)
  {
  }

  /** Every name of an object fits one of the patterns. */
  predicate AllFit(o: Oracle, patterns: map<Word, Json>, v: Json) {
    v.Obj? ==> forall n :: n in v.fields ==> exists p :: p in patterns && Fits(o, p, n)
  }

  lemma NothingAdditional(o: Oracle, s: Json, patterns: map<Word, Json>, v: Json)
    requires s == OnlyPatterns(patterns)
    ensures AdditionalOk(o, s, s, v, 0) <==> AllFit(o, patterns, v)
  {
    assert Members(s.fields, Properties) == map[] && Members(s.fields, PatternProperties) == patterns;
    assert forall w :: !Accepts(o, s, Bool(false), w, 0);
    assert forall n :: Evaluated(o, s.fields, n) <==> exists p :: p in patterns && Fits(o, p, n);
    assert AdditionalOk(o, s, s, v, 0) <==> (v.Obj? ==> forall n :: n in v.fields ==> Evaluated(o, s.fields, n));
  }

  lemma OnlyPatternsMeans(o: Oracle, s: Json, patterns: map<Word, Json>, v: Json)
    requires s == OnlyPatterns(patterns) && forall p :: p in patterns ==> patterns[p] == Bool(true)
    ensures Accepts(o, s, s, v, 0) <==> AllFit(o, patterns, v)
  {
    Idle(o, s, s, v, 0);
    Silent(o, s.fields, v);
    TruePatternsPass(o, s, patterns, v);
    NothingAdditional(o, s, patterns, v);
    assert Accepts(o, s, s, v, 0) <==> AdditionalOk(o, s, s, v, 0);
  }

  lemma KeywordPatternsVanish(patterns: set<Word>)
    requires patterns !! NAME_MAPS
    ensures var s := OnlyPatterns(Admitting(patterns));
            Shaped(s) && Simplify(s) == OnlyPatterns(Admitting(patterns - LOCAL_KEYWORDS))
  {
    var inner := Obj(Admitting(patterns));
    assert Shaped(inner) && Simplify(inner) == Obj(Admitting(patterns - LOCAL_KEYWORDS)) by {
      assert Simplify(inner).fields == Admitting(patterns - LOCAL_KEYWORDS);
    }
    Both(PatternProperties, inner, AdditionalProperties, Bool(false), OnlyPatterns(inner.fields));
  }

  /** Some pattern of the set fits the name. */
  predicate Covers(o: Oracle, patterns: set<Word>, n: Word) {
    exists p :: p in patterns && Fits(o, p, n)
  }

  predicate AllCovered(o: Oracle, patterns: set<Word>, v: Json) {
    v.Obj? ==> forall n :: n in v.fields ==> Covers(o, patterns, n)
  }

  lemma AdmittingMeans(o: Oracle, patterns: set<Word>, v: Json)
    ensures var s := OnlyPatterns(Admitting(patterns)); Accepts(o, s, s, v, 0) <==> AllCovered(o, patterns, v)
  {
    OnlyPatternsMeans(o, OnlyPatterns(Admitting(patterns)), Admitting(patterns), v);
    assert forall p :: p in Admitting(patterns) <==> p in patterns;
    if v.Obj? {
      assert forall n :: Covers(o, patterns, n) <==> exists p :: p in Admitting(patterns) && Fits(o, p, n);
    }
  }

  lemma PatternsBeforeAndAfter(o: Oracle, patterns: set<Word>, v: Json)
    requires patterns !! NAME_MAPS
    ensures var s := OnlyPatterns(Admitting(patterns));
            && Shaped(s) && (Accepts(o, s, s, v, 0) <==> AllCovered(o, patterns, v))
            && (Accepts(o, Simplify(s), Simplify(s), v, 0) <==> AllCovered(o, patterns - LOCAL_KEYWORDS, v))
  {
    KeywordPatternsVanish(patterns);
    AdmittingMeans(o, patterns, v);
    AdmittingMeans(o, patterns - LOCAL_KEYWORDS, v);
  }

  /** Every name that a pattern spelled like a keyword fits also fits one that is kept. */
  ghost predicate KeywordsSpared(o: Oracle, patterns: set<Word>) {
    forall n :: Covers(o, patterns * LOCAL_KEYWORDS, n) ==> Covers(o, patterns - LOCAL_KEYWORDS, n)
  }

  lemma CoveredByKept(o: Oracle, patterns: set<Word>, v: Json)
    requires KeywordsSpared(o, patterns) && AllCovered(o, patterns, v)
    ensures AllCovered(o, patterns - LOCAL_KEYWORDS, v)
  {
    if v.Obj? {
      forall n | n in v.fields ensures Covers(o, patterns - LOCAL_KEYWORDS, n) {
        var p :| p in patterns && Fits(o, p, n);
        assert p in patterns * LOCAL_KEYWORDS || p in patterns - LOCAL_KEYWORDS;
      }
    }
  }

  lemma LostName(o: Oracle, patterns: set<Word>, n: Word)
    requires Covers(o, patterns * LOCAL_KEYWORDS, n) && !Covers(o, patterns - LOCAL_KEYWORDS, n)
    ensures AllCovered(o, patterns, Obj(map[n := Null]))
    ensures !AllCovered(o, patterns - LOCAL_KEYWORDS, Obj(map[n := Null]))
  {
    assert n in Obj(map[n := Null]).fields;
  }

  /**
   Patterns spelled like keywords are dropped. The schema is only weakened exactly when every name
   they fit also fits a pattern that is kept.
   */
  lemma KeywordPatternsWeakenIff(o: Oracle, patterns: set<Word>)
    requires patterns !! NAME_MAPS
    ensures var s := OnlyPatterns(Admitting(patterns));
            Shaped(s) && (OnlyWeakened(o, s) <==> KeywordsSpared(o, patterns))
  {
    var s := OnlyPatterns(Admitting(patterns));
    forall v ensures && Shaped(s) && (Accepts(o, s, s, v, 0) <==> AllCovered(o, patterns, v))
                     && (Accepts(o, Simplify(s), Simplify(s), v, 0) <==> AllCovered(o, patterns - LOCAL_KEYWORDS, v))
    {
      PatternsBeforeAndAfter(o, patterns, v);
    }
    if KeywordsSpared(o, patterns) {
      forall v | AllCovered(o, patterns, v) ensures AllCovered(o, patterns - LOCAL_KEYWORDS, v) {
        CoveredByKept(o, patterns, v);
      }
    } else {
      var n :| Covers(o, patterns * LOCAL_KEYWORDS, n) && !Covers(o, patterns - LOCAL_KEYWORDS, n);
      LostName(o, patterns, n);
    }
  }
}
