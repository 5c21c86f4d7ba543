/**
 The schema sent to Google's generation endpoint: local validation keywords are removed, and
 every value the original schema accepts must still be accepted.
 */
module SchemaSimplifier {
  import opened Collections
  import opened JsonSchema
  import opened Wrappers

  const LOCAL_KEYWORDS := {
    Default, Title, Pattern, Format, MinLength, MaxLength, Minimum, Maximum,
    ExclusiveMinimum, ExclusiveMaximum, MinItems, MaxItems}

  /** Keywords whose members are names chosen by the schema's author. */
  const NAME_MAPS := {Properties, Defs}

  // ---------------------------------------------------------------- the transformation

  /** Whether the simplifier gets through: it needs an object under each visited name map. */
  predicate Shaped(value: Json) {
    match value
    case Arr(items) => forall i :: 0 <= i < |items| ==> Shaped(items[i])
    case Obj(fields) =>
      forall k | k in fields && k !in LOCAL_KEYWORDS ::
        if k in NAME_MAPS then fields[k].Obj? && forall n | n in fields[k].fields :: Shaped(fields[k].fields[n])
        else Shaped(fields[k])
    case _ => true
  }

  function Simplify(value: Json): Json
    requires Shaped(value)
  {
    match value
    case Arr(items) => Arr(seq(|items|, i requires 0 <= i < |items| => Simplify(items[i])))
    case Obj(fields) =>
      Obj(map k | k in fields && k !in LOCAL_KEYWORDS ::
        if k in NAME_MAPS then Obj(map n | n in fields[k].fields :: Simplify(fields[k].fields[n]))
        else Simplify(fields[k]))
    case _ => value
  }

  /** The generation schema, or None where a name map is not an object and the program raises. */
  function GenerationSchema(schema: Json): Option<Json> {
    if Shaped(schema) then Some(Simplify(schema)) else None
  }

  // ---------------------------------------------------------------- the fragment

  /** A value the simplifier leaves alone, as it does every scalar. */
  predicate Untouched(value: Json) {
    Shaped(value) && Simplify(value) == value
  }

  /** A schema whose meaning simplification cannot change: left alone, and without references to what is changed. */
  predicate Closed(schema: Json) {
    Untouched(schema) && RefFree(schema)
  }

  /**
   Where accepting more inside could mean accepting less outside, the inner schema is closed; fixed
   and listed values are left alone; names that are patterns or tests are not taken for keywords.
   */
  predicate Careful(f: map<Word, Json>) {
    var read := f.Keys !! {UnevaluatedItems, UnevaluatedProperties, DynamicRef};
    var values :=
      && (Const in f ==> Untouched(f[Const]))
      && (Enum in f && f[Enum].Arr? ==> forall i :: 0 <= i < |f[Enum].items| ==> Untouched(f[Enum].items[i]));
    var exact :=
      && (Not in f ==> Closed(f[Not]))
      && (OneOf in f && f[OneOf].Arr? ==> forall i :: 0 <= i < |f[OneOf].items| ==> Closed(f[OneOf].items[i]))
      && (If in f ==> Closed(f[If]))
      && (MaxContains in f && f[MaxContains].Num? && Contains in f ==> Closed(f[Contains]));
    var names :=
      && Members(f, PatternProperties).Keys !! LOCAL_KEYWORDS + NAME_MAPS
      && Members(f, DependentSchemas).Keys !! NAME_MAPS;
    read && values && exact && names
  }

  /** Careful at every place that holds a schema; definitions are looked at where the document holds them. */
  predicate Fragment(schema: Json) {
    match schema
    case Obj(f) =>
      var keywords := Careful(f);
      var single :=
        && FragmentBelow(schema, Items) && FragmentBelow(schema, Contains)
           && FragmentBelow(schema, AdditionalProperties)
        && FragmentBelow(schema, PropertyNames) && FragmentBelow(schema, Then) && FragmentBelow(schema, Else);
      var listed :=
        && FragmentList(schema, PrefixItems) && FragmentList(schema, AllOf) && FragmentList(schema, AnyOf);
      var named :=
        && FragmentMembers(schema, Properties) && FragmentMembers(schema, PatternProperties)
        && FragmentMembers(schema, DependentSchemas);
      keywords && single && listed && named
    case _ => true
  }

  predicate FragmentBelow(schema: Json, k: Word)
    requires schema.Obj?
    decreases schema, 0
  {
    k in schema.fields ==> Fragment(schema.fields[k])
  }

  predicate FragmentList(schema: Json, k: Word)
    requires schema.Obj?
    decreases schema, 0
  {
    var f := schema.fields;
    k in f && f[k].Arr? ==> forall i :: 0 <= i < |f[k].items| ==> Fragment(f[k].items[i])
  }

  predicate FragmentMembers(schema: Json, k: Word)
    requires schema.Obj?
    decreases schema, 0
  {
    var f := schema.fields;
    k in f && f[k].Obj? ==> forall n :: n in f[k].fields ==> Fragment(f[k].fields[n])
  }

  predicate FragmentDocument(root: Json) {
    match root
    case Obj(f) =>
      var definitions := FragmentMembers(root, Defs);
      var whole := Fragment(root);
      definitions && whole
    case _ => true
  }

  // ---------------------------------------------------------------- what simplification keeps

  /** A member under a keyword that is kept is the simplified one. */
  lemma KeptMember(f: map<Word, Json>, k: Word)
    requires Shaped(Obj(f))
    ensures (k in Simplify(Obj(f)).fields) == (k in f && k !in LOCAL_KEYWORDS)
    ensures k in f && k !in LOCAL_KEYWORDS && k !in NAME_MAPS ==>
              Shaped(f[k]) && Simplify(Obj(f)).fields[k] == Simplify(f[k])
  {
  }

  /** Names under `properties` and `$defs` are never taken for keywords: all survive, `title` among them. */
  lemma KeptNames(f: map<Word, Json>, k: Word)
    requires Shaped(Obj(f)) && k in NAME_MAPS
    ensures Members(Simplify(Obj(f)).fields, k).Keys == Members(f, k).Keys
    ensures forall n :: n in Members(f, k) ==>
              Shaped(Members(f, k)[n]) && Members(Simplify(Obj(f)).fields, k)[n] == Simplify(Members(f, k)[n])
  {
  }

  /** Text, numbers and the like, or a list of them. */
  predicate Flat(value: Json) {
    match value
    case Obj(_) => false
    case Arr(items) => forall i :: 0 <= i < |items| ==> !items[i].Obj? && !items[i].Arr?
    case _ => true
  }

  /**
   By name: exactly the twelve validation keywords go. References, `required`, `type`, scalar `enum`
   lists and a plain `additionalProperties` stay as they are, a union keeps its branches, and an
   object its property names, whatever they are called.
   */
  lemma KeptByName(f: map<Word, Json>)
    requires Shaped(Obj(f))
    ensures var kept := Simplify(Obj(f)).fields;
            && kept.Keys == f.Keys - {Default, Title, Pattern, Format, MinLength, MaxLength, Minimum, Maximum,
                                      ExclusiveMinimum, ExclusiveMaximum, MinItems, MaxItems}
            && (forall k :: k in f && k in {Ref, Required, Type, Enum, AdditionalProperties} && Flat(f[k]) ==>
                  k in kept && kept[k] == f[k])
            && (forall k :: k in f && k in {AnyOf, AllOf, OneOf} && f[k].Arr? ==>
                  k in kept && kept[k].Arr? && |kept[k].items| == |f[k].items|)
            && (forall k :: k in f && k in {Properties, Defs} ==>
                  k in kept && kept[k].Obj? && f[k].Obj? && kept[k].fields.Keys == f[k].fields.Keys)
  {
    forall k | k in f && k in {Ref, Required, Type, Enum, AdditionalProperties} && Flat(f[k])
      ensures k in Simplify(Obj(f)).fields && Simplify(Obj(f)).fields[k] == f[k]
    {
      KeptVerbatim(f, k);
    }
    forall k | k in f && k in {AnyOf, AllOf, OneOf} && f[k].Arr?
      ensures var kept := Simplify(Obj(f)).fields;
              k in kept && kept[k].Arr? && |kept[k].items| == |f[k].items|
    {
      KeptMember(f, k);
    }
    KeptKeys(f);
    forall k | k in f && k in {Properties, Defs}
      ensures var kept := Simplify(Obj(f)).fields;
              k in kept && kept[k].Obj? && f[k].Obj? && kept[k].fields.Keys == f[k].fields.Keys
    {
      KeptNames(f, k);
    }
  }

  lemma KeptKeys(f: map<Word, Json>)
    requires Shaped(Obj(f))
    ensures Simplify(Obj(f)).fields.Keys == f.Keys - LOCAL_KEYWORDS
  {
  }

  /**
   References, `required`, `type` and scalar `enum` lists, and a plain `additionalProperties`, come through as they
   are.
   */
  lemma KeptVerbatim(f: map<Word, Json>, k: Word)
    requires Shaped(Obj(f)) && k in f && k !in LOCAL_KEYWORDS + NAME_MAPS
    requires f[k].Obj? ==> Untouched(f[k])
    requires f[k].Arr? ==> forall i :: 0 <= i < |f[k].items| ==> Untouched(f[k].items[i])
    ensures k in Simplify(Obj(f)).fields && Simplify(Obj(f)).fields[k] == f[k]
  {
    KeptMember(f, k);
    if f[k].Arr? {
      assert Simplify(f[k]).items == f[k].items;
    }
  }

  lemma KeptList(f: map<Word, Json>, k: Word)
    requires Shaped(Obj(f)) && k !in LOCAL_KEYWORDS + NAME_MAPS
    ensures |Listed(Simplify(Obj(f)).fields, k)| == |Listed(f, k)|
    ensures forall i :: 0 <= i < |Listed(f, k)| ==>
              Shaped(Listed(f, k)[i]) && Listed(Simplify(Obj(f)).fields, k)[i] == Simplify(Listed(f, k)[i])
  {
    KeptMember(f, k);
  }

  /** Under any other keyword an object loses the members that are spelled like local keywords. */
  lemma KeptInner(f: map<Word, Json>, k: Word)
    requires Shaped(Obj(f)) && k !in LOCAL_KEYWORDS + NAME_MAPS
    ensures Members(Simplify(Obj(f)).fields, k).Keys == Members(f, k).Keys - LOCAL_KEYWORDS
    ensures forall n :: n in Members(f, k) && n !in LOCAL_KEYWORDS + NAME_MAPS ==>
              Shaped(Members(f, k)[n]) && Members(Simplify(Obj(f)).fields, k)[n] == Simplify(Members(f, k)[n])
    ensures forall n :: n in Members(f, k) && n in NAME_MAPS ==> Members(Simplify(Obj(f)).fields, k)[n].Obj?
  {
    KeptMember(f, k);
    if k in f && f[k].Obj? {
      forall n | n in f[k].fields && n !in LOCAL_KEYWORDS + NAME_MAPS
        ensures Shaped(f[k].fields[n]) && Simplify(f[k]).fields[n] == Simplify(f[k].fields[n])
      {
        KeptMember(f[k].fields, n);
      }
    }
  }

  lemma KeptAll(members: map<Word, Json>, names: Json)
    requires Shaped(names) && HasAll(members, names)
    ensures HasAll(members, Simplify(names))
  {
  }

  lemma KeptRanges(o: Oracle, f: map<Word, Json>, v: Json)
    requires Shaped(Obj(f)) && RangesOk(o, f, v)
    ensures RangesOk(o, Simplify(Obj(f)).fields, v)
  {
    match v
    case Num(_) => KeptMember(f, MultipleOf);
    case Str(_) =>
    case Arr(_) => KeptMember(f, UniqueItems);
    case Obj(members) => KeptObjectRules(f, members);
    case _ =>
  }

  lemma KeptObjectRules(f: map<Word, Json>, members: map<Word, Json>)
    requires Shaped(Obj(f)) && ObjectOk(f, members)
    ensures ObjectOk(Simplify(Obj(f)).fields, members)
  {
    KeptMember(f, MinProperties);
    KeptMember(f, MaxProperties);
    KeptMember(f, Required);
    if Required in f {
      KeptAll(members, f[Required]);
    }
    KeptDependentRequired(f, members);
  }

  lemma KeptDependentRequired(f: map<Word, Json>, members: map<Word, Json>)
    requires Shaped(Obj(f))
    requires forall n :: n in Members(f, DependentRequired) && n in members ==>
               HasAll(members, Members(f, DependentRequired)[n])
    ensures var after := Members(Simplify(Obj(f)).fields, DependentRequired);
            forall n :: n in after && n in members ==> HasAll(members, after[n])
  {
    KeptInner(f, DependentRequired);
    forall n | n in Members(f, DependentRequired) && n in members && n !in LOCAL_KEYWORDS + NAME_MAPS
      ensures HasAll(members, Simplify(Members(f, DependentRequired)[n]))
    {
      KeptAll(members, Members(f, DependentRequired)[n]);
    }
  }

  lemma KeptType(f: map<Word, Json>, v: Json)
    requires Shaped(Obj(f)) && TypeOk(f, v)
    ensures TypeOk(Simplify(Obj(f)).fields, v)
  {
    KeptMember(f, Type);
    if Type in f && f[Type].Arr? {
      var i :| 0 <= i < |f[Type].items| && HasType(v, f[Type].items[i]);
      assert HasType(v, Simplify(f[Type]).items[i]);
    }
  }

  lemma KeptValues(f: map<Word, Json>, v: Json)
    requires Shaped(Obj(f)) && Careful(f) && ValuesOk(f, v)
    ensures ValuesOk(Simplify(Obj(f)).fields, v)
  {
    KeptMember(f, Const);
    KeptMember(f, Enum);
    if Enum in f && f[Enum].Arr? {
      var i :| 0 <= i < |f[Enum].items| && f[Enum].items[i] == v;
      assert Simplify(f[Enum]).items[i] == v;
    }
  }

  /** Following a reference and simplifying commute. */
  lemma KeptTarget(root: Json, ref: Word)
    requires Shaped(root) && FragmentDocument(root)
    ensures var t := Target(root, ref); var u := Target(Simplify(root), ref);
            && (t.None? <==> u.None?)
            && (t.Some? ==> Shaped(t.value) && Fragment(t.value) && u.value == Simplify(t.value))
  {
    if root.Obj? {
      KeptNames(root.fields, Defs);
    }
  }

  // ---------------------------------------------------------------- simplification only weakens

  /** A closed schema accepts the same before and after, in either document. */
  lemma ClosedIsExact(o: Oracle, root: Json, schema: Json, v: Json, fuel: nat)
    requires Shaped(root) && Closed(schema)
    ensures Accepts(o, root, schema, v, fuel) == Accepts(o, Simplify(root), Simplify(schema), v, fuel)
  {
    RootIsIrrelevant(o, root, Simplify(root), schema, v, fuel);
  }

  lemma {:induction false} Weakens(o: Oracle, root: Json, schema: Json, v: Json, fuel: nat)
    requires Shaped(root) && FragmentDocument(root) && Shaped(schema) && Fragment(schema)
    ensures var before := Accepts(o, root, schema, v, fuel);
            var after := Accepts(o, Simplify(root), Simplify(schema), v, fuel);
            before ==> after
    decreases fuel, schema, 3
  {
    if schema.Obj? && Accepts(o, root, schema, v, fuel) {
      KeptType(schema.fields, v);
      KeptValues(schema.fields, v);
      KeptRanges(o, schema.fields, v);
      WeakensInPlace(o, root, schema, v, fuel);
      WeakensObjectChildren(o, root, schema, v, fuel);
      WeakensArrayChildren(o, root, schema, v, fuel);
    }
  }

  lemma {:induction false} WeakensInPlace(o: Oracle, root: Json, schema: Json, v: Json, fuel: nat)
    requires Shaped(root) && FragmentDocument(root) && Shaped(schema) && Fragment(schema) && schema.Obj?
    requires InPlaceOk(o, root, schema, v, fuel)
    ensures InPlaceOk(o, Simplify(root), Simplify(schema), v, fuel)
    decreases fuel, schema, 2
  {
    WeakensReference(o, root, schema, v, fuel);
    WeakensAllOf(o, root, schema, v, fuel);
    WeakensAnyOf(o, root, schema, v, fuel);
    WeakensOneOf(o, root, schema, v, fuel);
    WeakensNot(o, root, schema, v, fuel);
    WeakensConditional(o, root, schema, v, fuel);
    WeakensDependents(o, root, schema, v, fuel);
  }

  lemma {:induction false} WeakensObjectChildren(o: Oracle, root: Json, schema: Json, v: Json, fuel: nat)
    requires Shaped(root) && FragmentDocument(root) && Shaped(schema) && Fragment(schema) && schema.Obj?
    requires ObjectChildrenOk(o, root, schema, v, fuel)
    ensures ObjectChildrenOk(o, Simplify(root), Simplify(schema), v, fuel)
    decreases fuel, schema, 2
  {
    WeakensProperties(o, root, schema, v, fuel);
    WeakensPatterns(o, root, schema, v, fuel);
    WeakensAdditional(o, root, schema, v, fuel);
    WeakensNames(o, root, schema, v, fuel);
  }

  lemma {:induction false} WeakensArrayChildren(o: Oracle, root: Json, schema: Json, v: Json, fuel: nat)
    requires Shaped(root) && FragmentDocument(root) && Shaped(schema) && Fragment(schema) && schema.Obj?
    requires ArrayChildrenOk(o, root, schema, v, fuel)
    ensures ArrayChildrenOk(o, Simplify(root), Simplify(schema), v, fuel)
    decreases fuel, schema, 2
  {
    WeakensPrefix(o, root, schema, v, fuel);
    WeakensItems(o, root, schema, v, fuel);
    WeakensContains(o, root, schema, v, fuel);
  }

  lemma {:induction false} WeakensReference(o: Oracle, root: Json, schema: Json, v: Json, fuel: nat)
    requires Shaped(root) && FragmentDocument(root) && Shaped(schema) && Fragment(schema) && schema.Obj?
    requires ReferenceOk(o, root, schema, v, fuel)
    ensures ReferenceOk(o, Simplify(root), Simplify(schema), v, fuel)
    decreases fuel, schema, 1
  {
    KeptMember(schema.fields, Ref);
    if Ref in schema.fields && schema.fields[Ref].Str? {
      WeakensTarget(o, root, schema, schema.fields[Ref].s, v, fuel - 1);
    }
  }

  lemma {:induction false} WeakensTarget(o: Oracle, root: Json, schema: Json, ref: Word, v: Json, left: nat)
    requires Shaped(root) && FragmentDocument(root) && Shaped(schema) && Followed(o, root, schema, ref, v, left)
    ensures Followed(o, Simplify(root), Simplify(schema), ref, v, left)
    decreases left + 1, schema, 0
  {
    KeptTarget(root, ref);
    Weakens(o, root, Target(root, ref).value, v, left);
  }

  lemma {:induction false} WeakensAllOf(o: Oracle, root: Json, schema: Json, v: Json, fuel: nat)
    requires Shaped(root) && FragmentDocument(root) && Shaped(schema) && Fragment(schema) && schema.Obj?
    requires AllOfOk(o, root, schema, v, fuel)
    ensures AllOfOk(o, Simplify(root), Simplify(schema), v, fuel)
    decreases fuel, schema, 1
  {
    var branches := Listed(schema.fields, AllOf);
    KeptList(schema.fields, AllOf);
    forall i | 0 <= i < |branches| ensures Accepts(o, Simplify(root), Simplify(branches[i]), v, fuel) {
      Weakens(o, root, branches[i], v, fuel);
    }
  }

  lemma {:induction false} WeakensAnyOf(o: Oracle, root: Json, schema: Json, v: Json, fuel: nat)
    requires Shaped(root) && FragmentDocument(root) && Shaped(schema) && Fragment(schema) && schema.Obj?
    requires AnyOfOk(o, root, schema, v, fuel)
    ensures AnyOfOk(o, Simplify(root), Simplify(schema), v, fuel)
    decreases fuel, schema, 1
  {
    var f := schema.fields;
    KeptMember(f, AnyOf);
    KeptList(f, AnyOf);
    if AnyOf in f && f[AnyOf].Arr? {
      var i :| 0 <= i < |f[AnyOf].items| && Accepts(o, root, f[AnyOf].items[i], v, fuel);
      Weakens(o, root, f[AnyOf].items[i], v, fuel);
      assert Accepts(o, Simplify(root), Simplify(schema).fields[AnyOf].items[i], v, fuel);
    }
  }

  lemma {:induction false} WeakensOneOf(o: Oracle, root: Json, schema: Json, v: Json, fuel: nat)
    requires Shaped(root) && FragmentDocument(root) && Shaped(schema) && Fragment(schema) && schema.Obj?
    requires OneOfOk(o, root, schema, v, fuel)
    ensures OneOfOk(o, Simplify(root), Simplify(schema), v, fuel)
    decreases fuel, schema, 1
  {
    var f := schema.fields;
    KeptMember(f, OneOf);
    if OneOf in f && f[OneOf].Arr? {
      KeptVerbatim(f, OneOf);
      MatchingIgnoresRoot(o, root, Simplify(root), f[OneOf].items, v, fuel);
    }
  }

  lemma {:induction false} WeakensNot(o: Oracle, root: Json, schema: Json, v: Json, fuel: nat)
    requires Shaped(root) && FragmentDocument(root) && Shaped(schema) && Fragment(schema) && schema.Obj?
    requires NotOk(o, root, schema, v, fuel)
    ensures NotOk(o, Simplify(root), Simplify(schema), v, fuel)
    decreases fuel, schema, 1
  {
    KeptMember(schema.fields, Not);
    if Not in schema.fields {
      ClosedIsExact(o, root, schema.fields[Not], v, fuel);
    }
  }

  lemma {:induction false} WeakensConditional(o: Oracle, root: Json, schema: Json, v: Json, fuel: nat)
    requires Shaped(root) && FragmentDocument(root) && Shaped(schema) && Fragment(schema) && schema.Obj?
    requires ConditionalOk(o, root, schema, v, fuel)
    ensures ConditionalOk(o, Simplify(root), Simplify(schema), v, fuel)
    decreases fuel, schema, 1
  {
    KeptMember(schema.fields, If);
    if If in schema.fields {
      ClosedIsExact(o, root, schema.fields[If], v, fuel);
      if Accepts(o, root, schema.fields[If], v, fuel) {
        WeakensThen(o, root, schema, v, fuel);
      } else {
        WeakensElse(o, root, schema, v, fuel);
      }
    }
  }

  lemma {:induction false} WeakensThen(o: Oracle, root: Json, schema: Json, v: Json, fuel: nat)
    requires Shaped(root) && FragmentDocument(root) && Shaped(schema) && Fragment(schema) && schema.Obj?
    requires ThenOk(o, root, schema, v, fuel)
    ensures ThenOk(o, Simplify(root), Simplify(schema), v, fuel)
    decreases fuel, schema, 0
  {
    KeptMember(schema.fields, Then);
    if Then in schema.fields {
      Weakens(o, root, schema.fields[Then], v, fuel);
    }
  }

  lemma {:induction false} WeakensElse(o: Oracle, root: Json, schema: Json, v: Json, fuel: nat)
    requires Shaped(root) && FragmentDocument(root) && Shaped(schema) && Fragment(schema) && schema.Obj?
    requires ElseOk(o, root, schema, v, fuel)
    ensures ElseOk(o, Simplify(root), Simplify(schema), v, fuel)
    decreases fuel, schema, 0
  {
    KeptMember(schema.fields, Else);
    if Else in schema.fields {
      Weakens(o, root, schema.fields[Else], v, fuel);
    }
  }

  lemma {:induction false} WeakensDependents(o: Oracle, root: Json, schema: Json, v: Json, fuel: nat)
    requires Shaped(root) && FragmentDocument(root) && Shaped(schema) && Fragment(schema) && schema.Obj?
    requires DependentsOk(o, root, schema, v, fuel)
    ensures DependentsOk(o, Simplify(root), Simplify(schema), v, fuel)
    decreases fuel, schema, 1
  {
    var f := schema.fields;
    KeptInner(f, DependentSchemas);
    KeptMember(f, DependentSchemas);
    if v.Obj? && DependentSchemas in f && f[DependentSchemas].Obj? {
      var tests := Members(f, DependentSchemas);
      forall n | n in tests && n in v.fields && n !in LOCAL_KEYWORDS
        ensures Accepts(o, Simplify(root), Simplify(tests[n]), v, fuel)
      {
        Weakens(o, root, tests[n], v, fuel);
      }
    }
  }

  lemma {:induction false} WeakensProperties(o: Oracle, root: Json, schema: Json, v: Json, fuel: nat)
    requires Shaped(root) && FragmentDocument(root) && Shaped(schema) && Fragment(schema) && schema.Obj?
    requires PropertiesOk(o, root, schema, v, fuel)
    ensures PropertiesOk(o, Simplify(root), Simplify(schema), v, fuel)
    decreases fuel, schema, 1
  {
    var f := schema.fields;
    KeptNames(f, Properties);
    KeptMember(f, Properties);
    if v.Obj? && Properties in f {
      var names := Members(f, Properties);
      forall n | n in names && n in v.fields ensures Accepts(o, Simplify(root), Simplify(names[n]), v.fields[n], fuel) {
        Weakens(o, root, names[n], v.fields[n], fuel);
      }
    }
  }

  lemma {:induction false} WeakensPatterns(o: Oracle, root: Json, schema: Json, v: Json, fuel: nat)
    requires Shaped(root) && FragmentDocument(root) && Shaped(schema) && Fragment(schema) && schema.Obj?
    requires PatternsOk(o, root, schema, v, fuel)
    ensures PatternsOk(o, Simplify(root), Simplify(schema), v, fuel)
    decreases fuel, schema, 1
  {
    var f := schema.fields;
    KeptInner(f, PatternProperties);
    KeptMember(f, PatternProperties);
    if v.Obj? && PatternProperties in f && f[PatternProperties].Obj? {
      var patterns := Members(f, PatternProperties);
      forall p, n | p in patterns && n in v.fields && Fits(o, p, n)
        ensures Accepts(o, Simplify(root), Simplify(patterns[p]), v.fields[n], fuel)
      {
        Weakens(o, root, patterns[p], v.fields[n], fuel);
      }
    }
  }

  /** The names left to `additionalProperties` are the same. */
  lemma KeptEvaluated(o: Oracle, f: map<Word, Json>, n: Word)
    requires Shaped(Obj(f)) && Careful(f)
    ensures Evaluated(o, Simplify(Obj(f)).fields, n) == Evaluated(o, f, n)
  {
    KeptNames(f, Properties);
    KeptInner(f, PatternProperties);
  }

  lemma {:induction false} WeakensAdditional(o: Oracle, root: Json, schema: Json, v: Json, fuel: nat)
    requires Shaped(root) && FragmentDocument(root) && Shaped(schema) && Fragment(schema) && schema.Obj?
    requires AdditionalOk(o, root, schema, v, fuel)
    ensures AdditionalOk(o, Simplify(root), Simplify(schema), v, fuel)
    decreases fuel, schema, 1
  {
    var f := schema.fields;
    KeptMember(f, AdditionalProperties);
    if v.Obj? && AdditionalProperties in f {
      var rest := f[AdditionalProperties];
      assert forall n :: Evaluated(o, Simplify(schema).fields, n) == Evaluated(o, f, n) by {
        forall n ensures Evaluated(o, Simplify(schema).fields, n) == Evaluated(o, f, n) {
          KeptEvaluated(o, f, n);
        }
      }
      forall n | n in v.fields && !Evaluated(o, f, n)
        ensures Accepts(o, Simplify(root), Simplify(rest), v.fields[n], fuel)
      {
        Weakens(o, root, rest, v.fields[n], fuel);
      }
    }
  }

  lemma {:induction false} WeakensNames(o: Oracle, root: Json, schema: Json, v: Json, fuel: nat)
    requires Shaped(root) && FragmentDocument(root) && Shaped(schema) && Fragment(schema) && schema.Obj?
    requires NamesOk(o, root, schema, v, fuel)
    ensures NamesOk(o, Simplify(root), Simplify(schema), v, fuel)
    decreases fuel, schema, 1
  {
    var f := schema.fields;
    KeptMember(f, PropertyNames);
    if v.Obj? && PropertyNames in f {
      var rule := f[PropertyNames];
      forall n | n in v.fields ensures Accepts(o, Simplify(root), Simplify(rule), Str(n), fuel) {
        Weakens(o, root, rule, Str(n), fuel);
      }
    }
  }

  lemma {:induction false} WeakensPrefix(o: Oracle, root: Json, schema: Json, v: Json, fuel: nat)
    requires Shaped(root) && FragmentDocument(root) && Shaped(schema) && Fragment(schema) && schema.Obj?
    requires PrefixOk(o, root, schema, v, fuel)
    ensures PrefixOk(o, Simplify(root), Simplify(schema), v, fuel)
    decreases fuel, schema, 1
  {
    KeptList(schema.fields, PrefixItems);
    var leading := Listed(schema.fields, PrefixItems);
    if v.Arr? {
      forall i | 0 <= i < |leading| && i < |v.items|
        ensures Accepts(o, Simplify(root), Simplify(leading[i]), v.items[i], fuel)
      {
        Weakens(o, root, leading[i], v.items[i], fuel);
      }
    }
  }

  lemma {:induction false} WeakensEach(o: Oracle, root: Json, schema: Json, rule: Json, values: seq<Json>, fuel: nat)
    requires Shaped(root) && FragmentDocument(root) && Shaped(rule) && Fragment(rule) && rule < schema
    ensures forall i :: 0 <= i < |values| && Accepts(o, root, rule, values[i], fuel) ==>
              Accepts(o, Simplify(root), Simplify(rule), values[i], fuel)
    decreases fuel, schema, 0
  {
    forall i | 0 <= i < |values| && Accepts(o, root, rule, values[i], fuel)
      ensures Accepts(o, Simplify(root), Simplify(rule), values[i], fuel)
    {
      Weakens(o, root, rule, values[i], fuel);
    }
  }

  lemma {:induction false} WeakensItems(o: Oracle, root: Json, schema: Json, v: Json, fuel: nat)
    requires Shaped(root) && FragmentDocument(root) && Shaped(schema) && Fragment(schema) && schema.Obj?
    requires ItemsOk(o, root, schema, v, fuel)
    ensures ItemsOk(o, Simplify(root), Simplify(schema), v, fuel)
    decreases fuel, schema, 1
  {
    var f := schema.fields;
    KeptMember(f, Items);
    assert |Listed(Simplify(schema).fields, PrefixItems)| == |Listed(f, PrefixItems)| by { KeptList(f, PrefixItems); }
    if v.Arr? && Items in f {
      var rule, start := f[Items], |Listed(f, PrefixItems)|;
      WeakensEach(o, root, schema, rule, v.items, fuel);
      var before := forall i :: start <= i < |v.items| ==> Accepts(o, root, rule, v.items[i], fuel);
      assert before;
      var after := forall i :: start <= i < |v.items| ==> Accepts(o, Simplify(root), Simplify(rule), v.items[i], fuel);
      assert after;
    }
  }

  lemma {:induction false} HitsGrow(o: Oracle, root: Json, schema: Json, rule: Json, items: seq<Json>, fuel: nat)
    requires Shaped(root) && FragmentDocument(root) && Shaped(rule) && Fragment(rule) && rule < schema
    ensures |Hits(o, root, rule, items, fuel)| <= |Hits(o, Simplify(root), Simplify(rule), items, fuel)|
    decreases fuel, schema, 0
  {
    forall i | i in Hits(o, root, rule, items, fuel) ensures i in Hits(o, Simplify(root), Simplify(rule), items, fuel) {
      Weakens(o, root, rule, items[i], fuel);
    }
    SubsetSize(Hits(o, root, rule, items, fuel), Hits(o, Simplify(root), Simplify(rule), items, fuel));
  }

  lemma ClosedHitsStay(o: Oracle, root: Json, rule: Json, items: seq<Json>, fuel: nat)
    requires Shaped(root) && Closed(rule)
    ensures Hits(o, root, rule, items, fuel) == Hits(o, Simplify(root), Simplify(rule), items, fuel)
  {
    forall i | 0 <= i < |items|
      ensures Accepts(o, root, rule, items[i], fuel) == Accepts(o, Simplify(root), Simplify(rule), items[i], fuel)
    {
      ClosedIsExact(o, root, rule, items[i], fuel);
    }
  }

  lemma {:induction false} WeakensContains(o: Oracle, root: Json, schema: Json, v: Json, fuel: nat)
    requires Shaped(root) && FragmentDocument(root) && Shaped(schema) && Fragment(schema) && schema.Obj?
    requires ContainsOk(o, root, schema, v, fuel)
    ensures ContainsOk(o, Simplify(root), Simplify(schema), v, fuel)
    decreases fuel, schema, 1
  {
    var f := schema.fields;
    KeptMember(f, Contains);
    KeptMember(f, MinContains);
    KeptMember(f, MaxContains);
    if v.Arr? && Contains in f {
      var rule := f[Contains];
      HitsGrow(o, root, schema, rule, v.items, fuel);
      if MaxContains in f && f[MaxContains].Num? {
        ClosedHitsStay(o, root, rule, v.items, fuel);
      }
      assert ContainsRange(f, |Hits(o, root, rule, v.items, fuel)|);
      assert ContainsRange(Simplify(schema).fields, |Hits(o, Simplify(root), Simplify(rule), v.items, fuel)|);
    }
  }

  /** Every value the model's own schema accepts is accepted by the generation schema. */
  lemma GenerationOnlyWeakens(o: Oracle, schema: Json, v: Json, fuel: nat)
    requires Shaped(schema) && FragmentDocument(schema) && Accepts(o, schema, schema, v, fuel)
    ensures GenerationSchema(schema).Some?
    ensures Accepts(o, GenerationSchema(schema).value, GenerationSchema(schema).value, v, fuel)
  {
    Weakens(o, schema, schema, v, fuel);
  }

  // ---------------------------------------------------------------- simplifying again

  /** What simplification returns can be simplified again, and a second pass changes nothing. */
  lemma {:induction false} SimplifyIsIdempotent(value: Json)
    requires Shaped(value)
    ensures Shaped(Simplify(value)) && Simplify(Simplify(value)) == Simplify(value)
  {
    match value
    case Arr(items) =>
      forall i | 0 <= i < |items|
        ensures Shaped(Simplify(items[i])) && Simplify(Simplify(items[i])) == Simplify(items[i]) {
        SimplifyIsIdempotent(items[i]);
      }
    case Obj(f) =>
      var g := Simplify(value).fields;
      forall k | k in f && k !in LOCAL_KEYWORDS && k !in NAME_MAPS ensures Shaped(g[k]) && Simplify(g[k]) == g[k] {
        SimplifyIsIdempotent(f[k]);
      }
      forall k | k in f && k in NAME_MAPS
        ensures forall n :: n in g[k].fields ==> Shaped(g[k].fields[n]) && Simplify(g[k].fields[n]) == g[k].fields[n]
      {
        forall n | n in f[k].fields ensures Shaped(g[k].fields[n]) && Simplify(g[k].fields[n]) == g[k].fields[n] {
          SimplifyIsIdempotent(f[k].fields[n]);
        }
      }
      assert Shaped(Obj(g));
      var h := Simplify(Obj(g)).fields;
      assert h.Keys == g.Keys;
      forall k | k in g ensures h[k] == g[k] {
        if k in NAME_MAPS {
          assert h[k].fields == g[k].fields;
        }
      }
      assert h == g;
    case _ =>
  }

  // ---------------------------------------------------------------- nothing is left to remove

  /** No validation keyword occurs anywhere but as a property or definition name. */
  predicate Clean(value: Json) {
    match value
    case Arr(items) => forall i :: 0 <= i < |items| ==> Clean(items[i])
    case Obj(fields) =>
      && fields.Keys !! {Default, Title, Pattern, Format, MinLength, MaxLength, Minimum, Maximum, ExclusiveMinimum,
                         ExclusiveMaximum, MinItems, MaxItems}
      && forall k | k in fields ::
           if k == Properties || k == Defs then
             fields[k].Obj? && forall n | n in fields[k].fields :: Clean(fields[k].fields[n])
           else Clean(fields[k])
    case _ => true
  }

  /** The simplifier cleans every document it gets through, at every depth. */
  lemma {:induction false} SimplifiedIsClean(value: Json)
    requires Shaped(value)
    ensures Clean(Simplify(value))
  {
    match value
    case Arr(items) =>
      forall i | 0 <= i < |items| ensures Clean(Simplify(items[i])) {
        SimplifiedIsClean(items[i]);
      }
    case Obj(f) =>
      var g := Simplify(value).fields;
      forall k | k in g && k !in NAME_MAPS ensures Clean(g[k]) {
        SimplifiedIsClean(f[k]);
      }
      forall k, n | k in g && k in NAME_MAPS && n in g[k].fields ensures Clean(g[k].fields[n]) {
        SimplifiedIsClean(f[k].fields[n]);
      }
    case _ =>
  }

  /** It leaves alone exactly the clean ones. */
  lemma {:induction false} UntouchedIffClean(value: Json)
    ensures Untouched(value) <==> Clean(value)
  {
    if Untouched(value) {
      SimplifiedIsClean(value);
    }
    if Clean(value) {
      CleanIsUntouched(value);
    }
  }

  lemma {:induction false} CleanIsUntouched(value: Json)
    requires Clean(value)
    ensures Untouched(value)
  {
    match value
    case Arr(items) =>
      forall i | 0 <= i < |items| ensures Untouched(items[i]) {
        CleanIsUntouched(items[i]);
      }
    case Obj(f) =>
      forall k | k in f && k !in NAME_MAPS ensures Untouched(f[k]) {
        CleanIsUntouched(f[k]);
      }
      forall k, n | k in f && k in NAME_MAPS && n in f[k].fields ensures Untouched(f[k].fields[n]) {
        CleanIsUntouched(f[k].fields[n]);
      }
      UntouchedFromBelow(f);
    case _ =>
  }

  lemma UntouchedFromBelow(f: map<Word, Json>)
    requires f.Keys !! LOCAL_KEYWORDS
    requires forall k :: k in f && k !in NAME_MAPS ==> Untouched(f[k])
    requires forall k :: k in f && k in NAME_MAPS ==>
               f[k].Obj? && forall n :: n in f[k].fields ==> Untouched(f[k].fields[n])
    ensures Untouched(Obj(f))
  {
    var g := Simplify(Obj(f)).fields;
    forall k | k in f ensures k in g && g[k] == f[k] {
      if k in NAME_MAPS {
        assert g[k].fields == f[k].fields;
      }
    }
    assert g == f;
  }
}
