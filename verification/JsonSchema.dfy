/** JSON values, and what a JSON Schema of the 2020-12 drafts accepts. */
module JsonSchema {
  import opened Wrappers

  /**
   A piece of JSON text, used both for member names and for string values. The words the schema
   vocabulary reserves are told apart from all other text; `Spelling` gives the characters. Text
   that spells a reserved word stands for nothing.
   */
  datatype Word =
    | Default | Title | Pattern | Format | MinLength | MaxLength
    | Minimum | Maximum | ExclusiveMinimum | ExclusiveMaximum | MinItems | MaxItems
    | Properties | Defs | Ref | Items | PrefixItems | AdditionalProperties
    | Contains | AllOf | AnyOf | OneOf | Not | Type
    | Enum | Const | Required | MultipleOf | UniqueItems | MinProperties
    | MaxProperties | MinContains | MaxContains | DependentRequired | DependentSchemas | PropertyNames
    | PatternProperties | If | Then | Else | UnevaluatedItems | UnevaluatedProperties | DynamicRef
    | NullType | BooleanType | StringType | ArrayType | ObjectType | NumberType | IntegerType
    | Document
    | Definition(name: Word)
    | Text(s: string)

  function Spelling(w: Word): string {
    match w
    case Default => "default"
    case Title => "title"
    case Pattern => "pattern"
    case Format => "format"
    case MinLength => "minLength"
    case MaxLength => "maxLength"
    case Minimum => "minimum"
    case Maximum => "maximum"
    case ExclusiveMinimum => "exclusiveMinimum"
    case ExclusiveMaximum => "exclusiveMaximum"
    case MinItems => "minItems"
    case MaxItems => "maxItems"
    case Properties => "properties"
    case Defs => "$defs"
    case Ref => "$ref"
    case Items => "items"
    case PrefixItems => "prefixItems"
    case AdditionalProperties => "additionalProperties"
    case Contains => "contains"
    case AllOf => "allOf"
    case AnyOf => "anyOf"
    case OneOf => "oneOf"
    case Not => "not"
    case Type => "type"
    case Enum => "enum"
    case Const => "const"
    case Required => "required"
    case MultipleOf => "multipleOf"
    case UniqueItems => "uniqueItems"
    case MinProperties => "minProperties"
    case MaxProperties => "maxProperties"
    case MinContains => "minContains"
    case MaxContains => "maxContains"
    case DependentRequired => "dependentRequired"
    case DependentSchemas => "dependentSchemas"
    case PropertyNames => "propertyNames"
    case PatternProperties => "patternProperties"
    case If => "if"
    case Then => "then"
    case Else => "else"
    case UnevaluatedItems => "unevaluatedItems"
    case UnevaluatedProperties => "unevaluatedProperties"
    case DynamicRef => "$dynamicRef"
    case NullType => "null"
    case BooleanType => "boolean"
    case StringType => "string"
    case ArrayType => "array"
    case ObjectType => "object"
    case NumberType => "number"
    case IntegerType => "integer"
    case Document => "#"
    case Definition(name) => "#/$defs/" + Spelling(name)
    case Text(s) => s
  }

  /** A JSON value; object members have no order. */
  datatype Json =
    | Null
    | Bool(b: bool)
    | Num(n: real)
    | Str(s: Word)
    | Arr(items: seq<Json>)
    | Obj(fields: map<Word, Json>)

  // ---------------------------------------------------------------- assertions

  /** Regular expressions and formats are outside this model; any fixed meaning will do. */
  datatype Oracle = Oracle(matches: (string, string) -> bool, conforms: (string, string) -> bool)

  predicate HasType(v: Json, t: Json) {
    match t
    case Str(NullType) => v.Null?
    case Str(BooleanType) => v.Bool?
    case Str(StringType) => v.Str?
    case Str(ArrayType) => v.Arr?
    case Str(ObjectType) => v.Obj?
    case Str(NumberType) => v.Num?
    case Str(IntegerType) => v.Num? && v.n.Floor as real == v.n
    case _ => false
  }

  predicate TypeOk(f: map<Word, Json>, v: Json) {
    Type in f ==>
      if f[Type].Arr? then exists i :: 0 <= i < |f[Type].items| && HasType(v, f[Type].items[i])
      else HasType(v, f[Type])
  }

  /** Sections 6.1.2 and 6.1.3 of JSON Schema Validation 2020-12. */
  predicate ValuesOk(f: map<Word, Json>, v: Json) {
    && (Enum in f && f[Enum].Arr? ==> v in f[Enum].items)
    && (Const in f ==> v == f[Const])
  }

  /** Section 6.2. */
  predicate NumberOk(f: map<Word, Json>, n: real) {
    && (Minimum in f && f[Minimum].Num? ==> f[Minimum].n <= n)
    && (Maximum in f && f[Maximum].Num? ==> n <= f[Maximum].n)
    && (ExclusiveMinimum in f && f[ExclusiveMinimum].Num? ==> f[ExclusiveMinimum].n < n)
    && (ExclusiveMaximum in f && f[ExclusiveMaximum].Num? ==> n < f[ExclusiveMaximum].n)
    && (MultipleOf in f && f[MultipleOf].Num? && f[MultipleOf].n > 0.0 ==>
          (n / f[MultipleOf].n).Floor as real * f[MultipleOf].n == n)
  }

  /** Sections 6.3 and 7. */
  predicate StringOk(o: Oracle, f: map<Word, Json>, s: string) {
    && (MinLength in f && f[MinLength].Num? ==> f[MinLength].n <= |s| as real)
    && (MaxLength in f && f[MaxLength].Num? ==> |s| as real <= f[MaxLength].n)
    && (Pattern in f && f[Pattern].Str? ==> o.matches(Spelling(f[Pattern].s), s))
    && (Format in f && f[Format].Str? ==> o.conforms(Spelling(f[Format].s), s))
  }

  /** Sections 6.4.1 to 6.4.3. */
  predicate ArrayOk(f: map<Word, Json>, items: seq<Json>) {
    && (MinItems in f && f[MinItems].Num? ==> f[MinItems].n <= |items| as real)
    && (MaxItems in f && f[MaxItems].Num? ==> |items| as real <= f[MaxItems].n)
    && (UniqueItems in f && f[UniqueItems] == Bool(true) ==>
          forall i, j :: 0 <= i < j < |items| ==> items[i] != items[j])
  }

  /** Sections 6.4.4 and 6.4.5: how many items may match `contains`; at least one unless stated otherwise. */
  predicate ContainsRange(f: map<Word, Json>, hits: nat) {
    && (if MinContains in f && f[MinContains].Num? then f[MinContains].n else 1.0) <= hits as real
    && (MaxContains in f && f[MaxContains].Num? ==> hits as real <= f[MaxContains].n)
  }

  predicate HasAll(members: map<Word, Json>, names: Json) {
    names.Arr? ==> forall i :: 0 <= i < |names.items| && names.items[i].Str? ==> names.items[i].s in members
  }

  /** Sections 6.5.1 to 6.5.4. */
  predicate ObjectOk(f: map<Word, Json>, members: map<Word, Json>) {
    && (MinProperties in f && f[MinProperties].Num? ==> f[MinProperties].n <= |members| as real)
    && (MaxProperties in f && f[MaxProperties].Num? ==> |members| as real <= f[MaxProperties].n)
    && (Required in f ==> HasAll(members, f[Required]))
    && (DependentRequired in f && f[DependentRequired].Obj? ==>
          forall n :: n in f[DependentRequired].fields && n in members ==>
            HasAll(members, f[DependentRequired].fields[n]))
  }

  /** The rules for the value's own type. */
  predicate RangesOk(o: Oracle, f: map<Word, Json>, v: Json) {
    match v
    case Num(n) => NumberOk(f, n)
    case Str(s) => StringOk(o, f, Spelling(s))
    case Arr(items) => ArrayOk(f, items)
    case Obj(members) => ObjectOk(f, members)
    case _ => true
  }

  // ---------------------------------------------------------------- acceptance

  function Members(f: map<Word, Json>, key: Word): map<Word, Json> {
    if key in f && f[key].Obj? then f[key].fields else map[]
  }

  function Listed(f: map<Word, Json>, key: Word): seq<Json> {
    if key in f && f[key].Arr? then f[key].items else []
  }

  /** The schema a reference names: the document itself or one of its definitions. */
  function Target(root: Json, ref: Word): Option<Json> {
    match ref
    case Document => Some(root)
    case Definition(name) =>
      if root.Obj? && name in Members(root.fields, Defs) then Some(Members(root.fields, Defs)[name]) else None
    case _ => None
  }

  predicate Fits(o: Oracle, pattern: Word, name: Word) {
    o.matches(Spelling(pattern), Spelling(name))
  }

  /** Names that `properties` or `patternProperties` looks at; `additionalProperties` gets the others. */
  predicate Evaluated(o: Oracle, f: map<Word, Json>, n: Word) {
    n in Members(f, Properties) || exists p :: p in Members(f, PatternProperties) && Fits(o, p, n)
  }

  /** How many of the branches accept `v`. */
  function Matching(o: Oracle, root: Json, branches: seq<Json>, v: Json, fuel: nat): nat
    decreases fuel, branches, 0
  {
    if branches == [] then 0
    else (if Accepts(o, root, branches[0], v, fuel) then 1 else 0) + Matching(o, root, branches[1..], v, fuel)
  }

  /** Acceptance following at most `fuel` references in a row; a value is accepted when some `fuel` accepts it. */
  predicate Accepts(o: Oracle, root: Json, schema: Json, v: Json, fuel: nat)
    decreases fuel, schema, 3
  {
    match schema
    case Bool(b) => b
    case Obj(f) =>
      var asserted := TypeOk(f, v) && ValuesOk(f, v) && RangesOk(o, f, v);
      var applied :=
        && InPlaceOk(o, root, schema, v, fuel)
        && ObjectChildrenOk(o, root, schema, v, fuel)
        && ArrayChildrenOk(o, root, schema, v, fuel);
      asserted && applied
    case _ => false
  }

  /** Keywords that apply other schemas to the value itself. */
  predicate InPlaceOk(o: Oracle, root: Json, schema: Json, v: Json, fuel: nat)
    requires schema.Obj?
    decreases fuel, schema, 2
  {
    match schema
    case Obj(_) =>
      && ReferenceOk(o, root, schema, v, fuel)
      && AllOfOk(o, root, schema, v, fuel)
      && AnyOfOk(o, root, schema, v, fuel)
      && OneOfOk(o, root, schema, v, fuel)
      && NotOk(o, root, schema, v, fuel)
      && ConditionalOk(o, root, schema, v, fuel)
      && DependentsOk(o, root, schema, v, fuel)
  }

  /** Keywords that apply schemas to the members of an object. */
  predicate ObjectChildrenOk(o: Oracle, root: Json, schema: Json, v: Json, fuel: nat)
    requires schema.Obj?
    decreases fuel, schema, 2
  {
    match schema
    case Obj(_) =>
      && PropertiesOk(o, root, schema, v, fuel)
      && PatternsOk(o, root, schema, v, fuel)
      && AdditionalOk(o, root, schema, v, fuel)
      && NamesOk(o, root, schema, v, fuel)
  }

  /** Keywords that apply schemas to the items of an array. */
  predicate ArrayChildrenOk(o: Oracle, root: Json, schema: Json, v: Json, fuel: nat)
    requires schema.Obj?
    decreases fuel, schema, 2
  {
    match schema
    case Obj(_) =>
      && PrefixOk(o, root, schema, v, fuel)
      && ItemsOk(o, root, schema, v, fuel)
      && ContainsOk(o, root, schema, v, fuel)
  }

  predicate ReferenceOk(o: Oracle, root: Json, schema: Json, v: Json, fuel: nat)
    requires schema.Obj?
    decreases fuel, schema, 1
  {
    var f := schema.fields;
    Ref in f && f[Ref].Str? ==> fuel > 0 && Followed(o, root, schema, f[Ref].s, v, fuel - 1)
  }

  /** The target of a reference in `schema` accepts the value, following at most `left` more. */
  predicate Followed(o: Oracle, root: Json, schema: Json, ref: Word, v: Json, left: nat)
    decreases left + 1, schema, 0
  {
    var target := Target(root, ref);
    var followed := target.Some? && Accepts(o, root, target.value, v, left);
    followed
  }

  predicate AllOfOk(o: Oracle, root: Json, schema: Json, v: Json, fuel: nat)
    requires schema.Obj?
    decreases fuel, schema, 1
  {
    var f := schema.fields;
    AllOf in f && f[AllOf].Arr? ==> forall i :: 0 <= i < |f[AllOf].items| ==>
      Accepts(o, root, f[AllOf].items[i], v, fuel)
  }

  predicate AnyOfOk(o: Oracle, root: Json, schema: Json, v: Json, fuel: nat)
    requires schema.Obj?
    decreases fuel, schema, 1
  {
    var f := schema.fields;
    AnyOf in f && f[AnyOf].Arr? ==>
      exists i :: 0 <= i < |f[AnyOf].items| && Accepts(o, root, f[AnyOf].items[i], v, fuel)
  }

  predicate OneOfOk(o: Oracle, root: Json, schema: Json, v: Json, fuel: nat)
    requires schema.Obj?
    decreases fuel, schema, 1
  {
    var f := schema.fields;
    OneOf in f && f[OneOf].Arr? ==> Matching(o, root, f[OneOf].items, v, fuel) == 1
  }

  predicate NotOk(o: Oracle, root: Json, schema: Json, v: Json, fuel: nat)
    requires schema.Obj?
    decreases fuel, schema, 1
  {
    var f := schema.fields;
    Not in f ==> !Accepts(o, root, f[Not], v, fuel)
  }

  predicate ConditionalOk(o: Oracle, root: Json, schema: Json, v: Json, fuel: nat)
    requires schema.Obj?
    decreases fuel, schema, 1
  {
    var f := schema.fields;
    If in f ==>
      if Accepts(o, root, f[If], v, fuel) then ThenOk(o, root, schema, v, fuel) else ElseOk(o, root, schema, v, fuel)
  }

  predicate PropertiesOk(o: Oracle, root: Json, schema: Json, v: Json, fuel: nat)
    requires schema.Obj?
    decreases fuel, schema, 1
  {
    var f := schema.fields;
    v.Obj? && Properties in f && f[Properties].Obj? ==>
      forall n :: n in f[Properties].fields && n in v.fields ==>
        Accepts(o, root, f[Properties].fields[n], v.fields[n], fuel)
  }

  predicate PatternsOk(o: Oracle, root: Json, schema: Json, v: Json, fuel: nat)
    requires schema.Obj?
    decreases fuel, schema, 1
  {
    var f := schema.fields;
    v.Obj? && PatternProperties in f && f[PatternProperties].Obj? ==>
      forall p, n :: p in f[PatternProperties].fields && n in v.fields && Fits(o, p, n) ==>
        Accepts(o, root, f[PatternProperties].fields[p], v.fields[n], fuel)
  }

  predicate AdditionalOk(o: Oracle, root: Json, schema: Json, v: Json, fuel: nat)
    requires schema.Obj?
    decreases fuel, schema, 1
  {
    var f := schema.fields;
    v.Obj? && AdditionalProperties in f ==>
      forall n :: n in v.fields && !Evaluated(o, f, n) ==>
        Accepts(o, root, f[AdditionalProperties], v.fields[n], fuel)
  }

  predicate NamesOk(o: Oracle, root: Json, schema: Json, v: Json, fuel: nat)
    requires schema.Obj?
    decreases fuel, schema, 1
  {
    var f := schema.fields;
    v.Obj? && PropertyNames in f ==> forall n :: n in v.fields ==> Accepts(o, root, f[PropertyNames], Str(n), fuel)
  }

  predicate DependentsOk(o: Oracle, root: Json, schema: Json, v: Json, fuel: nat)
    requires schema.Obj?
    decreases fuel, schema, 1
  {
    var f := schema.fields;
    v.Obj? && DependentSchemas in f && f[DependentSchemas].Obj? ==>
      forall n :: n in f[DependentSchemas].fields && n in v.fields ==>
        Accepts(o, root, f[DependentSchemas].fields[n], v, fuel)
  }

  predicate PrefixOk(o: Oracle, root: Json, schema: Json, v: Json, fuel: nat)
    requires schema.Obj?
    decreases fuel, schema, 1
  {
    var f := schema.fields;
    v.Arr? && PrefixItems in f && f[PrefixItems].Arr? ==>
      forall i :: 0 <= i < |f[PrefixItems].items| && i < |v.items| ==>
        Accepts(o, root, f[PrefixItems].items[i], v.items[i], fuel)
  }

  predicate ItemsOk(o: Oracle, root: Json, schema: Json, v: Json, fuel: nat)
    requires schema.Obj?
    decreases fuel, schema, 1
  {
    var f := schema.fields;
    v.Arr? && Items in f ==>
      forall i :: |Listed(f, PrefixItems)| <= i < |v.items| ==> Accepts(o, root, f[Items], v.items[i], fuel)
  }

  predicate ContainsOk(o: Oracle, root: Json, schema: Json, v: Json, fuel: nat)
    requires schema.Obj?
    decreases fuel, schema, 1
  {
    var f := schema.fields;
    v.Arr? && Contains in f ==>
      ContainsRange(f, |Hits(o, root, f[Contains], v.items, fuel)|)
  }

  predicate ThenOk(o: Oracle, root: Json, schema: Json, v: Json, fuel: nat)
    requires schema.Obj?
    decreases fuel, schema, 0
  {
    Then in schema.fields ==> Accepts(o, root, schema.fields[Then], v, fuel)
  }

  predicate ElseOk(o: Oracle, root: Json, schema: Json, v: Json, fuel: nat)
    requires schema.Obj?
    decreases fuel, schema, 0
  {
    Else in schema.fields ==> Accepts(o, root, schema.fields[Else], v, fuel)
  }

  /** Which items match a rule. */
  function Hits(o: Oracle, root: Json, rule: Json, items: seq<Json>, fuel: nat): set<int>
    decreases fuel, rule, 4
  {
    set i | 0 <= i < |items| && Accepts(o, root, rule, items[i], fuel)
  }

  // ---------------------------------------------------------------- reference-free schemas

  /** No reference anywhere inside. */
  predicate RefFree(value: Json) {
    match value
    case Arr(items) => forall i :: 0 <= i < |items| ==> RefFree(items[i])
    case Obj(f) => Ref !in f && DynamicRef !in f && forall k :: k in f ==> RefFree(f[k])
    case _ => true
  }

  /** A schema without references accepts the same values in every document. */
  lemma {:induction false} RootIsIrrelevant(o: Oracle, root: Json, other: Json, schema: Json, v: Json, fuel: nat)
    requires RefFree(schema)
    ensures Accepts(o, root, schema, v, fuel) == Accepts(o, other, schema, v, fuel)
    decreases schema, 3
  {
    if schema.Obj? {
      InPlaceIgnoresRoot(o, root, other, schema, v, fuel);
      ObjectChildrenIgnoreRoot(o, root, other, schema, v, fuel);
      ArrayChildrenIgnoreRoot(o, root, other, schema, v, fuel);
    }
  }

  lemma {:induction false} InPlaceIgnoresRoot(o: Oracle, root: Json, other: Json, schema: Json, v: Json, fuel: nat)
    requires schema.Obj? && RefFree(schema)
    ensures InPlaceOk(o, root, schema, v, fuel) == InPlaceOk(o, other, schema, v, fuel)
    decreases schema, 2
  {
    AllOfIgnoreRoot(o, root, other, schema, v, fuel);
    AnyOfIgnoreRoot(o, root, other, schema, v, fuel);
    OneOfIgnoreRoot(o, root, other, schema, v, fuel);
    NotIgnoreRoot(o, root, other, schema, v, fuel);
    ConditionalIgnoreRoot(o, root, other, schema, v, fuel);
    DependentsIgnoreRoot(o, root, other, schema, v, fuel);
  }

  lemma {:induction false} ObjectChildrenIgnoreRoot(o: Oracle, root: Json, other: Json, schema: Json, v: Json,
                                                    fuel: nat)
    requires schema.Obj? && RefFree(schema)
    ensures ObjectChildrenOk(o, root, schema, v, fuel) == ObjectChildrenOk(o, other, schema, v, fuel)
    decreases schema, 2
  {
    PropertiesIgnoreRoot(o, root, other, schema, v, fuel);
    PatternsIgnoreRoot(o, root, other, schema, v, fuel);
    AdditionalIgnoreRoot(o, root, other, schema, v, fuel);
    NamesIgnoreRoot(o, root, other, schema, v, fuel);
  }

  lemma {:induction false} ArrayChildrenIgnoreRoot(o: Oracle, root: Json, other: Json, schema: Json, v: Json, fuel: nat)
    requires schema.Obj? && RefFree(schema)
    ensures ArrayChildrenOk(o, root, schema, v, fuel) == ArrayChildrenOk(o, other, schema, v, fuel)
    decreases schema, 2
  {
    PrefixIgnoreRoot(o, root, other, schema, v, fuel);
    ItemsIgnoreRoot(o, root, other, schema, v, fuel);
    ContainsIgnoreRoot(o, root, other, schema, v, fuel);
  }

  lemma {:induction false} AllOfIgnoreRoot(o: Oracle, root: Json, other: Json, schema: Json, v: Json, fuel: nat)
    requires schema.Obj? && RefFree(schema)
    ensures AllOfOk(o, root, schema, v, fuel) == AllOfOk(o, other, schema, v, fuel)
    decreases schema, 1
  {
    var f := schema.fields;
    if AllOf in f && f[AllOf].Arr? {
      BranchesIgnoreRoot(o, root, other, f[AllOf].items, v, fuel);
    }
  }

  lemma {:induction false} AnyOfIgnoreRoot(o: Oracle, root: Json, other: Json, schema: Json, v: Json, fuel: nat)
    requires schema.Obj? && RefFree(schema)
    ensures AnyOfOk(o, root, schema, v, fuel) == AnyOfOk(o, other, schema, v, fuel)
    decreases schema, 1
  {
    var f := schema.fields;
    if AnyOf in f && f[AnyOf].Arr? {
      BranchesIgnoreRoot(o, root, other, f[AnyOf].items, v, fuel);
    }
  }

  lemma {:induction false} OneOfIgnoreRoot(o: Oracle, root: Json, other: Json, schema: Json, v: Json, fuel: nat)
    requires schema.Obj? && RefFree(schema)
    ensures OneOfOk(o, root, schema, v, fuel) == OneOfOk(o, other, schema, v, fuel)
    decreases schema, 1
  {
    var f := schema.fields;
    if OneOf in f && f[OneOf].Arr? {
      MatchingIgnoresRoot(o, root, other, f[OneOf].items, v, fuel);
    }
  }

  lemma {:induction false} NotIgnoreRoot(o: Oracle, root: Json, other: Json, schema: Json, v: Json, fuel: nat)
    requires schema.Obj? && RefFree(schema)
    ensures NotOk(o, root, schema, v, fuel) == NotOk(o, other, schema, v, fuel)
    decreases schema, 1
  {
    var f := schema.fields;
    if Not in f {
      RootIsIrrelevant(o, root, other, f[Not], v, fuel);
    }
  }

  lemma {:induction false} ConditionalIgnoreRoot(o: Oracle, root: Json, other: Json, schema: Json, v: Json, fuel: nat)
    requires schema.Obj? && RefFree(schema)
    ensures ConditionalOk(o, root, schema, v, fuel) == ConditionalOk(o, other, schema, v, fuel)
    decreases schema, 1
  {
    var f := schema.fields;
    if If in f {
      RootIsIrrelevant(o, root, other, f[If], v, fuel);
      ThenIgnoresRoot(o, root, other, schema, v, fuel);
      ElseIgnoresRoot(o, root, other, schema, v, fuel);
    }
  }

  lemma {:induction false} PropertiesIgnoreRoot(o: Oracle, root: Json, other: Json, schema: Json, v: Json, fuel: nat)
    requires schema.Obj? && RefFree(schema)
    ensures PropertiesOk(o, root, schema, v, fuel) == PropertiesOk(o, other, schema, v, fuel)
    decreases schema, 1
  {
    var f := schema.fields;
    if v.Obj? && Properties in f && f[Properties].Obj? {
      forall n | n in f[Properties].fields && n in v.fields
        ensures Accepts(o, root, f[Properties].fields[n], v.fields[n], fuel)
                == Accepts(o, other, f[Properties].fields[n], v.fields[n], fuel)
      {
        RootIsIrrelevant(o, root, other, f[Properties].fields[n], v.fields[n], fuel);
      }
    }
  }

  lemma {:induction false} PatternsIgnoreRoot(o: Oracle, root: Json, other: Json, schema: Json, v: Json, fuel: nat)
    requires schema.Obj? && RefFree(schema)
    ensures PatternsOk(o, root, schema, v, fuel) == PatternsOk(o, other, schema, v, fuel)
    decreases schema, 1
  {
    var f := schema.fields;
    if v.Obj? && PatternProperties in f && f[PatternProperties].Obj? {
      forall p, n | p in f[PatternProperties].fields && n in v.fields
        ensures Accepts(o, root, f[PatternProperties].fields[p], v.fields[n], fuel)
                == Accepts(o, other, f[PatternProperties].fields[p], v.fields[n], fuel)
      {
        RootIsIrrelevant(o, root, other, f[PatternProperties].fields[p], v.fields[n], fuel);
      }
    }
  }

  lemma {:induction false} AdditionalIgnoreRoot(o: Oracle, root: Json, other: Json, schema: Json, v: Json, fuel: nat)
    requires schema.Obj? && RefFree(schema)
    ensures AdditionalOk(o, root, schema, v, fuel) == AdditionalOk(o, other, schema, v, fuel)
    decreases schema, 1
  {
    var f := schema.fields;
    if v.Obj? && AdditionalProperties in f {
      forall n | n in v.fields
        ensures Accepts(o, root, f[AdditionalProperties], v.fields[n], fuel)
                == Accepts(o, other, f[AdditionalProperties], v.fields[n], fuel)
      {
        RootIsIrrelevant(o, root, other, f[AdditionalProperties], v.fields[n], fuel);
      }
    }
  }

  lemma {:induction false} NamesIgnoreRoot(o: Oracle, root: Json, other: Json, schema: Json, v: Json, fuel: nat)
    requires schema.Obj? && RefFree(schema)
    ensures NamesOk(o, root, schema, v, fuel) == NamesOk(o, other, schema, v, fuel)
    decreases schema, 1
  {
    var f := schema.fields;
    if v.Obj? && PropertyNames in f {
      forall n | n in v.fields
        ensures Accepts(o, root, f[PropertyNames], Str(n), fuel) == Accepts(o, other, f[PropertyNames], Str(n), fuel)
      {
        RootIsIrrelevant(o, root, other, f[PropertyNames], Str(n), fuel);
      }
    }
  }

  lemma {:induction false} DependentsIgnoreRoot(o: Oracle, root: Json, other: Json, schema: Json, v: Json, fuel: nat)
    requires schema.Obj? && RefFree(schema)
    ensures DependentsOk(o, root, schema, v, fuel) == DependentsOk(o, other, schema, v, fuel)
    decreases schema, 1
  {
    var f := schema.fields;
    if DependentSchemas in f && f[DependentSchemas].Obj? {
      forall n | n in f[DependentSchemas].fields
        ensures Accepts(o, root, f[DependentSchemas].fields[n], v, fuel)
                == Accepts(o, other, f[DependentSchemas].fields[n], v, fuel)
      {
        RootIsIrrelevant(o, root, other, f[DependentSchemas].fields[n], v, fuel);
      }
    }
  }

  lemma {:induction false} PrefixIgnoreRoot(o: Oracle, root: Json, other: Json, schema: Json, v: Json, fuel: nat)
    requires schema.Obj? && RefFree(schema)
    ensures PrefixOk(o, root, schema, v, fuel) == PrefixOk(o, other, schema, v, fuel)
    decreases schema, 1
  {
    var f := schema.fields;
    if v.Arr? && PrefixItems in f && f[PrefixItems].Arr? {
      forall i | 0 <= i < |f[PrefixItems].items| && i < |v.items|
        ensures Accepts(o, root, f[PrefixItems].items[i], v.items[i], fuel)
                == Accepts(o, other, f[PrefixItems].items[i], v.items[i], fuel)
      {
        RootIsIrrelevant(o, root, other, f[PrefixItems].items[i], v.items[i], fuel);
      }
    }
  }

  lemma {:induction false} ItemsIgnoreRoot(o: Oracle, root: Json, other: Json, schema: Json, v: Json, fuel: nat)
    requires schema.Obj? && RefFree(schema)
    ensures ItemsOk(o, root, schema, v, fuel) == ItemsOk(o, other, schema, v, fuel)
    decreases schema, 1
  {
    var f := schema.fields;
    if v.Arr? && Items in f {
      forall i | 0 <= i < |v.items|
        ensures Accepts(o, root, f[Items], v.items[i], fuel) == Accepts(o, other, f[Items], v.items[i], fuel)
      {
        RootIsIrrelevant(o, root, other, f[Items], v.items[i], fuel);
      }
    }
  }

  lemma {:induction false} ContainsIgnoreRoot(o: Oracle, root: Json, other: Json, schema: Json, v: Json, fuel: nat)
    requires schema.Obj? && RefFree(schema)
    ensures ContainsOk(o, root, schema, v, fuel) == ContainsOk(o, other, schema, v, fuel)
    decreases schema, 1
  {
    var f := schema.fields;
    if v.Arr? && Contains in f {
      forall i | 0 <= i < |v.items|
        ensures Accepts(o, root, f[Contains], v.items[i], fuel) == Accepts(o, other, f[Contains], v.items[i], fuel)
      {
        RootIsIrrelevant(o, root, other, f[Contains], v.items[i], fuel);
      }
      assert Hits(o, root, f[Contains], v.items, fuel) == Hits(o, other, f[Contains], v.items, fuel);
    }
  }

  lemma {:induction false} ThenIgnoresRoot(o: Oracle, root: Json, other: Json, schema: Json, v: Json, fuel: nat)
    requires schema.Obj? && RefFree(schema)
    ensures ThenOk(o, root, schema, v, fuel) == ThenOk(o, other, schema, v, fuel)
    decreases schema, 0
  {
    if Then in schema.fields {
      RootIsIrrelevant(o, root, other, schema.fields[Then], v, fuel);
    }
  }

  lemma {:induction false} ElseIgnoresRoot(o: Oracle, root: Json, other: Json, schema: Json, v: Json, fuel: nat)
    requires schema.Obj? && RefFree(schema)
    ensures ElseOk(o, root, schema, v, fuel) == ElseOk(o, other, schema, v, fuel)
    decreases schema, 0
  {
    if Else in schema.fields {
      RootIsIrrelevant(o, root, other, schema.fields[Else], v, fuel);
    }
  }

  lemma {:induction false} BranchesIgnoreRoot(o: Oracle, root: Json, other: Json, branches: seq<Json>, v: Json,
                                              fuel: nat)
    requires forall i :: 0 <= i < |branches| ==> RefFree(branches[i])
    ensures forall i :: 0 <= i < |branches| ==>
              Accepts(o, root, branches[i], v, fuel) == Accepts(o, other, branches[i], v, fuel)
    decreases branches, 0
  {
    forall i | 0 <= i < |branches|
      ensures Accepts(o, root, branches[i], v, fuel) == Accepts(o, other, branches[i], v, fuel) {
      RootIsIrrelevant(o, root, other, branches[i], v, fuel);
    }
  }

  lemma {:induction false} MatchingIgnoresRoot(o: Oracle, root: Json, other: Json, branches: seq<Json>, v: Json,
                                               fuel: nat)
    requires forall i :: 0 <= i < |branches| ==> RefFree(branches[i])
    ensures Matching(o, root, branches, v, fuel) == Matching(o, other, branches, v, fuel)
    decreases branches, 0
  {
    if branches != [] {
      RootIsIrrelevant(o, root, other, branches[0], v, fuel);
      MatchingIgnoresRoot(o, root, other, branches[1..], v, fuel);
    }
  }
}
