/** Construction of a step instance from a definition mapping: the structural
    validation that runs before any selector or binding check. */
module Construction {
  import opened Wrappers
  import opened Values
  import opened Schema

  /** A constructed step: its kind, its name and the input fields the
      definition gave. An optional field left at its default is absent from
      `values`; a default is never a selector. */
  datatype Step = Step(kind: StepKind, name: string, values: map<Field, Value>)

  /** Why a definition does not construct. */
  datatype ConstructionError =
    | MissingRequiredField(key: string)
    | UnrecognizedKind(tag: Value)
    | InvalidFieldValue(key: string, value: Value)

  /** The invariant every constructed step keeps: required fields present, every
      stored value admissible for its field. */
  predicate WellFormed(t: SourceTable, s: Step) {
    && (forall f :: IsRequired(f) ==> f in s.values)
    && (forall f :: f in s.values ==> Admissible(t, f, s.values[f]))
  }

  /** A step built directly from its four required entries, the way a caller
      instantiates a step kind without a definition mapping. */
  function Make(k: StepKind, name: string, image: Value, modelId: Value): (s: Step) {
    Step(k, name, map[Image := image, ModelId := modelId])
  }

  /** Reference statement of when a definition mapping is acceptable for kind `k`,
      written independently of the order in which construction checks it. */
  predicate Acceptable(k: StepKind, t: SourceTable, data: map<string, Value>) {
    && TypeKey in data && data[TypeKey] == Str(Tag(k))
    && NameKey in data && data[NameKey].Str?
    && (forall f :: IsRequired(f) ==> FieldKey(f) in data)
    && (forall f :: FieldKey(f) in data ==> Admissible(t, f, data[FieldKey(f)]))
  }

  /** The fields of `fs` that the definition gives, and nothing else. */
  function Given(data: map<string, Value>, fs: seq<Field>): (given: set<Field>) {
    set f | f in fs && FieldKey(f) in data
  }

  /** The input-field entries of a definition mapping, keyed by field. */
  function Entries(data: map<string, Value>): (entries: map<Field, Value>) {
    map f | FieldKey(f) in data :: data[FieldKey(f)]
  }

  /** Reads the input fields `fs` from the definition in order, stopping at the
      first required field that is missing or the first value that is not
      admissible. */
  function ReadFields(t: SourceTable, data: map<string, Value>, fs: seq<Field>)
    : (r: Result<map<Field, Value>, ConstructionError>)
    ensures r.Success? <==>
              && (forall f :: f in fs && IsRequired(f) ==> FieldKey(f) in data)
              && (forall f :: f in fs && FieldKey(f) in data ==> Admissible(t, f, data[FieldKey(f)]))
    ensures r.Success? ==> r.value.Keys == Given(data, fs)
    ensures r.Success? ==> forall f :: f in r.value ==> r.value[f] == data[FieldKey(f)]
    ensures r.Failure? ==> !r.error.UnrecognizedKind?
    ensures r.Failure? && r.error.MissingRequiredField? ==> r.error.key !in data
    ensures r.Failure? && r.error.MissingRequiredField? ==>
              exists f :: f in fs && IsRequired(f) && FieldKey(f) == r.error.key
    ensures r.Failure? && r.error.InvalidFieldValue? ==>
              r.error.key in data && data[r.error.key] == r.error.value
    decreases |fs|
  {
    if fs == [] then Success(map[])
    else
      var f := fs[0];
      var key := FieldKey(f);
      if key !in data then
        if IsRequired(f) then Failure(MissingRequiredField(key))
        else ReadFields(t, data, fs[1..])
      else if !Admissible(t, f, data[key]) then Failure(InvalidFieldValue(key, data[key]))
      else
        var rest :- ReadFields(t, data, fs[1..]);
        Success(rest[f := data[key]])
  }

  /** Reading every input field yields exactly the definition's input entries. */
  lemma ReadAllFields(t: SourceTable, data: map<string, Value>)
    ensures ReadFields(t, data, InputFields).Success? <==>
              && (forall f :: IsRequired(f) ==> FieldKey(f) in data)
              && (forall f :: FieldKey(f) in data ==> Admissible(t, f, data[FieldKey(f)]))
    ensures ReadFields(t, data, InputFields).Success? ==>
              ReadFields(t, data, InputFields).value == Entries(data)
  {
    forall f ensures f in InputFields { InputFieldsComplete(f); }
    var r := ReadFields(t, data, InputFields);
    if r.Success? {
      assert r.value.Keys == Entries(data).Keys;
    }
  }

  /** Builds a step of kind `k` from a definition mapping. Entries the kind does
      not declare are ignored. */
  function Construct(k: StepKind, t: SourceTable, data: map<string, Value>)
    : (r: Result<Step, ConstructionError>)
    ensures r.Success? <==> Acceptable(k, t, data)
    ensures r.Success? ==> r.value.kind == k && WellFormed(t, r.value)
    ensures r.Success? ==> r.value.name == data[NameKey].text && r.value.values == Entries(data)
    ensures r.Failure? && r.error.MissingRequiredField? ==> r.error.key !in data
    ensures r.Failure? && r.error.MissingRequiredField? ==>
              r.error.key in {TypeKey, NameKey, FieldKey(Image), FieldKey(ModelId)}
    ensures r.Failure? && r.error.UnrecognizedKind? ==>
              TypeKey in data && data[TypeKey] == r.error.tag && r.error.tag != Str(Tag(k))
    ensures r.Failure? && r.error.InvalidFieldValue? ==>
              r.error.key in data && data[r.error.key] == r.error.value
  {
    if TypeKey !in data then Failure(MissingRequiredField(TypeKey))
    else if data[TypeKey] != Str(Tag(k)) then Failure(UnrecognizedKind(data[TypeKey]))
    else if NameKey !in data then Failure(MissingRequiredField(NameKey))
    else if !data[NameKey].Str? then Failure(InvalidFieldValue(NameKey, data[NameKey]))
    else
      var values :- ReadFields(t, data, InputFields);
      ReadAllFields(t, data);
      Success(Step(k, data[NameKey].text, values))
  }

  /** The definition mapping a step re-serializes to. */
  function Serialize(s: Step): (data: map<string, Value>) {
    map[TypeKey := Str(Tag(s.kind)), NameKey := Str(s.name)]
      + (map f | f in s.values :: FieldKey(f) := s.values[f])
  }

  /** The part of a definition mapping that a step kind declares. */
  function Declared(data: map<string, Value>): (declared: map<string, Value>) {
    map key | key in data && DeclaredKey(key) :: data[key]
  }

  /** A serialized step holds an input field's entry exactly when the step does. */
  lemma SerializeAt(s: Step, f: Field)
    ensures FieldKey(f) in Serialize(s) <==> f in s.values
    ensures f in s.values ==> Serialize(s)[FieldKey(f)] == s.values[f]
  {
    HeaderKeysAreNotFields(f);
    var fields := map g | g in s.values :: FieldKey(g) := s.values[g];
    if f in s.values {
      assert FieldKey(f) in fields && fields[FieldKey(f)] == s.values[f];
    } else if FieldKey(f) in fields {
      var g :| g in s.values && FieldKey(g) == FieldKey(f);
      ParseFieldKey(f);
      ParseFieldKey(g);
    }
  }

  /** A serialized step carries its tag, its name and exactly its input entries. */
  lemma SerializeShape(s: Step)
    ensures TypeKey in Serialize(s) && Serialize(s)[TypeKey] == Str(Tag(s.kind))
    ensures NameKey in Serialize(s) && Serialize(s)[NameKey] == Str(s.name)
    ensures Entries(Serialize(s)) == s.values
  {
    var data := Serialize(s);
    forall f ensures f in Entries(data) <==> f in s.values {
      SerializeAt(s, f);
    }
    forall f | f in s.values ensures Entries(data)[f] == s.values[f] {
      SerializeAt(s, f);
    }
  }

  /** Round trip: constructing from a well-formed step's serialization gives the
      step back. */
  lemma ConstructSerialize(t: SourceTable, s: Step)
    requires WellFormed(t, s)
    ensures Construct(s.kind, t, Serialize(s)) == Success(s)
  {
    var data := Serialize(s);
    SerializeShape(s);
    forall f | FieldKey(f) in data ensures f in s.values && data[FieldKey(f)] == s.values[f] {
      assert f in Entries(data);
    }
    forall f | IsRequired(f) ensures FieldKey(f) in data {
      assert f in Entries(data);
    }
    assert Acceptable(s.kind, t, data);
  }

  /** Whether a definition key is one a step kind declares. */
  predicate DeclaredKey(key: string) {
    key == TypeKey || key == NameKey || ParseField(key).Some?
  }

  /** Key by key, a serialized step agrees with a definition that has its tag,
      name and input entries. */
  lemma SerializeMatchesAt(s: Step, data: map<string, Value>, key: string)
    requires TypeKey in data && data[TypeKey] == Str(Tag(s.kind))
    requires NameKey in data && data[NameKey] == Str(s.name)
    requires s.values == Entries(data)
    ensures key in Serialize(s) <==> key in data && DeclaredKey(key)
    ensures key in Serialize(s) ==> Serialize(s)[key] == data[key]
  {
    SerializeShape(s);
    if key != TypeKey && key != NameKey {
      match ParseField(key)
      case None =>
        assert key !in Serialize(s);
      case Some(f) =>
        assert f in Entries(Serialize(s)) <==> f in Entries(data);
    }
  }

  /** A step whose tag, name and input entries are those of a definition
      serializes to the declared part of that definition. */
  lemma SerializeMatches(s: Step, data: map<string, Value>)
    requires TypeKey in data && data[TypeKey] == Str(Tag(s.kind))
    requires NameKey in data && data[NameKey] == Str(s.name)
    requires s.values == Entries(data)
    ensures Serialize(s) == Declared(data)
  {
    forall key ensures key in Serialize(s) <==> key in Declared(data) {
      SerializeMatchesAt(s, data, key);
    }
    forall key | key in Serialize(s) ensures Serialize(s)[key] == Declared(data)[key] {
      SerializeMatchesAt(s, data, key);
    }
  }

  /** Round trip the other way: a constructed step re-serializes to exactly the
      declared part of the definition it came from. */
  lemma SerializeConstruct(k: StepKind, t: SourceTable, data: map<string, Value>)
    requires Construct(k, t, data).Success?
    ensures Serialize(Construct(k, t, data).value) == Declared(data)
  {
    SerializeMatches(Construct(k, t, data).value, data);
  }

  /** Omitting any required entry makes construction fail. */
  lemma MissingRequiredFails(k: StepKind, t: SourceTable, data: map<string, Value>, key: string)
    requires key == TypeKey || key == NameKey || key == FieldKey(Image) || key == FieldKey(ModelId)
    requires key !in data
    ensures Construct(k, t, data).Failure?
  {
  }

  /** The discriminator must equal the kind's registered tag exactly: any other
      spelling, including a change of case, fails. */
  lemma TagMustMatchExactly(k: StepKind, t: SourceTable, data: map<string, Value>)
    requires TypeKey in data && data[TypeKey] != Str(Tag(k))
    ensures Construct(k, t, data) == Failure(UnrecognizedKind(data[TypeKey]))
  {
  }

  /** Re-tagging a definition leaves its name and input entries untouched. */
  lemma RetagKeepsEntries(data: map<string, Value>, tag: Value)
    ensures Entries(data[TypeKey := tag]) == Entries(data)
  {
    var other := data[TypeKey := tag];
    forall f ensures FieldKey(f) in other <==> FieldKey(f) in data {
      HeaderKeysAreNotFields(f);
    }
    forall f | FieldKey(f) in data ensures other[FieldKey(f)] == data[FieldKey(f)] {
      HeaderKeysAreNotFields(f);
    }
    assert Entries(other).Keys == Entries(data).Keys;
  }

  /** A definition acceptable for one kind is acceptable for any kind once it
      carries that kind's tag. */
  lemma RetagAcceptable(k1: StepKind, k2: StepKind, t: SourceTable, data: map<string, Value>)
    requires Acceptable(k1, t, data)
    ensures Acceptable(k2, t, data[TypeKey := Str(Tag(k2))])
  {
    var other := data[TypeKey := Str(Tag(k2))];
    forall f ensures FieldKey(f) in other <==> FieldKey(f) in data {
      HeaderKeysAreNotFields(f);
    }
    forall f | FieldKey(f) in data ensures other[FieldKey(f)] == data[FieldKey(f)] {
      HeaderKeysAreNotFields(f);
    }
  }

  /** A definition that constructs as one kind constructs as any other once only
      its tag is changed, and the two steps differ only in their kind. */
  lemma KindsAgree(t: SourceTable, k1: StepKind, k2: StepKind, data: map<string, Value>)
    requires Construct(k1, t, data).Success?
    ensures var other := data[TypeKey := Str(Tag(k2))];
            && Construct(k2, t, other).Success?
            && Construct(k2, t, other).value == Construct(k1, t, data).value.(kind := k2)
  {
    var other := data[TypeKey := Str(Tag(k2))];
    RetagAcceptable(k1, k2, t, data);
    RetagKeepsEntries(data, Str(Tag(k2)));
    assert other[NameKey] == data[NameKey];
  }
}
