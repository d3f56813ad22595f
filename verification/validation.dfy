/** The two checks a constructed step offers the graph builder: selector
    validation during graph construction and binding validation during
    execution, with the error taxonomy they share. */
module Validation {
  import opened Wrappers
  import opened Values
  import opened Schema
  import opened Construction

  /** The errors the two checks raise. Each names the step and the field. */
  datatype StepError =
    | ExecutionGraphError(step: string, field: string)
    | InvalidStepInputDetected(step: string, field: string, source: InputKind)
    | VariableTypeError(step: string, field: string, value: Value)

  /** Whether field `f` of step `s` currently holds a selector. */
  predicate HoldsSelector(s: Step, f: Field) {
    f in s.values && s.values[f].Selector?
  }

  /** Checks that the selector held by field `fieldName` may point at `source`.
      A wiring error (the step declares no such field, the field does not take
      selectors, or it holds none) is an `ExecutionGraphError`; a selector whose
      source kind the field does not accept is an `InvalidStepInputDetected`. */
  function ValidateFieldSelector(t: SourceTable, s: Step, fieldName: string, source: InputNode)
    : (r: Outcome<StepError>)
    ensures r.Pass? <==>
              exists f :: FieldKey(f) == fieldName && HoldsSelector(s, f) && Accepts(t, f, source.kind)
    ensures (r.Fail? && r.error.InvalidStepInputDetected?) <==>
              exists f :: && FieldKey(f) == fieldName && HoldsSelector(s, f)
                          && Selectable(t, f) && !Accepts(t, f, source.kind)
    ensures (r.Fail? && r.error.ExecutionGraphError?) <==>
              forall f :: FieldKey(f) == fieldName ==> !HoldsSelector(s, f) || !Selectable(t, f)
    ensures r.Fail? ==> !r.error.VariableTypeError?
    ensures r.Fail? ==> r.error.step == s.name && r.error.field == fieldName
    ensures r.Fail? && r.error.InvalidStepInputDetected? ==> r.error.source == source.kind
  {
    match ParseField(fieldName)
    case None => Fail(ExecutionGraphError(s.name, fieldName))
    case Some(f) =>
      if !Selectable(t, f) || !HoldsSelector(s, f) then Fail(ExecutionGraphError(s.name, fieldName))
      else if !Accepts(t, f, source.kind) then Fail(InvalidStepInputDetected(s.name, fieldName, source.kind))
      else Pass
  }

  /** Checks a concrete value bound to field `fieldName` against the field's
      value domain. A value outside the domain is a `VariableTypeError`; a field
      the step does not declare is a wiring error. */
  function ValidateFieldBinding(s: Step, fieldName: string, value: Value): (r: Outcome<StepError>)
    ensures r.Pass? <==> exists f :: FieldKey(f) == fieldName && InDomain(f, value)
    ensures (r.Fail? && r.error.VariableTypeError?) <==>
              exists f :: FieldKey(f) == fieldName && !InDomain(f, value)
    ensures r.Fail? ==> !r.error.InvalidStepInputDetected?
    ensures r.Fail? ==> r.error.step == s.name && r.error.field == fieldName
    ensures r.Fail? && r.error.VariableTypeError? ==> r.error.value == value
  {
    match ParseField(fieldName)
    case None => Fail(ExecutionGraphError(s.name, fieldName))
    case Some(f) =>
      if InDomain(f, value) then Pass else Fail(VariableTypeError(s.name, fieldName, value))
  }

  /** On a constructed step a selector is only ever stored in a field that takes
      selectors, so a wiring error on a declared field means exactly that the
      field holds no selector (it was given a literal or left at its default). */
  lemma GraphErrorMeansNoSelector(t: SourceTable, s: Step, f: Field, source: InputNode)
    requires WellFormed(t, s)
    ensures ValidateFieldSelector(t, s, FieldKey(f), source).Fail? &&
            ValidateFieldSelector(t, s, FieldKey(f), source).error.ExecutionGraphError?
            <==> !HoldsSelector(s, f)
  {
    ParseFieldKey(f);
    if HoldsSelector(s, f) {
      assert Admissible(t, f, s.values[f]);
      assert !InDomain(f, s.values[f]);
    }
  }

  /** For a field holding a selector, the accepted-kinds table alone decides
      between success and a kind mismatch, whatever else the step holds. */
  lemma AcceptedKindsDecide(t: SourceTable, s: Step, f: Field, source: InputNode)
    requires HoldsSelector(s, f) && Selectable(t, f)
    ensures ValidateFieldSelector(t, s, FieldKey(f), source) ==
            if source.kind in t[f] then Pass
            else Fail(InvalidStepInputDetected(s.name, FieldKey(f), source.kind))
  {
    ParseFieldKey(f);
  }

  /** A value outside a declared field's domain is a type error on that field. */
  lemma BindingRejectsValue(s: Step, f: Field, v: Value)
    requires !InDomain(f, v)
    ensures ValidateFieldBinding(s, FieldKey(f), v) == Fail(VariableTypeError(s.name, FieldKey(f), v))
  {
    ParseFieldKey(f);
  }

  /** Binding validation sees only concrete values: a selector that was not
      resolved is rejected on every field. */
  lemma BindingRejectsSelectors(s: Step, f: Field, path: string)
    ensures ValidateFieldBinding(s, FieldKey(f), Selector(path))
            == Fail(VariableTypeError(s.name, FieldKey(f), Selector(path)))
  {
    ParseFieldKey(f);
  }

  /** No coercion: a string never satisfies the image, flag or threshold
      fields, and only the `model_id` field accepts a string at all. */
  lemma NoStringCoercion(s: Step, f: Field, text: string)
    ensures ValidateFieldBinding(s, FieldKey(f), Str(text)).Pass? <==> f == ModelId && |text| > 0
  {
    ParseFieldKey(f);
  }

  /** Every literal a constructed step stores passes binding validation for its
      own field: construction and binding use the same value domain. */
  lemma StoredLiteralsBind(t: SourceTable, s: Step, f: Field)
    requires WellFormed(t, s)
    requires f in s.values && !s.values[f].Selector?
    ensures ValidateFieldBinding(s, FieldKey(f), s.values[f]) == Pass
  {
    ParseFieldKey(f);
    assert Admissible(t, f, s.values[f]);
  }

  /** The two step kinds validate identically: selector and binding checks do
      not depend on the kind of the step. */
  lemma ValidationIgnoresKind(t: SourceTable, s: Step, k: StepKind, fieldName: string,
                              source: InputNode, value: Value)
    ensures ValidateFieldSelector(t, s.(kind := k), fieldName, source)
            == ValidateFieldSelector(t, s, fieldName, source)
    ensures ValidateFieldBinding(s.(kind := k), fieldName, value)
            == ValidateFieldBinding(s, fieldName, value)
  {
  }
}
