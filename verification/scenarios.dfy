/** The behaviour the step test-suite fixes, stated for both step kinds and for
    every accepted-kinds table that satisfies the known facts. */
module Scenarios {
  import opened Wrappers
  import opened Values
  import opened Schema
  import opened Construction
  import opened Validation

  /** The smallest definition of kind `k`: tag, name, image selector, model id. */
  function MinimalConfig(k: StepKind): map<string, Value> {
    map[TypeKey := Str(Tag(k)), NameKey := Str("some"),
        FieldKey(Image) := Selector("$inputs.image"), FieldKey(ModelId) := Str("some/1")]
  }

  /** The minimal definition with `model_id` wired to an input as well. */
  function WiredConfig(k: StepKind): map<string, Value> {
    MinimalConfig(k)[FieldKey(ModelId) := Selector("$inputs.model")]
  }

  /** A definition giving only `image` and `model_id` among the input fields
      has exactly those two entries. */
  lemma EntriesOfTwo(data: map<string, Value>)
    requires FieldKey(Image) in data && FieldKey(ModelId) in data
    requires FieldKey(DisableActiveLearning) !in data && FieldKey(Confidence) !in data
    ensures Entries(data) == map[Image := data[FieldKey(Image)], ModelId := data[FieldKey(ModelId)]]
  {
    assert Entries(data).Keys == {Image, ModelId} by {
      forall f ensures f in Entries(data) <==> f == Image || f == ModelId {
      }
    }
  }

  /** The minimal definition parses, to the step built directly from the same
      four entries. */
  lemma MinimalConfigParses(k: StepKind, t: SourceTable)
    requires Consistent(t)
    ensures Construct(k, t, MinimalConfig(k))
            == Success(Make(k, "some", Selector("$inputs.image"), Str("some/1")))
  {
    var data := MinimalConfig(k);
    assert Acceptable(k, t, data);
    EntriesOfTwo(data);
  }

  /** Dropping any one of `type`, `name`, `image`, `model_id` from the minimal
      definition makes it fail to parse. */
  lemma MissingRequiredEntryFails(k: StepKind, t: SourceTable, key: string)
    requires key in {TypeKey, NameKey, FieldKey(Image), FieldKey(ModelId)}
    ensures Construct(k, t, MinimalConfig(k) - {key}).Failure?
  {
    MissingRequiredFails(k, t, MinimalConfig(k) - {key}, key);
  }

  /** The discriminator `"invalid"` is not the tag of either kind. */
  lemma InvalidTagFails(k: StepKind, t: SourceTable)
    ensures Construct(k, t, MinimalConfig(k)[TypeKey := Str("invalid")])
            == Failure(UnrecognizedKind(Str("invalid")))
  {
    TagMustMatchExactly(k, t, MinimalConfig(k)[TypeKey := Str("invalid")]);
  }

  /** A `None` model id does not parse. */
  lemma NullModelIdFails(k: StepKind, t: SourceTable)
    requires Consistent(t)
    ensures Construct(k, t, MinimalConfig(k)[FieldKey(ModelId) := Null]).Failure?
  {
    var data := MinimalConfig(k)[FieldKey(ModelId) := Null];
    assert !Admissible(t, ModelId, data[FieldKey(ModelId)]);
  }

  /** A string active-learning flag does not parse. */
  lemma StringActiveLearningFlagFails(k: StepKind, t: SourceTable)
    requires Consistent(t)
    ensures Construct(k, t, MinimalConfig(k)[FieldKey(DisableActiveLearning) := Str("some")]).Failure?
  {
    var data := MinimalConfig(k)[FieldKey(DisableActiveLearning) := Str("some")];
    assert !Admissible(t, DisableActiveLearning, data[FieldKey(DisableActiveLearning)]);
  }

  /** The image selector of the minimal definition may point at an image input. */
  lemma ImageSelectorAcceptsImageInput(k: StepKind, t: SourceTable)
    requires Consistent(t)
    ensures Construct(k, t, MinimalConfig(k)).Success?
    ensures ValidateFieldSelector(t, Construct(k, t, MinimalConfig(k)).value, "image",
                                  InputNode(InferenceImage, "image")) == Pass
  {
    MinimalConfigParses(k, t);
    ImageAcceptsOnlyImages(t);
    AcceptedKindsDecide(t, Make(k, "some", Selector("$inputs.image"), Str("some/1")), Image,
                        InputNode(InferenceImage, "image"));
  }

  /** The image selector may not point at a parameter input. */
  lemma ImageSelectorRejectsParameterInput(k: StepKind, t: SourceTable)
    requires Consistent(t)
    ensures Construct(k, t, MinimalConfig(k)).Success?
    ensures ValidateFieldSelector(t, Construct(k, t, MinimalConfig(k)).value, "image",
                                  InputNode(InferenceParameter, "some"))
            == Fail(InvalidStepInputDetected("some", "image", InferenceParameter))
  {
    MinimalConfigParses(k, t);
    ImageAcceptsOnlyImages(t);
    AcceptedKindsDecide(t, Make(k, "some", Selector("$inputs.image"), Str("some/1")), Image,
                        InputNode(InferenceParameter, "some"));
  }

  /** The wired definition parses, and its `model_id` holds a selector. */
  lemma WiredConfigParses(k: StepKind, t: SourceTable)
    requires Consistent(t)
    ensures Construct(k, t, WiredConfig(k))
            == Success(Make(k, "some", Selector("$inputs.image"), Selector("$inputs.model")))
  {
    var data := WiredConfig(k);
    assert Acceptable(k, t, data);
    EntriesOfTwo(data);
  }

  /** A `model_id` selector may not point at an image input. */
  lemma ModelIdSelectorRejectsImageInput(k: StepKind, t: SourceTable)
    requires Consistent(t)
    ensures Construct(k, t, WiredConfig(k)).Success?
    ensures ValidateFieldSelector(t, Construct(k, t, WiredConfig(k)).value, "model_id",
                                  InputNode(InferenceImage, "image"))
            == Fail(InvalidStepInputDetected("some", "model_id", InferenceImage))
  {
    WiredConfigParses(k, t);
    AcceptedKindsDecide(t, Make(k, "some", Selector("$inputs.image"), Selector("$inputs.model")),
                        ModelId, InputNode(InferenceImage, "image"));
  }

  /** With the active-learning flag wired too, its selector may not point at an
      image input. */
  lemma ActiveLearningSelectorRejectsImageInput(k: StepKind, t: SourceTable)
    requires Consistent(t)
    ensures var data := WiredConfig(k)[FieldKey(DisableActiveLearning) := Selector("$inputs.disable_active_learning")];
            && Construct(k, t, data).Success?
            && ValidateFieldSelector(t, Construct(k, t, data).value, "disable_active_learning",
                                     InputNode(InferenceImage, "image"))
               == Fail(InvalidStepInputDetected("some", "disable_active_learning", InferenceImage))
  {
    var data := WiredConfig(k)[FieldKey(DisableActiveLearning) := Selector("$inputs.disable_active_learning")];
    assert Acceptable(k, t, data);
    var s := Construct(k, t, data).value;
    assert DisableActiveLearning in Entries(data);
    AcceptedKindsDecide(t, s, DisableActiveLearning, InputNode(InferenceImage, "image"));
  }

  /** Asking to validate the selector of the active-learning flag when the flag
      was left at its default is a wiring error, whatever the source. */
  lemma DefaultFieldHoldsNoSelector(k: StepKind, t: SourceTable)
    requires Consistent(t)
    ensures Construct(k, t, WiredConfig(k)).Success?
    ensures ValidateFieldSelector(t, Construct(k, t, WiredConfig(k)).value, "disable_active_learning",
                                  InputNode(InferenceParameter, "image"))
            == Fail(ExecutionGraphError("some", "disable_active_learning"))
  {
    WiredConfigParses(k, t);
  }

  /** The step the wired definition constructs to. */
  function WiredStep(k: StepKind): (s: Step) {
    Make(k, "some", Selector("$inputs.image"), Selector("$inputs.model"))
  }

  /** Binding validation of the wired step rejects a confidence of 1.1. */
  lemma ConfidenceOutOfRangeRejected(k: StepKind, t: SourceTable)
    requires Consistent(t)
    ensures Construct(k, t, WiredConfig(k)) == Success(WiredStep(k))
    ensures ValidateFieldBinding(WiredStep(k), "confidence", Num(1.1))
            == Fail(VariableTypeError("some", "confidence", Num(1.1)))
  {
    assert !InDomain(Confidence, Num(1.1)) by {
      assert 1.1 > 1.0;
    }
    BindingRejectsValue(WiredStep(k), Confidence, Num(1.1));
    WiredConfigParses(k, t);
  }

  /** Binding validation of the wired step rejects a bare string as the image. */
  lemma BareStringImageRejected(k: StepKind, t: SourceTable)
    requires Consistent(t)
    ensures Construct(k, t, WiredConfig(k)) == Success(WiredStep(k))
    ensures ValidateFieldBinding(WiredStep(k), "image", Str("some"))
            == Fail(VariableTypeError("some", "image", Str("some")))
  {
    WiredConfigParses(k, t);
    BindingRejectsValue(WiredStep(k), Image, Str("some"));
  }

  /** Binding validation of the wired step rejects an integer model id. */
  lemma IntegerModelIdRejected(k: StepKind, t: SourceTable)
    requires Consistent(t)
    ensures Construct(k, t, WiredConfig(k)) == Success(WiredStep(k))
    ensures ValidateFieldBinding(WiredStep(k), "model_id", Int(38))
            == Fail(VariableTypeError("some", "model_id", Int(38)))
  {
    WiredConfigParses(k, t);
    BindingRejectsValue(WiredStep(k), ModelId, Int(38));
  }

  /** Binding validation of the wired step rejects a string active-learning flag. */
  lemma StringFlagBindingRejected(k: StepKind, t: SourceTable)
    requires Consistent(t)
    ensures Construct(k, t, WiredConfig(k)) == Success(WiredStep(k))
    ensures ValidateFieldBinding(WiredStep(k), "disable_active_learning", Str("some"))
            == Fail(VariableTypeError("some", "disable_active_learning", Str("some")))
  {
    WiredConfigParses(k, t);
    BindingRejectsValue(WiredStep(k), DisableActiveLearning, Str("some"));
  }
}
