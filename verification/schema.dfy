/** The step schema registry of the two classification step kinds: their
    registered tags, their input fields, each field's value domain and the
    table of upstream kinds a selector-bound field accepts. */
module Schema {
  import opened Wrappers
  import opened Values

  /** The registered step kinds. Both share one field layout. */
  datatype StepKind = ClassificationModel | MultiLabelClassificationModel

  /** The exact `type` discriminator a definition must carry for kind `k`. */
  function Tag(k: StepKind): (tag: string) {
    match k
    case ClassificationModel => "ClassificationModel"
    case MultiLabelClassificationModel => "MultiLabelClassificationModel"
  }

  /** Different kinds never share a tag, so a definition names at most one kind. */
  lemma TagsDistinct(k1: StepKind, k2: StepKind)
    ensures Tag(k1) == Tag(k2) <==> k1 == k2
  {
    if k1 != k2 {
      assert |Tag(k1)| != |Tag(k2)|;
    }
  }

  /** Keys of the two header entries every definition must carry. */
  const TypeKey: string := "type"
  const NameKey: string := "name"

  /** The input fields of a classification step. */
  datatype Field = Image | ModelId | DisableActiveLearning | Confidence

  /** Every input field, in declaration order. */
  const InputFields: seq<Field> := [Image, ModelId, DisableActiveLearning, Confidence]

  lemma InputFieldsComplete(f: Field)
    ensures f in InputFields
  {
  }

  /** The key a field is spelled with in a definition mapping. */
  function FieldKey(f: Field): (key: string) {
    match f
    case Image => "image"
    case ModelId => "model_id"
    case DisableActiveLearning => "disable_active_learning"
    case Confidence => "confidence"
  }

  /** Resolves a field name; `None` for a name the step kinds do not declare. */
  function ParseField(key: string): (r: Option<Field>)
    ensures r.Some? ==> FieldKey(r.value) == key
    ensures r.None? <==> forall f :: FieldKey(f) != key
  {
    if key == "image" then Some(Image)
    else if key == "model_id" then Some(ModelId)
    else if key == "disable_active_learning" then Some(DisableActiveLearning)
    else if key == "confidence" then Some(Confidence)
    else None
  }

  /** Field names are unambiguous: parsing a field's key gives back the field. */
  lemma ParseFieldKey(f: Field)
    ensures ParseField(FieldKey(f)) == Some(f)
  {
  }

  /** No input field is spelled like a header key. */
  lemma HeaderKeysAreNotFields(f: Field)
    ensures FieldKey(f) != TypeKey && FieldKey(f) != NameKey
  {
  }

  /** `image` and `model_id` must be given; the other input fields are optional. */
  predicate IsRequired(f: Field) {
    f == Image || f == ModelId
  }

  /** The value domain of a field: what a concrete (resolved or literal) value
      must look like. No coercion: a value of the wrong representation is outside
      the domain however it would print. */
  predicate InDomain(f: Field, v: Value) {
    match f
    case Image => v.ImageValue?
    case ModelId => v.Str? && |v.text| > 0
    case DisableActiveLearning => v.Bool?
    case Confidence => (v.Num? && 0.0 <= v.x <= 1.0) || (v.Int? && 0 <= v.i <= 1)
  }

  /** Which upstream input kinds a selector on each field may point at. A field
      that is not a key of the table does not accept selectors at all. */
  type SourceTable = map<Field, set<InputKind>>

  predicate Selectable(t: SourceTable, f: Field) {
    f in t
  }

  predicate Accepts(t: SourceTable, f: Field, k: InputKind) {
    f in t && k in t[f]
  }

  /** The facts about the table that the two step kinds are known to satisfy:
      `image`, `model_id` and `disable_active_learning` accept selectors;
      `image` takes images and not parameters; `model_id` and
      `disable_active_learning` do not take images. Everything else about the
      table (confidence, parameters feeding `model_id`) is left open. */
  predicate Consistent(t: SourceTable) {
    && Image in t && ModelId in t && DisableActiveLearning in t
    && InferenceImage in t[Image] && InferenceParameter !in t[Image]
    && InferenceImage !in t[ModelId]
    && InferenceImage !in t[DisableActiveLearning]
  }

  /** The facts are not contradictory: some table satisfies them. */
  lemma ConsistentTableExists()
    ensures exists t :: Consistent(t)
  {
    var t: SourceTable := map[Image := {InferenceImage}, ModelId := {}, DisableActiveLearning := {}];
    assert Consistent(t);
  }

  /** With two input kinds, the known facts pin `image` down completely: it
      accepts exactly image inputs. */
  lemma ImageAcceptsOnlyImages(t: SourceTable)
    requires Consistent(t)
    ensures t[Image] == {InferenceImage}
  {
    forall k | k in t[Image]
      ensures k == InferenceImage
    {
      if k == InferenceParameter {
        assert false;
      }
    }
  }

  /** What a field of a constructed step may hold: a selector when the field
      accepts selectors, otherwise a literal inside its value domain. */
  predicate Admissible(t: SourceTable, f: Field, v: Value) {
    (v.Selector? && Selectable(t, f)) || InDomain(f, v)
  }
}
