# Classification step validation

A model of how the workflow language's two classification step kinds,
`ClassificationModel` and `MultiLabelClassificationModel`, are checked before and
during execution. Checking has three stages:

1. **Construction** (`parse_obj`). A definition mapping becomes a step instance, or it is
   rejected. The `type` discriminator must equal the kind's registered tag exactly.
   `type`, `name`, `image` and `model_id` are required. Every input field must hold
   either a selector (when the field accepts selectors) or a literal inside its value domain.
2. **Selector validation** (`validate_field_selector`). The graph builder asks whether the
   selector a field holds may point at a given upstream input node. The answer is one of:
   - success;
   - `ExecutionGraphError`: a wiring error. The field is undeclared, does not take
     selectors, or holds no selector;
   - `InvalidStepInputDetected`: the node's kind is not one the field accepts.
3. **Binding validation** (`validate_field_binding`). The execution engine asks whether a
   concrete value fits a field's domain. If it does not, the answer is `VariableTypeError`.

Modules, one per component:

- `Wrappers` (wrappers.dfy): `Option`, `Result`, `Outcome`.
- `Values` (values.dfy): field values, where a selector is opaque. Also the input node kinds
  `InferenceImage` and `InferenceParameter`.
- `Schema` (schema.dfy): the registry. It holds the step kinds and their tags, the input
  fields, each field's value domain, and the accepted-source-kinds table.
- `Construction` (construction.dfy): step instances, `Construct`, `Serialize`, and the
  round trips between them.
- `Validation` (validation.dfy): the error taxonomy and the two validators.
- `Scenarios` (scenarios.dfy): each behaviour the step tests fix, proved for both kinds.

The table of accepted source kinds is a parameter, `SourceTable`. A field accepts
selectors exactly when it is a key of the table. The predicate `Consistent` holds only
the facts the tests fix:

- `image`, `model_id` and `disable_active_learning` accept selectors;
- `image` accepts image inputs and rejects parameter inputs;
- `model_id` and `disable_active_learning` reject image inputs.

Every scenario lemma holds for every table that satisfies `Consistent`. Two things are
left open on purpose: whether `model_id` or the flag accepts a parameter input, and
whether `confidence` accepts selectors at all.

The step kinds' own module (steps, inputs, errors) is not part of this model. Its
behaviour is taken from the test suite
`tests/inference/unit_tests/enterprise/deployments/entities/test_steps.py`.
No test fixes the following choices; the model makes them:

- an undeclared field name is an `ExecutionGraphError` in both validators;
- `model_id` must be a non-empty string;
- `confidence` must be a number (a real or an integer) in the closed interval [0, 1];
- construction checks literals against the same value domain that binding uses.

## Model

| member | source | states |
|---|---|---|
| Schema.TagsDistinct | tests/inference/unit_tests/enterprise/deployments/entities/test_steps.py:56-67 | the two kinds' tags differ, so a discriminator selects at most one kind |
| Schema.ConsistentTableExists | tests/inference/unit_tests/enterprise/deployments/entities/test_steps.py:101-194 | the kind-compatibility facts the tests fix can all hold at once |
| Schema.ImageAcceptsOnlyImages | tests/inference/unit_tests/enterprise/deployments/entities/test_steps.py:101-135 | under those facts `image` accepts exactly image inputs |
| Construction.ReadFields | tests/inference/unit_tests/enterprise/deployments/entities/test_steps.py:38-53 | reading input fields succeeds iff every required field is present and every given value is admissible; the result holds exactly the given entries; a reported missing key is absent and a reported bad value is the one given |
| Construction.Construct | tests/inference/unit_tests/enterprise/deployments/entities/test_steps.py:17-98 | construction succeeds iff the definition is acceptable: exact tag, string name, required fields present, every input value admissible. The result is a well-formed step of the requested kind holding exactly the definition's entries. A missing-field error names one of the four required keys, absent from the definition; a kind error carries the given discriminator; a value error carries the given key and value |
| Construction.ConstructSerialize | tests/inference/unit_tests/enterprise/deployments/entities/test_steps.py:17-35 | constructing from a well-formed step's serialization gives the same step back |
| Construction.SerializeConstruct | tests/inference/unit_tests/enterprise/deployments/entities/test_steps.py:17-35 | a constructed step re-serializes to exactly the declared part of its definition |
| Construction.MissingRequiredFails | tests/inference/unit_tests/enterprise/deployments/entities/test_steps.py:38-53 | any definition lacking `type`, `name`, `image` or `model_id` fails to construct |
| Construction.TagMustMatchExactly | tests/inference/unit_tests/enterprise/deployments/entities/test_steps.py:56-67 | any discriminator other than the kind's exact tag fails with UnrecognizedKind |
| Construction.KindsAgree | tests/inference/unit_tests/enterprise/deployments/entities/test_steps.py:227-245 | for any two kinds, in either direction, a definition that constructs as one kind constructs as the other once re-tagged, to the same step apart from its kind |
| Validation.ValidateFieldSelector | tests/inference/unit_tests/enterprise/deployments/entities/test_steps.py:101-194 | success iff the named field holds a selector and the table accepts the source kind. InvalidStepInputDetected iff it holds a selector, takes selectors, and the kind is not accepted. ExecutionGraphError iff the field holds no selector or does not take selectors. Never VariableTypeError. Errors name the step and field |
| Validation.ValidateFieldBinding | tests/inference/unit_tests/enterprise/deployments/entities/test_steps.py:197-224 | success iff the named field is declared and the value is in its domain; VariableTypeError iff it is declared and the value is outside; never InvalidStepInputDetected |
| Validation.GraphErrorMeansNoSelector | tests/inference/unit_tests/enterprise/deployments/entities/test_steps.py:177-194 | on a constructed step, selector validation of a declared field is a wiring error iff the field holds no selector |
| Validation.AcceptedKindsDecide | tests/inference/unit_tests/enterprise/deployments/entities/test_steps.py:120-174 | for a field holding a selector, the table alone decides between success and InvalidStepInputDetected |
| Validation.BindingRejectsValue | tests/inference/unit_tests/enterprise/deployments/entities/test_steps.py:197-224 | a value outside a declared field's domain is a VariableTypeError naming the step, field and value |
| Validation.NoStringCoercion | tests/inference/unit_tests/enterprise/deployments/entities/test_steps.py:197-224 | a string binds only to `model_id` (when non-empty); it is never coerced to an image, flag or number |
| Validation.StoredLiteralsBind | tests/inference/unit_tests/enterprise/deployments/entities/test_steps.py:84-98 | every literal a constructed step stores passes binding validation for its own field |
| Validation.ValidationIgnoresKind | tests/inference/unit_tests/enterprise/deployments/entities/test_steps.py:408-435 | selector and binding validation give the same outcome for both step kinds |
| Scenarios.MinimalConfigParses | tests/inference/unit_tests/enterprise/deployments/entities/test_steps.py:17-35 | the minimal definition parses, to the step built directly from its four entries |
| Scenarios.MissingRequiredEntryFails | tests/inference/unit_tests/enterprise/deployments/entities/test_steps.py:38-53 | removing `type`, `name`, `image` or `model_id` from the minimal definition fails |
| Scenarios.InvalidTagFails | tests/inference/unit_tests/enterprise/deployments/entities/test_steps.py:56-67 | the discriminator `"invalid"` fails with UnrecognizedKind |
| Scenarios.NullModelIdFails | tests/inference/unit_tests/enterprise/deployments/entities/test_steps.py:70-81 | a `None` model id fails construction |
| Scenarios.StringActiveLearningFlagFails | tests/inference/unit_tests/enterprise/deployments/entities/test_steps.py:84-98 | a string active-learning flag fails construction |
| Scenarios.ImageSelectorAcceptsImageInput | tests/inference/unit_tests/enterprise/deployments/entities/test_steps.py:101-117 | the image selector may point at an image input |
| Scenarios.ImageSelectorRejectsParameterInput | tests/inference/unit_tests/enterprise/deployments/entities/test_steps.py:120-135 | the image selector pointing at a parameter input is InvalidStepInputDetected |
| Scenarios.WiredConfigParses | tests/inference/unit_tests/enterprise/deployments/entities/test_steps.py:138-148 | the definition with `model_id` wired to an input parses |
| Scenarios.ModelIdSelectorRejectsImageInput | tests/inference/unit_tests/enterprise/deployments/entities/test_steps.py:138-153 | a `model_id` selector pointing at an image input is InvalidStepInputDetected |
| Scenarios.ActiveLearningSelectorRejectsImageInput | tests/inference/unit_tests/enterprise/deployments/entities/test_steps.py:156-174 | an active-learning selector pointing at an image input is InvalidStepInputDetected |
| Scenarios.DefaultFieldHoldsNoSelector | tests/inference/unit_tests/enterprise/deployments/entities/test_steps.py:177-194 | validating the selector of a flag left at its default is ExecutionGraphError |
| Scenarios.ConfidenceOutOfRangeRejected | tests/inference/unit_tests/enterprise/deployments/entities/test_steps.py:197-224 | on the wired step, binding confidence 1.1 is VariableTypeError |
| Scenarios.BareStringImageRejected | tests/inference/unit_tests/enterprise/deployments/entities/test_steps.py:197-224 | on the wired step, binding the bare string `"some"` to `image` is VariableTypeError |
| Scenarios.IntegerModelIdRejected | tests/inference/unit_tests/enterprise/deployments/entities/test_steps.py:197-224 | on the wired step, binding the integer 38 to `model_id` is VariableTypeError |
| Scenarios.StringFlagBindingRejected | tests/inference/unit_tests/enterprise/deployments/entities/test_steps.py:197-224 | on the wired step, binding the string `"some"` to `disable_active_learning` is VariableTypeError |

## Left out

- Structural validation library: `Construct` stands in for the generic machinery behind
  `parse_obj` and its `ValidationError`. It reports the first failing check in a fixed
  order, where the library collects every error.
- Defaults: an optional field left out of a definition is stored as absent. The defaults of
  `disable_active_learning` and `confidence` are not modelled. The only fact the model relies
  on is that a default never holds a selector.
- Selector grammar: a selector is opaque. The parsing of `$inputs.x` and `$steps.x.y` is not
  modelled. As a result, a `name` spelled like a selector is rejected here, although a
  string-typed name would accept it.
- Step outputs as selector sources: only input nodes are modelled as sources. Graph
  construction, topological execution and model inference belong to collaborators that
  are not part of this model.
- Numbers: `confidence` is a real number or an integer, accepted in [0, 1]. Binary floating
  point is not modelled. Nothing in the tests fixes whether an integer confidence is
  accepted; the model accepts 0 and 1.
- Open table facts: the model leaves two questions open in `SourceTable`. One is whether
  `model_id` or `disable_active_learning` accepts a parameter input. The other is whether
  `confidence` accepts selectors.
- Validation.BindingRejectsSelectors: a `Selector` value is never a resolved value, so
  binding validation rejects it on every field. This is a modelling choice that follows from
  keeping selectors apart from strings. In the program a selector is an ordinary string, and
  a selector-shaped string bound to `model_id` would fit its string domain.
- Error messages: each error keeps only the step name, the field name, and the offending
  value or kind.
