/** Values a workflow definition or the execution engine can hand to a step field,
    and the workflow inputs a selector can point at. */
module Values {

  /** A field value as a step sees it. `Selector` is a reference such as
      `$inputs.image` or `$steps.det.predictions`; its grammar is kept opaque,
      only "this value is a selector" is observable. `ImageValue` stands for any
      value of image shape. */
  datatype Value =
    | Str(text: string)
    | Int(i: int)
    | Bool(b: bool)
    | Num(x: real)
    | Null
    | Selector(path: string)
    | ImageValue

  /** The closed set of workflow input node kinds. */
  datatype InputKind = InferenceImage | InferenceParameter

  /** An upstream input node, as the graph builder hands it to selector validation. */
  datatype InputNode = InputNode(kind: InputKind, name: string)
}
