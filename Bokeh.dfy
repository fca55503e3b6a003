/**
  The part of the plotting toolkit's object model that the widget and tab
  rules look at. A model is a finite tree: its properties with their
  values (`properties_with_values()`), and, when it has them, the
  `renderers`, `axis` and `grid` attributes. A property value is one of the
  Python values the rules distinguish; a value that is itself a model is
  `VModel`.
*/
module Bokeh {
  datatype Value =
    | VNone
    | VBool(b: bool)
    | VNum(r: real)
    | VStr(s: string)
    | VList(items: seq<Value>)
    | VDict(entries: map<string, Value>)
    | VModel(model: Model)

  datatype Prop = Prop(name: string, value: Value)

  /** The `renderers` attribute: absent, the string "auto", or a list of models. */
  datatype Renderers = NoRenderers | Auto | Listed(items: seq<Model>)

  /** The `axis` and `grid` attributes: `Missing` when the model has no such attribute (for `axis`,
      also when it is not a list), otherwise the list of models. */
  datatype ModelList = Missing | Present(models: seq<Model>)

  datatype Model = Model(
    typeName: string,
    props: seq<Prop>,
    renderers: Renderers,
    axis: ModelList,
    grid: ModelList)

  /** Python truthiness: None, False, 0, "", an empty list or dict are false; a model is true. */
  predicate Truthy(v: Value) {
    match v
    case VNone => false
    case VBool(b) => b
    case VNum(r) => r != 0.0
    case VStr(s) => s != ""
    case VList(items) => items != []
    case VDict(entries) => entries != map[]
    case VModel(_) => true
  }
}
