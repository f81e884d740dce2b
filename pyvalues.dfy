/**
 * How the model sees Python objects that the core inspects dynamically.
 */
module PyValues {

  /**
   * A class attribute (or a mapping key) whose type the core checks at run
   * time: `None`, a `str`, or an object of any other type.
   */
  datatype PyAttr = PyNone | PyStr(s: string) | PyOther

  /**
   * The `type` objects an argument descriptor names as its value type or its
   * coercion override. `TypeMarker` is the built-in `type` itself, which the
   * generator reads as "pass no `type` to argparse".
   */
  datatype PyType = StrType | IntType | FloatType | BoolType | PathType | ListType | TypeMarker

  /** Argument values (the descriptor's generic `T`), tagged by kind. */
  datatype Value =
    | StrValue(s: string)
    | IntValue(i: int)
    | FloatValue(f: real)                       // a float, as an exact real: rounding is not modelled
    | BoolValue(b: bool)
    | PathValue(path: string)
    | ListValue(items: seq<Value>)
}
