/**
 * Argument descriptors (`ModuleArg`) and argument sets (`ModuleArgs`).
 */
module ArgDescriptors {
  import opened Errors
  import opened PyValues
  import Seqs

  /** argparse's `nargs`: a count or a pattern such as "?", "*" or "+". */
  datatype Nargs = NargsCount(n: int) | NargsPattern(pattern: string)

  /** argparse's `metavar`: one display name or a tuple of them. */
  datatype Metavar = MetavarName(name: string) | MetavarTuple(names: seq<string>)

  /**
   * The description of one module argument, shaped like the keyword
   * arguments of an `add_argument` call, plus the slot that receives the
   * parsed value. Only the slot is ever written after construction.
   */
  class ModuleArg {
    const names: seq<string>
    const kind: PyType                          // `type`
    const action: Option<string>
    const nargs: Option<Nargs>
    const constant: Option<Value>               // `const`
    const fallback: Option<Value>               // `default`
    const choices: Option<seq<Value>>
    const required: Option<bool>
    const help: Option<string>
    const metavar: Option<Metavar>
    const argparseKwargs: Option<map<string, Value>>
    const argparseType: Option<PyType>
    var slot: Option<Value>                     // `_value`; None means unset

    /** A descriptor as declared; every optional field defaults to None and the slot starts empty. */
    constructor (names: seq<string>, kind: PyType,
                 action: Option<string> := None, nargs: Option<Nargs> := None,
                 constant: Option<Value> := None, fallback: Option<Value> := None,
                 choices: Option<seq<Value>> := None, required: Option<bool> := None,
                 help: Option<string> := None, metavar: Option<Metavar> := None,
                 argparseKwargs: Option<map<string, Value>> := None,
                 argparseType: Option<PyType> := None)
      ensures this.names == names && this.kind == kind
      ensures this.action == action && this.nargs == nargs
      ensures this.constant == constant && this.fallback == fallback
      ensures this.choices == choices && this.required == required
      ensures this.help == help && this.metavar == metavar
      ensures this.argparseKwargs == argparseKwargs && this.argparseType == argparseType
      ensures slot == None
    {
      this.names := names;
      this.kind := kind;
      this.action := action;
      this.nargs := nargs;
      this.constant := constant;
      this.fallback := fallback;
      this.choices := choices;
      this.required := required;
      this.help := help;
      this.metavar := metavar;
      this.argparseKwargs := argparseKwargs;
      this.argparseType := argparseType;
      this.slot := None;
    }

    /** Reading the `value` property: an unset slot is an error, never a default. */
    function GetValue(): (r: Result<Value>)
      reads this
      ensures r.Err? <==> slot.None?
      ensures r.Err? ==> r.error == UnsetValue
      ensures r.Ok? ==> r.value == slot.value
    {
      match slot
      case None => Err(UnsetValue)
      case Some(v) => Ok(v)
    }

    /** Writing the `value` property; writing None makes the slot unset again. */
    method SetValue(v: Option<Value>)
      modifies this`slot
      ensures slot == v
      ensures v.Some? ==> GetValue() == Ok(v.value)
      ensures v.None? ==> GetValue() == Err(UnsetValue)
    {
      slot := v;
    }

    /** The argument is a flag exactly when some name contains `-`, at any position. */
    predicate IsOptional()
      ensures IsOptional() <==> exists i :: 0 <= i < |names| && '-' in names[i]
    {
      Seqs.FindFirst(names, (n: string) => '-' in n).Some?
    }
  }

  /** An argument set: argument keys with their descriptors, in declaration order. */
  type ModuleArgs = seq<(PyAttr, ModuleArg)>
}
