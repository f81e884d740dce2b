/**
 * Module descriptors: a module class (its class-level attributes) and a
 * module instance (what the boot sequence constructs before `execute`).
 */
module Modules {
  import opened Errors
  import opened PyValues
  import opened Text
  import opened ArgDescriptors

  /** The module name that marks a plugin's root module. */
  const RootName: string := "_root"

  /**
   * A `Module` subclass, seen through its class attributes. Reference
   * identity is Python's class identity (`is`, and `in` on a class list).
   * CONFIG_CLASS is not part of this model.
   */
  class ModuleClass {
    const name: PyAttr                          // NAME
    const description: Option<string>           // DESCRIPTION
    const args: Option<ModuleArgs>              // ARGS

    constructor (name: PyAttr, description: Option<string> := None, args: Option<ModuleArgs> := None)
      ensures this.name == name && this.description == description && this.args == args
    {
      this.name := name;
      this.description := description;
      this.args := args;
    }

    /** `cls_get_name`: NAME must be a string; it is trimmed and lower-cased. */
    function ClsGetName(): (r: Result<string>)
      ensures name.PyNone? <==> r == Err(PleaseDefine("NAME"))
      ensures name.PyOther? <==> r == Err(ExpectedType(ExpectedStr))
      ensures name.PyStr? <==> r.Ok?
      ensures r.Ok? ==> r.value == Normalize(name.s) && Normalize(r.value) == r.value
    {
      match name
      case PyNone => Err(PleaseDefine("NAME"))
      case PyOther => Err(ExpectedType(ExpectedStr))
      case PyStr(s) =>
        NormalizeIdempotent(s);
        Ok(Normalize(s))
    }

    /** `cls_get_str`: "Module Class <name>", failing as `ClsGetName` fails. */
    function ClsGetStr(): (r: Result<string>)
      ensures ClsGetName().Err? ==> r == Err(ClsGetName().error)
      ensures ClsGetName().Ok? ==> r == Ok("Module Class <" + ClsGetName().value + ">")
    {
      match ClsGetName()
      case Err(e) => Err(e)
      case Ok(n) => Ok("Module Class <" + n + ">")
    }
  }

  /** A module instance; `config` stands for the parsed configuration object. */
  class Module {
    const name: string
    const description: Option<string>
    const args: Option<ModuleArgs>
    const config: Option<Value>
    const moduleSysdir: string
    const rootdir: string
    const verbosityLevel: int

    constructor (name: string, description: Option<string>, args: Option<ModuleArgs>,
                 config: Option<Value>, moduleSysdir: string, rootdir: string,
                 verbosityLevel: int)
      ensures this.name == name && this.description == description
      ensures this.args == args && this.config == config
      ensures this.moduleSysdir == moduleSysdir && this.rootdir == rootdir
      ensures this.verbosityLevel == verbosityLevel
    {
      this.name := name;
      this.description := description;
      this.args := args;
      this.config := config;
      this.moduleSysdir := moduleSysdir;
      this.rootdir := rootdir;
      this.verbosityLevel := verbosityLevel;
    }

    /** The `args` property: the stored argument set, or an error when none was given. */
    function Args(): (r: Result<ModuleArgs>)
      ensures args.None? <==> r == Err(CannotBeNone)
      ensures args.Some? ==> r == Ok(args.value)
    {
      match args
      case None => Err(CannotBeNone)
      case Some(a) => Ok(a)
    }

    /** The base `execute` is abstract: it always raises. */
    method Execute() returns (o: Outcome)
      ensures o == Fail(NotImplemented)
    {
      o := Fail(NotImplemented);
    }
  }
}
