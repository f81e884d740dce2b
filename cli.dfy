/**
 * The older argv dispatcher: `argv[1]` names a builtin module spec, and the
 * rest of argv goes to that spec's entrypoint.
 */
module Cli {
  import opened Errors

  /** The entrypoints a builtin module spec can name. */
  datatype Entrypoint = BootMain | ApiMain

  /** `ModuleSpec`: a module name and the function called to run it. */
  datatype ModuleSpec = ModuleSpec(name: string, entrypoint: Entrypoint)

  /** `BUILTIN_MODULE_SPECS`, in table order. */
  const BuiltinModuleSpecs: seq<ModuleSpec> := [ModuleSpec("boot", BootMain), ModuleSpec("api", ApiMain)]

  /** `CliArgs`: the target module's name and the arguments meant for it. */
  datatype CliArgs = CliArgs(moduleName: string, args: seq<string>)

  /** A call of an entrypoint with its arguments: what `_process` ends in. */
  datatype Dispatch = Dispatch(entrypoint: Entrypoint, args: seq<string>)

  /**
   * `_parse_args`: `argv[1]` is the module name and `argv[2:]` its
   * arguments; the program name is dropped and nothing else is lost.
   */
  function ParseArgs(argv: seq<string>): (r: Result<CliArgs>)
    ensures |argv| < 2 <==> r == Err(NoModuleName)
    ensures r.Ok? ==> r.value.moduleName == argv[1] && argv == [argv[0], argv[1]] + r.value.args
  {
    if |argv| < 2 then Err(NoModuleName)
    else Ok(CliArgs(argv[1], argv[2..]))
  }

  /**
   * `_pick_spec`: the first builtin spec whose name equals the module name
   * exactly.
   */
  method PickSpec(moduleName: string) returns (r: Result<ModuleSpec>)
    ensures r.Ok? ==> exists i :: 0 <= i < |BuiltinModuleSpecs| && BuiltinModuleSpecs[i] == r.value &&
                        r.value.name == moduleName &&
                        forall j :: 0 <= j < i ==> BuiltinModuleSpecs[j].name != moduleName
    ensures r.Err? <==> forall s :: s in BuiltinModuleSpecs ==> s.name != moduleName
    ensures r.Err? ==> r.error == CannotFindSpec
  {
    var i := 0;
    while i < |BuiltinModuleSpecs|
      invariant 0 <= i <= |BuiltinModuleSpecs|
      invariant forall j :: 0 <= j < i ==> BuiltinModuleSpecs[j].name != moduleName
    {
      if moduleName == BuiltinModuleSpecs[i].name {
        return Ok(BuiltinModuleSpecs[i]);
      }
      i := i + 1;
    }
    r := Err(CannotFindSpec);
  }

  /** `_process`: run the picked spec's entrypoint on exactly the module's arguments. */
  method Process(args: CliArgs) returns (r: Result<Dispatch>)
    ensures r.Ok? ==> r.value.args == args.args &&
                      ModuleSpec(args.moduleName, r.value.entrypoint) in BuiltinModuleSpecs
    ensures r.Err? <==> forall s :: s in BuiltinModuleSpecs ==> s.name != args.moduleName
    ensures r.Err? ==> r.error == CannotFindSpec
  {
    var spec := PickSpec(args.moduleName);
    if spec.Err? {
      return Err(spec.error);
    }
    r := Ok(Dispatch(spec.value.entrypoint, args.args));
  }
}
