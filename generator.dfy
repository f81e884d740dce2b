/**
 * The grammar generator (`CLIGenerator`): turns the registered module
 * classes and their argument sets into an argparse grammar. argparse itself
 * is not modelled; the grammar is the record of the `add_argument` and
 * `add_parser` calls the generator makes.
 */
module Generator {
  import opened Errors
  import opened PyValues
  import opened ArgDescriptors
  import opened Modules

  /** One keyword argument value passed to `add_argument`. */
  datatype Setting =
    | NoneSetting
    | TypeSetting(t: PyType)
    | TextSetting(s: string)
    | NargsSetting(n: Nargs)
    | ValueSetting(v: Value)
    | ChoicesSetting(items: seq<Value>)
    | FlagSetting(b: bool)
    | MetavarSetting(m: Metavar)

  /** One `add_argument(*names, dest=..., **settings)` call; `dest` is None when it is not passed. */
  datatype ArgumentRecord = ArgumentRecord(names: seq<string>, dest: Option<string>, settings: map<string, Setting>)

  /** One `add_parser(name, help=...)` call and the arguments then added to that parser. */
  datatype Subparser = Subparser(name: string, help: Option<string>, arguments: seq<ArgumentRecord>)

  /** The `add_subparsers(help=..., dest=...)` hub and its parsers, in registration order. */
  datatype SubparserHub = SubparserHub(dest: string, help: string, parsers: seq<Subparser>)

  datatype Grammar = Grammar(description: string, arguments: seq<ArgumentRecord>, hub: SubparserHub)

  /** The keywords the generator's `dict(...)` call names explicitly. */
  const BuiltinKeys: set<string> :=
    {"type", "action", "nargs", "const", "default", "choices", "required", "help", "metavar"}

  /** The keywords copied one-to-one from the descriptor, whatever kind of argument it is. */
  const CopiedKeys: set<string> :=
    {"action", "nargs", "const", "default", "choices", "help", "metavar"}

  /** The coercion type handed to argparse: the override when set, else the declared type. */
  function EffectiveType(arg: ModuleArg): PyType {
    if arg.argparseType.None? then arg.kind else arg.argparseType.value
  }

  function TextOrNone(o: Option<string>): Setting {
    if o.None? then NoneSetting else TextSetting(o.value)
  }

  function ValueOrNone(o: Option<Value>): Setting {
    if o.None? then NoneSetting else ValueSetting(o.value)
  }

  /** The explicit keywords of the `dict(...)` call, before anything is deleted. */
  function BuiltinSettings(arg: ModuleArg): (m: map<string, Setting>)
    ensures m.Keys == BuiltinKeys
  {
    map[
      "type" := TypeSetting(EffectiveType(arg)),
      "action" := TextOrNone(arg.action),
      "nargs" := if arg.nargs.None? then NoneSetting else NargsSetting(arg.nargs.value),
      "const" := ValueOrNone(arg.constant),
      "default" := ValueOrNone(arg.fallback),
      "choices" := if arg.choices.None? then NoneSetting else ChoicesSetting(arg.choices.value),
      "required" := if arg.required.None? then NoneSetting else FlagSetting(arg.required.value),
      "help" := TextOrNone(arg.help),
      "metavar" := if arg.metavar.None? then NoneSetting else MetavarSetting(arg.metavar.value)
    ]
  }

  /** The `argparse_kwargs` merged into the call; an unset or empty mapping adds nothing. */
  function ExtraSettings(arg: ModuleArg): map<string, Setting> {
    if arg.argparseKwargs.None? then map[]
    else map k | k in arg.argparseKwargs.value :: ValueSetting(arg.argparseKwargs.value[k])
  }

  /** Whether keyword `k` survives the deletions: `type` goes for the `type` marker, `required` for positionals. */
  predicate Kept(arg: ModuleArg, k: string) {
    && !(k == "type" && EffectiveType(arg) == TypeMarker)
    && !(k == "required" && !arg.IsOptional())
  }

  /**
   * The `add_argument` call the generator makes for argument `key`, or the
   * error it raises. Requirements, in the order they are checked: the key
   * is a string; `argparse_kwargs` repeats none of the explicit keywords;
   * a flag's kwargs do not pass `dest` a second time; a positional is not
   * declared `required=False`.
   */
  function Translate(key: PyAttr, arg: ModuleArg): Result<ArgumentRecord>
  {
    var extras := ExtraSettings(arg);
    var merged := BuiltinSettings(arg) + extras;
    if !key.PyStr? then Err(ExpectedType(ExpectedStr))
    else if !(extras.Keys !! BuiltinKeys) then Err(MultipleValuesForKeyword)
    else if arg.IsOptional() && "dest" in extras then Err(MultipleValuesForKeyword)
    else if !arg.IsOptional() && arg.required == Some(false) then
      Err(Unsupported("non-required positional with name", key.s))
    else
      Ok(ArgumentRecord(
           arg.names,
           if arg.IsOptional() then Some(key.s) else None,
           map k | k in merged && Kept(arg, k) :: merged[k]))
  }

  /**
   * When `Translate` fails, and with which error: the key must be a string,
   * the extra keywords may not repeat an explicit one, a flag's may not
   * pass `dest`, and a positional may not be declared `required=False`.
   */
  lemma TranslateErrors(key: PyAttr, arg: ModuleArg, r: Result<ArgumentRecord>)
    requires r == Translate(key, arg)
    ensures !key.PyStr? ==> r == Err(ExpectedType(ExpectedStr))
    ensures key.PyStr? && ExtraSettings(arg).Keys !! BuiltinKeys && !arg.IsOptional() &&
            arg.required == Some(false) ==>
              r == Err(Unsupported("non-required positional with name", key.s))
    ensures r.Ok? <==>
              && key.PyStr?
              && ExtraSettings(arg).Keys !! BuiltinKeys
              && !(arg.IsOptional() && "dest" in ExtraSettings(arg))
              && !(!arg.IsOptional() && arg.required == Some(false))
    ensures r.Err? && key.PyStr? && !(ExtraSettings(arg).Keys !! BuiltinKeys) ==>
              r.error == MultipleValuesForKeyword
    ensures key.PyStr? && ExtraSettings(arg).Keys !! BuiltinKeys && arg.IsOptional() &&
            "dest" in ExtraSettings(arg) ==>
              r == Err(MultipleValuesForKeyword)
  {
  }

  /** An accepted argument is registered under its names, with `dest` exactly when it is a flag. */
  lemma TranslateNames(key: PyAttr, arg: ModuleArg, r: Result<ArgumentRecord>)
    requires r == Translate(key, arg) && r.Ok?
    ensures r.value.names == arg.names
    ensures r.value.dest.Some? <==> arg.IsOptional()
    ensures arg.IsOptional() ==> r.value.dest == Some(key.s)
  {
  }

  /**
   * `type` is passed unless it is the `type` marker, and then as the
   * effective type; `required` is passed for flags only.
   */
  lemma TranslateTypeAndRequired(key: PyAttr, arg: ModuleArg, r: Result<ArgumentRecord>)
    requires r == Translate(key, arg) && r.Ok?
    ensures "type" in r.value.settings <==> EffectiveType(arg) != TypeMarker
    ensures "type" in r.value.settings ==> r.value.settings["type"] == TypeSetting(EffectiveType(arg))
    ensures "required" in r.value.settings <==> arg.IsOptional()
    ensures arg.IsOptional() ==> r.value.settings["required"] == BuiltinSettings(arg)["required"]
  {
  }

  /**
   * The descriptor's `action`, `nargs`, `const`, `default`, `choices`,
   * `help` and `metavar` are passed one-to-one, the extra keywords are
   * merged in, and nothing else is passed.
   */
  lemma TranslateKeywords(key: PyAttr, arg: ModuleArg, r: Result<ArgumentRecord>)
    requires r == Translate(key, arg) && r.Ok?
    ensures forall k :: k in CopiedKeys ==>
              k in r.value.settings && r.value.settings[k] == BuiltinSettings(arg)[k]
    ensures forall k :: k in ExtraSettings(arg) ==>
              k in r.value.settings && r.value.settings[k] == ExtraSettings(arg)[k]
    ensures r.value.settings.Keys <= BuiltinKeys + ExtraSettings(arg).Keys
  {
  }

  /** `records` are the translations of `args`, one per argument, in order. */
  predicate Translated(args: ModuleArgs, records: seq<ArgumentRecord>) {
    && |records| == |args|
    && forall i :: 0 <= i < |args| ==> Translate(args[i].0, args[i].1) == Ok(records[i])
  }

  /** Argument `i` is the first of `args` to be rejected, with error `e`. */
  predicate RejectedAt(args: ModuleArgs, i: nat, e: Error) {
    && i < |args|
    && Translate(args[i].0, args[i].1) == Err(e)
    && forall j :: 0 <= j < i ==> Translate(args[j].0, args[j].1).Ok?
  }

  /**
   * The body of `_parse_module_args`' loop for one argument: build the
   * keyword dict, merge `argparse_kwargs`, delete `type` for the `type`
   * marker, then pass `dest` for a flag or check and delete `required` for
   * a positional.
   */
  method ParseModuleArg(key: PyAttr, arg: ModuleArg) returns (r: Result<ArgumentRecord>)
    ensures r == Translate(key, arg)
  {
    if !key.PyStr? {
      return Err(ExpectedType(ExpectedStr));
    }
    var argparseType := if arg.argparseType.None? then arg.kind else arg.argparseType.value;
    var settings := BuiltinSettings(arg);
    var extras := ExtraSettings(arg);
    if !(extras.Keys !! settings.Keys) {
      return Err(MultipleValuesForKeyword);
    }
    ghost var merged := settings + extras;
    settings := settings + extras;
    ghost var dropped: set<string> := {};
    if argparseType == TypeMarker {
      settings := settings - {"type"};
      dropped := {"type"};
    }
    assert "dest" !in BuiltinKeys && "required" != "type";
    if arg.IsOptional() {
      if "dest" in settings {
        return Err(MultipleValuesForKeyword);
      }
      assert settings == merged - dropped;
      KeptIsDeletion(arg, merged, dropped);
      r := Ok(ArgumentRecord(arg.names, Some(key.s), settings));
    } else {
      assert settings["required"] == BuiltinSettings(arg)["required"];
      if settings["required"] == FlagSetting(false) {
        return Err(Unsupported("non-required positional with name", key.s));
      }
      settings := settings - {"required"};
      assert settings == merged - (dropped + {"required"});
      KeptIsDeletion(arg, merged, dropped + {"required"});
      r := Ok(ArgumentRecord(arg.names, None, settings));
    }
  }

  /** The kept keywords are exactly those the generator's `del` statements leave. */
  lemma KeptIsDeletion(arg: ModuleArg, merged: map<string, Setting>, dropped: set<string>)
    requires dropped == (if EffectiveType(arg) == TypeMarker then {"type"} else {}) +
                        (if arg.IsOptional() then {} else {"required"})
    ensures merged - dropped == map k | k in merged && Kept(arg, k) :: merged[k]
  {
  }

  /**
   * `_parse_module_args`: one `add_argument` call per argument, in order;
   * the first rejected argument aborts the whole generation.
   */
  method ParseModuleArgs(args: ModuleArgs) returns (r: Result<seq<ArgumentRecord>>)
    ensures r.Ok? ==> Translated(args, r.value)
    ensures r.Err? ==> exists i :: RejectedAt(args, i, r.error)
  {
    var records: seq<ArgumentRecord> := [];
    var i := 0;
    while i < |args|
      invariant 0 <= i <= |args|
      invariant |records| == i
      invariant forall j :: 0 <= j < i ==> Translate(args[j].0, args[j].1) == Ok(records[j])
    {
      var record := ParseModuleArg(args[i].0, args[i].1);
      if record.Err? {
        assert RejectedAt(args, i, record.error);
        return Err(record.error);
      }
      records := records + [record.value];
      i := i + 1;
    }
    r := Ok(records);
  }

  /** The argument set a module contributes: none at all when ARGS is unset. */
  function ArgsOf(m: ModuleClass): ModuleArgs {
    if m.args.None? then [] else m.args.value
  }

  /** `sp` is the subparser registered for module `m`. */
  predicate RegisteredAs(m: ModuleClass, externalName: ModuleClass -> string, sp: Subparser) {
    && sp.name == externalName(m)
    && sp.help == m.description
    && Translated(ArgsOf(m), sp.arguments)
  }

  /** Every module has its own subparser, in list order. */
  predicate RegistersAll(modules: seq<ModuleClass>, externalName: ModuleClass -> string, parsers: seq<Subparser>) {
    && |parsers| == |modules|
    && forall i :: 0 <= i < |modules| ==> RegisteredAs(modules[i], externalName, parsers[i])
  }

  /** Every argument of `args` is accepted. */
  predicate Accepted(args: ModuleArgs) {
    forall i :: 0 <= i < |args| ==> Translate(args[i].0, args[i].1).Ok?
  }

  /** Module `i` holds the first rejected argument, with error `e`. */
  ghost predicate ModuleRejectedAt(modules: seq<ModuleClass>, i: nat, e: Error) {
    && i < |modules|
    && (exists k :: RejectedAt(ArgsOf(modules[i]), k, e))
    && forall j :: 0 <= j < i ==> Accepted(ArgsOf(modules[j]))
  }

  /**
   * `_add_module_args`: one subparser per module, named by `externalName`
   * (the module's namespaced subcommand name), carrying the module's
   * DESCRIPTION as help; a module without ARGS gets no arguments.
   */
  method AddModuleArgs(modules: seq<ModuleClass>, externalName: ModuleClass -> string)
    returns (r: Result<seq<Subparser>>)
    ensures r.Ok? ==> RegistersAll(modules, externalName, r.value)
    ensures r.Err? ==> exists i :: ModuleRejectedAt(modules, i, r.error)
  {
    var parsers: seq<Subparser> := [];
    var i := 0;
    while i < |modules|
      invariant 0 <= i <= |modules|
      invariant |parsers| == i
      invariant forall j :: 0 <= j < i ==> RegisteredAs(modules[j], externalName, parsers[j])
    {
      var m := modules[i];
      var arguments: seq<ArgumentRecord> := [];
      if m.args.Some? {
        var parsed := ParseModuleArgs(m.args.value);
        if parsed.Err? {
          assert ArgsOf(m) == m.args.value;
          forall j | 0 <= j < i ensures Accepted(ArgsOf(modules[j])) {
            assert RegisteredAs(modules[j], externalName, parsers[j]);
          }
          assert ModuleRejectedAt(modules, i, parsed.error);
          return Err(parsed.error);
        }
        arguments := parsed.value;
      }
      parsers := parsers + [Subparser(externalName(m), m.description, arguments)];
      i := i + 1;
    }
    r := Ok(parsers);
  }

  /** The three global options, in registration order. */
  function CommonArguments(): (r: seq<ArgumentRecord>)
    ensures |r| == 3
    ensures r[0].names == ["-v", "--verbose"] && r[0].dest == Some("verbosity_level")
    ensures "action" in r[0].settings && "default" in r[0].settings
    ensures r[0].settings["action"] == TextSetting("count") && r[0].settings["default"] == ValueSetting(IntValue(0))
    ensures r[1].names == ["-c", "--config"] && r[1].dest == Some("config_path")
    ensures "type" in r[1].settings && "default" in r[1].settings
    ensures r[1].settings["type"] == TypeSetting(PathType) && r[1].settings["default"] == NoneSetting
    ensures r[2].names == ["--sysdir"] && r[2].dest == Some("sysdir")
    ensures "type" in r[2].settings && "default" in r[2].settings
    ensures r[2].settings["type"] == TypeSetting(PathType) && r[2].settings["default"] == NoneSetting
  {
    [
      ArgumentRecord(["-v", "--verbose"], Some("verbosity_level"),
        map["action" := TextSetting("count"), "default" := ValueSetting(IntValue(0)),
            "help" := TextSetting("verbosity level")]),
      ArgumentRecord(["-c", "--config"], Some("config_path"),
        map["type" := TypeSetting(PathType), "default" := NoneSetting,
            "help" := TextSetting("path to config file. Defaults to `clyjin.yml` in current dir")]),
      ArgumentRecord(["--sysdir"], Some("sysdir"),
        map["type" := TypeSetting(PathType), "default" := NoneSetting,
            "help" := TextSetting("directory for clyjin global configs. Defaults to `$HOME/.clyjin`")])
    ]
  }

  /**
   * `get_parser`: the "Clyjin" parser with the global options, a subparser
   * hub whose choice lands in `module`, and one subparser per module.
   */
  method GetParser(modules: seq<ModuleClass>, externalName: ModuleClass -> string)
    returns (r: Result<Grammar>)
    ensures r.Ok? ==> r.value.description == "Clyjin" && r.value.arguments == CommonArguments()
    ensures r.Ok? ==> r.value.hub.dest == "module" && r.value.hub.help == "module to launch"
    ensures r.Ok? ==> RegistersAll(modules, externalName, r.value.hub.parsers)
    ensures r.Err? ==> exists i :: ModuleRejectedAt(modules, i, r.error)
  {
    var arguments := CommonArguments();
    var parsers := AddModuleArgs(modules, externalName);
    if parsers.Err? {
      return Err(parsers.error);
    }
    r := Ok(Grammar("Clyjin", arguments, SubparserHub("module", "module to launch", parsers.value)));
  }
}
