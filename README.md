# clyjin in Dafny

A model of the core of clyjin, a plugin-based command-line framework
written in Python. It covers:

- the descriptors of the data model:
  - plugins: NAME, MODULE_CLASSES, VERSION and the `_RootModule` slot;
  - module classes and module instances;
  - argument descriptors, with their mutable value slot;
- the grammar generator, which turns the registered modules and their
  argument sets into argparse calls;
- the small helpers around the core:
  - the older argv dispatcher;
  - the API module's argv scanners and spec lookups;
  - `convert_string_to_bool`;
  - `snakefy`;
  - the log-line formatter.

Each core source file becomes one Dafny module:

| Dafny module | file | source |
|---|---|---|
| `Plugins` | plugin.dfy | `clyjin/base/plugin.py` |
| `ArgDescriptors` | moduleargs.dfy | `clyjin/base/moduleargs.py` |
| `Modules` | module.dfy | `clyjin/base/module.py` |
| `Generator` | generator.dfy | `clyjin/core/cli/generator.py` |
| `Cli` | cli.dfy | `clyjin/core/cli.py` |
| `Api` | api.dfy | `clyjin/modules/api/__init__.py` |
| `Util` | util.dfy | `clyjin/util/__init__.py` |
| `StringUtils` | strings.dfy | `clyjin/utils/string.py` |
| `Log` | log.dfy | `clyjin/core/log.py` |

Shared modules:

- `Errors`: `Option`, `Result`, `Outcome` and one `Error` variant per exception the core raises.
- `PyValues`: the Python values the core inspects at run time.
- `Text`: the ASCII part of the `str` built-ins the core uses (`strip`, `lower`, `split`, `join`, `int`).
- `Seqs`: first-match search, standing for `next(filter(...))` and `list.index`.

`Cli.BuiltinModuleSpecs` is the builtin spec table of `clyjin/core/BUILTIN_MODULE_SPECS.py` (lines 5-8): `boot` first, then `api`, each with the entrypoint of that module.

Modelling choices:

- **Classes and identity.** A Python class used as a record (a `Plugin` or `Module` subclass) becomes a Dafny object. Reference identity stands for Python's `is` and for `in` on a list of classes. Only `_RootModule` and the argument value slot are mutable.
- **Exceptions.** A raised exception becomes an `Err`/`Fail` value that carries the exception's kind.
- **argparse.** argparse is not modelled. The generator produces a `Grammar` value recording the `add_argument`, `add_parser` and `add_subparsers` calls it would make.
- **Argument sets.** pydantic's `model_dump()` becomes an insertion-ordered sequence of (key, descriptor) pairs.
- **Generic types.** The generic `T` of a descriptor becomes the `Value` tag datatype.

Points where the code does something a reader might not expect:

- **`is_optional`.** An argument is a flag when any of its names contains `-` anywhere, not only as a prefix.
- **Flag actions.** Boolean flag actions keep `nargs`, `const`, `choices` and `metavar`. The generator passes them one-to-one whatever the action.
- **`get_module_class`.** It compares each module's normalised name with the requested name as given. The requested name is not normalised, so a name with upper-case letters is never found.
- **Plugin errors describe the plugin.** The empty-MODULE_CLASSES error and the not-found error of `get_module_class` both build the plugin's description with `get_str`. A bad NAME or VERSION therefore replaces them with its own error.

## Model

| member | source | states |
|---|---|---|
| Plugins.Plugin.constructor | clyjin/base/plugin.py:31-35 | the class attributes are as declared and `_RootModule` starts unset |
| Plugins.Plugin.GetName | clyjin/base/plugin.py:45-60 | PleaseDefine iff NAME is None; ExpectedType iff NAME is not a string; otherwise NAME stripped and lower-cased, with no upper-case letter and no surrounding space |
| Plugins.Plugin.GetModuleClasses | clyjin/base/plugin.py:62-79 | None, not a list and the empty list give three distinct errors, in that order; the empty-list error is built from the plugin's `get_str` (clyjin/base/errors.py:14), so a bad NAME or VERSION gives that error instead, and the empty-list error arises exactly for an empty list on a describable plugin; a non-empty list is returned unchanged |
| Plugins.Plugin.GetVersion | clyjin/base/plugin.py:81-93 | None reads "unversioned"; a non-string is ExpectedType; a string is returned as it is, not normalised |
| Plugins.Plugin.GetStr | clyjin/base/plugin.py:40-43 | "Plugin Class <name>, version <version>"; a name error comes first, then a version error |
| Plugins.Plugin.CheckHasModule | clyjin/base/plugin.py:125-131 | passes iff the module class is in MODULE_CLASSES (by identity), else ForeignModulePlugin; MODULE_CLASSES errors propagate |
| Plugins.Plugin.NamespacedFor | clyjin/base/plugin.py:138-142 | the plugin name alone for `_root`, `plugin.module` otherwise; plugin-name errors propagate |
| Plugins.Namespaced | clyjin/base/plugin.py:138-142 | the naming rule: the plugin name for `_root`, `plugin.module` otherwise; what it guarantees is stated by the two lemmas below |
| Plugins.NamespacedInjective | clyjin/base/plugin.py:138-142 | for plugin names without `.`, equal subcommand names come only from equal (plugin, module) pairs |
| Plugins.NamespacedSplits | clyjin/base/plugin.py:138-142 | a subcommand name splits on `.` back into the plugin name and, for a non-root module, the module name |
| Plugins.Plugin.SetRootModuleClass | clyjin/base/plugin.py:144-151 | an empty slot or the same class: the slot holds the class; a different class: DuplicateRootModulePlugin and the slot unchanged |
| Plugins.Plugin.GetNamespacedModuleNameNoCheck | clyjin/base/plugin.py:133-142 | a `_root` module is recorded as root and named by the plugin name; any other module is `plugin.module` and leaves the root slot alone; module-name errors leave it alone too, while a root module whose plugin NAME is bad is recorded before the plugin-name error |
| Plugins.Plugin.GetNamespacedModuleName | clyjin/base/plugin.py:95-106 | a foreign module is rejected before its name is read or the root slot is touched; otherwise as the unchecked variant |
| Plugins.Plugin.FindModuleClass | clyjin/base/plugin.py:112-114 | the loop of `get_module_class`: `None` exactly when every module name reads and none equals the argument; otherwise the first module, in list order, whose name reads and equals the argument, or the error of the first module whose name cannot be read |
| Plugins.Plugin.GetModuleClass | clyjin/base/plugin.py:108-123 | the first module class in list order whose normalised name equals the argument exactly; when none matches, the plugin's `get_str` is evaluated for the error first, so a bad NAME or VERSION gives that error, otherwise NotFound; a module whose name cannot be read stops the search; an unnormalised argument is never found |
| ArgDescriptors.ModuleArg.constructor | clyjin/base/moduleargs.py:34-49 | every field as given, every optional field None by default, the value slot empty |
| ArgDescriptors.ModuleArg.GetValue | clyjin/base/moduleargs.py:51-57 | UnsetValue iff the slot is empty, otherwise exactly the stored value |
| ArgDescriptors.ModuleArg.SetValue | clyjin/base/moduleargs.py:59-61 | only the slot changes; reading back gives the written value, or UnsetValue after writing None |
| ArgDescriptors.ModuleArg.IsOptional | clyjin/base/moduleargs.py:63-64 | true iff some name contains `-` at any position |
| Modules.ModuleClass.constructor | clyjin/base/module.py:72-75 | NAME, DESCRIPTION and ARGS as declared, DESCRIPTION and ARGS None by default |
| Modules.ModuleClass.ClsGetName | clyjin/base/module.py:100-115 | PleaseDefine iff NAME is None; ExpectedType iff not a string; otherwise the normalised NAME, itself a fixed point of normalisation |
| Modules.ModuleClass.ClsGetStr | clyjin/base/module.py:96-98 | "Module Class <name>", failing as the name fails |
| Modules.Module.constructor | clyjin/base/module.py:77-94 | each of the seven keyword arguments is stored unchanged |
| Modules.Module.Args | clyjin/base/module.py:117-123 | CannotBeNone iff no argument set was given, otherwise that set |
| Modules.Module.Execute | clyjin/base/module.py:125-126 | the base module always fails with NotImplemented |
| Generator.Translate | clyjin/core/cli/generator.py:93-151 | the `add_argument` call made for one argument, or the error raised; stated by the four lemmas below and by `Generator.ParseModuleArg` |
| Generator.EffectiveType | clyjin/core/cli/generator.py:104-107 | the coercion type: the `argparse_type` override when set, else the declared type |
| Generator.ExtraSettings | clyjin/core/cli/generator.py:119-120 | the `argparse_kwargs` merged into the call; unset or empty adds nothing |
| Generator.Kept | clyjin/core/cli/generator.py:123-146 | which keywords survive the deletions: `type` goes for the `type` marker, `required` for positionals |
| Generator.BuiltinSettings | clyjin/core/cli/generator.py:109-118 | the explicit keywords of the dict call are exactly the nine built-in keys |
| Generator.TranslateErrors | clyjin/core/cli/generator.py:93-151 | a non-string key is ExpectedType; kwargs repeating a built-in keyword, or a flag's kwargs passing `dest`, is MultipleValuesForKeyword; a positional with `required=False` is Unsupported naming the key; accepted iff none of these holds |
| Generator.TranslateNames | clyjin/core/cli/generator.py:126-151 | the record carries the descriptor's names, and `dest` equal to the key exactly when the argument is a flag |
| Generator.TranslateTypeAndRequired | clyjin/core/cli/generator.py:104-146 | `type` is passed iff the effective type (override, else declared) is not the `type` marker, and then as that type; `required` is passed iff the argument is a flag |
| Generator.TranslateKeywords | clyjin/core/cli/generator.py:109-121 | action, nargs, const, default, choices, help and metavar are copied one-to-one, kwargs are merged in verbatim, and nothing else is passed |
| Generator.KeptIsDeletion | clyjin/core/cli/generator.py:123-146 | the two `del` statements leave exactly the keywords the declarative translation keeps |
| Generator.ParseModuleArg | clyjin/core/cli/generator.py:93-151 | the step-by-step dict building, merging and deleting of one loop iteration yields the declarative translation |
| Generator.ParseModuleArgs | clyjin/core/cli/generator.py:88-151 | one record per argument in order, each its translation; an error means the first rejected argument's error |
| Generator.AddModuleArgs | clyjin/core/cli/generator.py:68-86 | one subparser per module in list order, named by the external name, with DESCRIPTION as help and no arguments when ARGS is unset; an error comes from the first module holding a rejected argument |
| Generator.CommonArguments | clyjin/core/cli/generator.py:31-57 | `-v/--verbose` counts with default 0 into `verbosity_level`; `-c/--config` and `--sysdir` are typed Path with default None into `config_path` and `sysdir` |
| Generator.GetParser | clyjin/core/cli/generator.py:16-29 | the "Clyjin" parser with the global options, a hub whose choice lands in `module`, and every module registered |
| Cli.ParseArgs | clyjin/core/cli.py:46-52 | fewer than two entries is NoModuleName; otherwise the module name is `argv[1]` and argv is exactly program, module name and the module arguments |
| Cli.PickSpec | clyjin/core/cli.py:58-62 | the first builtin spec whose name equals the module name; CannotFindSpec iff none does |
| Cli.Process | clyjin/core/cli.py:54-56 | the chosen spec's entrypoint receives exactly the module arguments; CannotFindSpec iff no spec has the name |
| Api.GetApiSpecByName | clyjin/modules/api/__init__.py:79-83 | the first spec in tuple order with that name; APISpecNotFound iff none |
| Api.HomeFix | clyjin/modules/api/__init__.py:89-90 | a "/" is prepended exactly when the first four characters are "home" |
| Api.HomeFixIdempotent | clyjin/modules/api/__init__.py:89-90 | applying the fix twice is applying it once |
| Api.GetApiSpecByEntrypointPath | clyjin/modules/api/__init__.py:85-97 | the first spec whose entrypoint equals the fixed path; APISpecNotFound iff none |
| Api.GetApiSpecByDirnamePath | clyjin/modules/api/__init__.py:99-112 | the first spec whose entrypoint's POSIX dirname equals the fixed path; APISpecNotFound iff none |
| Api.LastSlashEnd | clyjin/modules/api/__init__.py:108 | one past the last `/`, or 0 without one; nothing after it is a `/` |
| Api.Dirname | clyjin/modules/api/__init__.py:108 | POSIX `os.path.dirname`: the head up to the last `/`, trailing slashes removed unless the head is all slashes; stated by `Api.DirnameOfSlashRun`, `Api.DirnameOfJoin` and `Api.DirnameOfBareName` |
| Api.RStripSlashes | clyjin/modules/api/__init__.py:108 | a prefix of the input that does not end in `/`, with only slashes removed |
| Api.DirnameOfJoin | clyjin/modules/api/__init__.py:108 | the dirname of `d/f` is `d` for a file name `f` and a directory `d` not ending in `/` |
| Api.DirnameOfBareName | clyjin/modules/api/__init__.py:108 | a path without `/` has the empty dirname |
| Api.DirnameOfSlashRun | clyjin/modules/api/__init__.py:108 | for a file name after a run of one or more slashes, the dirname is the part before the run when that part is non-empty and does not end in `/`, and the run itself when nothing precedes it |
| Api.RStripBeforeRun | clyjin/modules/api/__init__.py:108 | stripping trailing slashes from `d` followed by slashes gives `d` back when `d` does not end in `/` |
| Api.LastSlashAfter | clyjin/modules/api/__init__.py:108 | in `d/f` with a `/`-free file name `f`, the last `/` is the one just before `f`, whatever `d` holds |
| Api.ParseDebugFlag | clyjin/modules/api/__init__.py:127-136 | true iff "-d" or "--debug" is among the arguments |
| Api.ParseBindString | clyjin/modules/api/__init__.py:172-175 | not exactly one `:` is UnpackMismatch; with one `:` the string is accepted iff the text after it is an integer literal, and then the host is the text before it and the port that integer; every other failure is InvalidIntLiteral |
| Api.BindStringBadPort | clyjin/modules/api/__init__.py:172-175 | `host:port` with a port that is not an integer literal is InvalidIntLiteral |
| Api.BindStringRoundTrip | clyjin/modules/api/__init__.py:172-175 | `host:port` built from a colon-free host and a decimal port parses back to that host and port |
| Api.BindAfter | clyjin/modules/api/__init__.py:179 | the token after the flag is parsed; a flag in last position is IndexOutOfRange |
| Api.ParseBindedHostPort | clyjin/modules/api/__init__.py:171-181 | no bind flag gives 0.0.0.0:5000; "-b" wins over "--bind"; the token after the flag's first occurrence decides |
| Api.ReplaceDoubleSlash | clyjin/modules/api/__init__.py:210 | `replace("//", "/")`, a left-to-right scan; its meaning is given by the three lemmas below |
| Api.ReplaceFirstDoubleSlash | clyjin/modules/api/__init__.py:210 | for a prefix with no "//" that does not end in `/`, so that the next "//" is the first one, that "//" becomes "/" and the scan resumes after it; replacements do not overlap ("///" gives "//") |
| Api.RawDoubleSlashExample | clyjin/modules/api/__init__.py:210 | "/raw//x" becomes "/raw/x" |
| Api.NoDoubleSlashTail | clyjin/modules/api/__init__.py:210 | dropping the first character of a string without "//" leaves a string without "//" |
| Api.RawWithoutSlash | clyjin/modules/api/__init__.py:204-210 | the prefix "/raw" contributes "raw" once slashes are removed |
| Api.ReplaceWithoutDoubleSlash | clyjin/modules/api/__init__.py:204-210 | the replacement leaves a string without "//" unchanged |
| Api.ReplaceKeepsNonSlashes | clyjin/modules/api/__init__.py:204-210 | the replacement removes slashes only and keeps every other character in order |
| Api.SwaggerUrl | clyjin/modules/api/__init__.py:204-210 | fails iff the spec is not found; otherwise, slashes aside, the URL is "raw" followed by the entrypoint |
| Api.SwaggerUrlOfAbsolutePath | clyjin/modules/api/__init__.py:204-210 | for an entrypoint without "//" the URL is exactly "/raw" + entrypoint |
| Util.ConvertStringToBool | clyjin/util/__init__.py:7-31 | no error iff the string is one of "true", "1", "false", "0"; the value is true iff it is "true" or "1"; any other string is UnconvertableString of itself |
| Util.ConvertRendered | clyjin/util/__init__.py:26-29 | "true"/"false" and "1"/"0" convert to the bool they spell |
| Util.ConvertIsExact | clyjin/util/__init__.py:26-31 | "True", " true" and "yes" are errors: matching is exact |
| StringUtils.LowerRun | clyjin/utils/string.py:17 | the length of the longest lower-case prefix (the `[a-z]+` of the first pattern) |
| StringUtils.SplitWords | clyjin/utils/string.py:17 | the first substitution, `(.)([A-Z][a-z]+)` to `\1_\2`, as a left-to-right scan; stated by the lemmas below |
| StringUtils.MergeUnderscores | clyjin/utils/string.py:18 | the second substitution, `__([A-Z])` to `_\1`; stated by the lemmas below |
| StringUtils.SplitCamel | clyjin/utils/string.py:19 | the third substitution, `([a-z0-9])([A-Z])` to `\1_\2`; stated by the lemmas below |
| StringUtils.Snakefy | clyjin/utils/string.py:4-20 | the result has no upper-case ASCII letter |
| StringUtils.SplitWordsNoUpper | clyjin/utils/string.py:17 | the first substitution leaves a string without upper-case letters unchanged |
| StringUtils.MergeUnderscoresNoUpper | clyjin/utils/string.py:18 | so does the second |
| StringUtils.SplitCamelNoUpper | clyjin/utils/string.py:19 | so does the third |
| StringUtils.SnakefyNoUpper | clyjin/utils/string.py:17-20 | an input without upper-case letters is returned unchanged |
| StringUtils.SnakefyIdempotent | clyjin/utils/string.py:17-20 | snakefying twice is snakefying once |
| StringUtils.SplitWordsUnderscoresOnly | clyjin/utils/string.py:17 | the first substitution only inserts underscores |
| StringUtils.DropInserted | clyjin/utils/string.py:17 | an inserted underscore vanishes when underscores are removed |
| StringUtils.MergeUnderscoresUnderscoresOnly | clyjin/utils/string.py:18 | the second substitution only removes underscores |
| StringUtils.SplitCamelUnderscoresOnly | clyjin/utils/string.py:19 | the third substitution only inserts underscores |
| StringUtils.LowerAppend | clyjin/utils/string.py:20 | lower-casing works character by character, so it distributes over concatenation |
| StringUtils.LowerRemoveUnderscores | clyjin/utils/string.py:20 | lower-casing commutes with removing underscores |
| StringUtils.SnakefyUnderscoresOnly | clyjin/utils/string.py:17-20 | without underscores, the output equals the lower-cased input without underscores |
| StringUtils.SplitCamelHead | clyjin/utils/string.py:19 | the third substitution keeps the first character |
| StringUtils.SplitCamelSeparates | clyjin/utils/string.py:19 | after the third substitution no lower-case letter or digit is followed by an upper-case letter |
| StringUtils.MergeUnderscoresWithoutDouble | clyjin/utils/string.py:18 | a string without "__" is left unchanged by the second substitution |
| StringUtils.SplitCamelWithoutBoundary | clyjin/utils/string.py:19 | a string without a lower/digit-then-upper boundary is left unchanged by the third substitution |
| StringUtils.LowerRunAll | clyjin/utils/string.py:17 | an all-lower-case word is one whole run |
| StringUtils.SplitWordsFinalWord | clyjin/utils/string.py:17 | a capitalised final word after a prefix with no word start is split off by one underscore |
| StringUtils.AcronymThenWord | clyjin/utils/string.py:17 | an acronym followed by a capitalised word is split before the word |
| StringUtils.DonutShopWordSplit | clyjin/utils/string.py:17 | "DonutShop" becomes "Donut_Shop" after the first substitution |
| StringUtils.DonutShopNoDoubleUnderscore | clyjin/utils/string.py:18 | the second substitution leaves "Donut_Shop" alone |
| StringUtils.DonutShopNoCamelBoundary | clyjin/utils/string.py:19 | the third substitution leaves "Donut_Shop" alone |
| StringUtils.DonutShopLowered | clyjin/utils/string.py:20 | "Donut_Shop" lower-cases to "donut_shop" |
| StringUtils.SnakefyDonutShop | clyjin/utils/string.py:17-20 | "DonutShop" snakefies to "donut_shop" |
| StringUtils.HTTPResponseWordSplit | clyjin/utils/string.py:17 | "HTTPResponse" becomes "HTTP_Response" after the first substitution |
| StringUtils.HTTPResponseNoDoubleUnderscore | clyjin/utils/string.py:18 | the second substitution leaves "HTTP_Response" alone |
| StringUtils.HTTPResponseNoCamelBoundary | clyjin/utils/string.py:19 | the third substitution leaves "HTTP_Response" alone |
| StringUtils.HTTPResponseLowered | clyjin/utils/string.py:20 | "HTTP_Response" lower-cases to "http_response" |
| StringUtils.SnakefyHTTPResponse | clyjin/utils/string.py:17-20 | "HTTPResponse" snakefies to "http_response" |
| Log.ColorizeLevel | clyjin/core/log.py:69-85 | no error iff the level is one of the five names, and then the level wrapped in its colour tag; otherwise the empty string and UnrecognizedLevel |
| Log.ColorizeIsCaseSensitive | clyjin/core/log.py:72-83 | "debug" is not recognised |
| Log.HasErr | clyjin/core/log.py:48 | `extra["err"]` is set and truthy (a non-empty string) |
| Log.Source | clyjin/core/log.py:46-51 | the source segment `name.function`, then `.err` when the record carries an error |
| Log.SourceSplits | clyjin/core/log.py:46-51 | for dot-free parts, the source segment splits back into name, function and, when truthy, the error |
| Log.FormatLog | clyjin/core/log.py:45-67 | the appended-then-joined source list gives `name.function[.err]`, and the line is `[src / level] message` and a newline; an unrecognised level leaves the level segment empty |
| Text.ToLower | clyjin/utils/string.py:20 | a lower-cased character is not upper-case; only upper-case letters change |
| Text.Lower | clyjin/utils/string.py:20 | `lower()` maps each character by itself and keeps the length |
| Text.LowerNoUpper | clyjin/utils/string.py:20 | a lower-cased string has no upper-case letter, and one without any is unchanged |
| Text.LStrip | clyjin/base/plugin.py:60 | a suffix of the input whose dropped prefix is all whitespace and which does not start with whitespace |
| Text.RStrip | clyjin/base/plugin.py:60 | a prefix of the input whose dropped suffix is all whitespace and which does not end with whitespace |
| Text.Strip | clyjin/base/plugin.py:60 | `strip()` as `rstrip` after `lstrip`; stated by `Text.StripIsStripped` and `Text.StrippedFixed` |
| Text.Normalize | clyjin/base/module.py:115 | `strip().lower()`, the normalisation of plugin and module names; stated by `Text.NormalizeShape` and `Text.NormalizeIdempotent` |
| Text.StripIsStripped | clyjin/base/plugin.py:60 | a stripped string starts and ends with non-whitespace |
| Text.StrippedFixed | clyjin/base/plugin.py:60 | stripping a stripped string changes nothing |
| Text.NormalizeShape | clyjin/base/plugin.py:60 | a normalised name has no upper-case letter and no surrounding whitespace |
| Text.NormalizeIdempotent | clyjin/base/plugin.py:60 | normalising twice is normalising once |
| Text.Join | clyjin/core/log.py:51 | `sep.join(parts)` |
| Text.Split | clyjin/modules/api/__init__.py:173 | `s.split(c)` for one separator character, always at least one part; stated by the split lemmas below |
| Text.SplitCount | clyjin/modules/api/__init__.py:173 | splitting on `c` gives one more part than there are `c`s |
| Text.SplitPartsFree | clyjin/modules/api/__init__.py:173 | no part contains the separator |
| Text.JoinSplit | clyjin/core/log.py:51 | joining the parts with the separator gives the string back |
| Text.SplitWithout | clyjin/modules/api/__init__.py:173 | a string without the separator is one part |
| Text.SplitPair | clyjin/modules/api/__init__.py:173 | `a:b` with separator-free parts splits into exactly those two |
| Text.SplitCons | clyjin/core/log.py:51 | a separator-free head splits off as the first part |
| Text.SplitHead | clyjin/base/plugin.py:142 | the first part of `a.b` is `a` when `a` has no `.` |
| Text.RemoveCharSubset | clyjin/utils/string.py:17-19 | removing a character leaves none of it, and only characters of the input |
| Text.RemoveCharAbsent | clyjin/utils/string.py:17-19 | removing an absent character changes nothing |
| Text.RemoveCharAppend | clyjin/utils/string.py:17-19 | removing a character distributes over concatenation |
| Text.DigitGroupDigits | clyjin/modules/api/__init__.py:174 | a digit group with its joining underscores removed is all digits |
| Text.ParseInt | clyjin/modules/api/__init__.py:174 | every failure of `int()` is InvalidIntLiteral |
| Text.DecimalString | clyjin/modules/api/__init__.py:174 | `str(n)` is a non-empty string of digits |
| Text.DecimalStringValue | clyjin/modules/api/__init__.py:174 | the digits of `str(n)` have the value n |
| Text.ParseIntDecimal | clyjin/modules/api/__init__.py:174 | `int(str(n)) == n` |
| Seqs.FindFirst | clyjin/modules/api/__init__.py:81 | the index of the first element satisfying the predicate, or None iff there is none |
| Seqs.IndexOf | clyjin/modules/api/__init__.py:179 | `list.index`: the first position of the element, or None iff it is absent |

## Left out

- argparse itself is not modelled: tokenising, help output, usage errors and exits, and its own validation in `add_argument` (for instance `dest` on a positional). The generator is modelled only as the record of the calls it makes.
- `get_external_name`, which the generator calls on each module class, is not defined in the module file. The subparser name therefore comes in as a function parameter; `Plugins.Plugin.GetNamespacedModuleName` is the natural one.
- `clyjin/core/cli/parser.py` is not part of this model: its `parse` stops before returning and `_get_module_args` has no body.
- `clyjin/core/boot.py` and its test are not part of this model. The boot is asynchronous orchestration around the parser.
- I/O and the process environment are left out:
  - `init_logger`, which reads environment variables and configures sinks;
  - the diagnostic `print` in `_format_log`;
  - `_parse_api_specs`, which reads files and YAML;
  - `_run_app`, the Flask server, except the Swagger URL expression;
  - the version-file readers, `setup.py` and `__main__`.
- pydantic internals (`model_dump`, `parse_obj`, generic models) are left out. An argument set is a sequence of (key, descriptor) pairs in insertion order.
- The text of error messages in `clyjin/base/errors.py` is left out. Each error is a distinct variant. The mismatch between the `get_str` those messages call and the `cls_get_str` a module class defines is outside the model.
- CONFIG_CLASS, and a module's configuration object beyond being stored, are left out. The configuration file is never parsed in the code either.
- Text handling is ASCII only: `strip()`, `lower()`, `int()` and the regex classes cover no Unicode case mapping, whitespace or digits.
- A log record's `extra["err"]` is taken to be a string. Another truthy object would make `join` raise a TypeError, and the model does not cover that case.
- Two modules given the same external name would clash inside argparse; the model records both subparsers.
- Text.ParseInt: its contract states only the error kind. Which strings are accepted is given by its body (optional sign, digits with single underscores between digits, surrounding whitespace), and `Text.ParseIntDecimal` is its partner.
- Api.SwaggerUrl: its contract states the URL up to slashes. The exact result is `ReplaceDoubleSlash("/raw" + entrypoint)`. `Api.ReplaceFirstDoubleSlash` rewrites the first "//" of any string that has one, then leaves the rest to the same replacement, and `Api.ReplaceWithoutDoubleSlash` covers a rest with no "//". `Api.ReplaceKeepsNonSlashes` says nothing else changes, and `Api.SwaggerUrlOfAbsolutePath` gives the exact URL for an entrypoint without "//".
- StringUtils.Snakefy: the three regular-expression substitutions are modelled as three recursive scans with their own lemmas, not as a regex engine. The exact output of the whole conversion is proved for the two documented examples only; `StringUtils.SplitWordsFinalWord` and `StringUtils.AcronymThenWord` give the exact output of the first substitution for general word shapes.
- Generator.BuiltinSettings: its contract states the set of keys only. The value under each key is stated by `Generator.TranslateKeywords` and `Generator.TranslateTypeAndRequired`.
