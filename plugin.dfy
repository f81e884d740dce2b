/**
 * Plugin descriptors: the class-level registry record of a plugin (NAME,
 * MODULE_CLASSES, VERSION) and its root-module slot.
 */
module Plugins {
  import opened Errors
  import opened PyValues
  import opened Text
  import opened Modules

  /** The MODULE_CLASSES attribute: unset, a list of module classes, or some other object. */
  datatype ModuleClassesAttr = ClassesNone | ClassesList(classes: seq<ModuleClass>) | ClassesOther

  /** The subcommand name of a module: the plugin name alone for the root module. */
  function Namespaced(pluginName: string, moduleName: string): string {
    if moduleName == RootName then pluginName else pluginName + "." + moduleName
  }

  /**
   * Namespaced names are unambiguous: as long as plugin names contain no
   * `.`, two (plugin, module) pairs share a subcommand name only when they
   * name the same plugin and the same module (counting every root module as
   * `_root`).
   */
  lemma NamespacedInjective(p1: string, m1: string, p2: string, m2: string)
    requires '.' !in p1 && '.' !in p2
    requires Namespaced(p1, m1) == Namespaced(p2, m2)
    ensures p1 == p2 && m1 == m2
  {
    var n := Namespaced(p1, m1);
    if m1 != RootName && m2 != RootName {
      SplitHead(p1, m1, '.');
      SplitHead(p2, m2, '.');
      assert p1 == p2;
      assert m1 == n[|p1| + 1..] == m2;
    }
  }

  /** A namespaced name splits on `.` into the plugin name and, for a non-root module, the module name. */
  lemma NamespacedSplits(pluginName: string, moduleName: string)
    requires '.' !in pluginName && '.' !in moduleName
    ensures Split(Namespaced(pluginName, moduleName), '.') ==
            if moduleName == RootName then [pluginName] else [pluginName, moduleName]
  {
    if moduleName == RootName {
      SplitWithout(pluginName, '.');
    } else {
      SplitPair(pluginName, moduleName, '.');
    }
  }

  /**
   * A `Plugin` subclass. It is only ever used as a class: its attributes are
   * fixed when it is defined and the only state is the `_RootModule` slot.
   */
  class Plugin {
    const name: PyAttr                          // NAME
    const moduleClasses: ModuleClassesAttr      // MODULE_CLASSES
    const version: PyAttr                       // VERSION
    var rootModule: Option<ModuleClass>         // _RootModule

    constructor (name: PyAttr, moduleClasses: ModuleClassesAttr, version: PyAttr := PyNone)
      ensures this.name == name && this.moduleClasses == moduleClasses && this.version == version
      ensures rootModule == None
    {
      this.name := name;
      this.moduleClasses := moduleClasses;
      this.version := version;
      this.rootModule := None;
    }

    /** `get_name`: NAME must be a string; it is trimmed and lower-cased. */
    function GetName(): (r: Result<string>)
      ensures name.PyNone? <==> r == Err(PleaseDefine("NAME"))
      ensures name.PyOther? <==> r == Err(ExpectedType(ExpectedStr))
      ensures name.PyStr? <==> r.Ok?
      ensures r.Ok? ==> r.value == Normalize(name.s) && NoUpper(r.value) && IsStripped(r.value)
    {
      match name
      case PyNone => Err(PleaseDefine("NAME"))
      case PyOther => Err(ExpectedType(ExpectedStr))
      case PyStr(s) =>
        NormalizeShape(s);
        Ok(Normalize(s))
    }

    /**
     * `get_module_classes`: unset, not a list, and empty are three distinct errors, checked in that order.
     * Building the empty-list error describes the plugin with `get_str`, so a bad NAME or VERSION
     * surfaces instead of the empty-list error.
     */
    function GetModuleClasses(): (r: Result<seq<ModuleClass>>)
      ensures moduleClasses.ClassesNone? <==> r == Err(PleaseDefine("MODULE_CLASSES"))
      ensures moduleClasses.ClassesOther? <==> r == Err(ExpectedType(ExpectedList))
      ensures moduleClasses == ClassesList([]) ==>
                r == Err(if GetStr().Err? then GetStr().error else NoModulesPlugin)
      ensures r == Err(NoModulesPlugin) <==> moduleClasses == ClassesList([]) && GetStr().Ok?
      ensures r.Ok? <==> moduleClasses.ClassesList? && moduleClasses.classes != []
      ensures r.Ok? ==> r.value == moduleClasses.classes
    {
      match moduleClasses
      case ClassesNone => Err(PleaseDefine("MODULE_CLASSES"))
      case ClassesOther => Err(ExpectedType(ExpectedList))
      case ClassesList(cs) =>
        if |cs| == 0 then Err(if GetStr().Err? then GetStr().error else NoModulesPlugin) else Ok(cs)
    }

    /** `get_version`: an unset VERSION reads "unversioned"; a string is returned untouched. */
    function GetVersion(): (r: Result<string>)
      ensures version.PyNone? ==> r == Ok("unversioned")
      ensures version.PyOther? <==> r == Err(ExpectedType(ExpectedStr))
      ensures version.PyStr? ==> r == Ok(version.s)
    {
      match version
      case PyNone => Ok("unversioned")
      case PyOther => Err(ExpectedType(ExpectedStr))
      case PyStr(s) => Ok(s)
    }

    /** `get_str`: "Plugin Class <name>, version <version>"; the name is checked first. */
    function GetStr(): (r: Result<string>)
      ensures GetName().Err? ==> r == Err(GetName().error)
      ensures GetName().Ok? && GetVersion().Err? ==> r == Err(GetVersion().error)
      ensures r.Ok? ==> r.value == "Plugin Class <" + GetName().value + ">, version <" + GetVersion().value + ">"
    {
      match GetName()
      case Err(e) => Err(e)
      case Ok(n) =>
        match GetVersion()
        case Err(e) => Err(e)
        case Ok(v) => Ok("Plugin Class <" + n + ">, version <" + v + ">")
    }

    /** `_check_has_module`: the module must be one of MODULE_CLASSES (by identity). */
    function CheckHasModule(m: ModuleClass): (o: Outcome)
      ensures GetModuleClasses().Err? ==> o == Fail(GetModuleClasses().error)
      ensures GetModuleClasses().Ok? ==>
                (o == Pass <==> m in GetModuleClasses().value) &&
                (o != Pass ==> o == Fail(ForeignModulePlugin))
    {
      match GetModuleClasses()
      case Err(e) => Fail(e)
      case Ok(cs) => if m in cs then Pass else Fail(ForeignModulePlugin)
    }

    /** The namespaced subcommand name for a module name, failing as `GetName` fails. */
    function NamespacedFor(moduleName: string): (r: Result<string>)
      ensures GetName().Err? ==> r == Err(GetName().error)
      ensures GetName().Ok? ==> r == Ok(Namespaced(GetName().value, moduleName))
    {
      match GetName()
      case Err(e) => Err(e)
      case Ok(p) => Ok(Namespaced(p, moduleName))
    }

    /**
     * `_set_root_module_class`: record the root module. Recording the class
     * already recorded is harmless; a different one is rejected and the slot
     * keeps its class.
     */
    method SetRootModuleClass(m: ModuleClass) returns (o: Outcome)
      modifies this`rootModule
      ensures old(rootModule).Some? && old(rootModule).value != m ==>
                o == Fail(DuplicateRootModulePlugin) && rootModule == old(rootModule)
      ensures old(rootModule) == None || old(rootModule) == Some(m) ==>
                o == Pass && rootModule == Some(m)
    {
      if rootModule.Some? && rootModule.value != m {
        return Fail(DuplicateRootModulePlugin);
      }
      rootModule := Some(m);
      o := Pass;
    }

    /**
     * `_get_namespaced_module_name_nocheck`: a module named `_root` becomes
     * the root module and is reached by the plugin name alone; any other
     * module is `plugin.module` and leaves the root slot alone.
     */
    method GetNamespacedModuleNameNoCheck(m: ModuleClass) returns (r: Result<string>)
      modifies this`rootModule
      ensures m.ClsGetName().Err? ==> r == Err(m.ClsGetName().error) && rootModule == old(rootModule)
      ensures m.ClsGetName().Ok? && m.ClsGetName().value != RootName ==>
                r == NamespacedFor(m.ClsGetName().value) && rootModule == old(rootModule)
      ensures m.ClsGetName() == Ok(RootName) ==>
                if old(rootModule).Some? && old(rootModule).value != m
                then r == Err(DuplicateRootModulePlugin) && rootModule == old(rootModule)
                else r == NamespacedFor(RootName) && rootModule == Some(m)
    {
      var moduleName := m.ClsGetName();
      if moduleName.Err? {
        return Err(moduleName.error);
      }
      if moduleName.value == RootName {
        var o := SetRootModuleClass(m);
        if o.Fail? {
          return Err(o.error);
        }
        return GetName();
      }
      var pluginName := GetName();
      if pluginName.Err? {
        return Err(pluginName.error);
      }
      r := Ok(pluginName.value + "." + moduleName.value);
    }

    /**
     * `get_namespaced_module_name`: membership is checked first, so a
     * foreign module is rejected before its name is read or the root slot
     * is touched.
     */
    method GetNamespacedModuleName(m: ModuleClass) returns (r: Result<string>)
      modifies this`rootModule
      ensures CheckHasModule(m).Fail? ==> r == Err(CheckHasModule(m).error) && rootModule == old(rootModule)
      ensures CheckHasModule(m) == Pass && m.ClsGetName().Err? ==>
                r == Err(m.ClsGetName().error) && rootModule == old(rootModule)
      ensures CheckHasModule(m) == Pass && m.ClsGetName().Ok? && m.ClsGetName().value != RootName ==>
                r == NamespacedFor(m.ClsGetName().value) && rootModule == old(rootModule)
      ensures CheckHasModule(m) == Pass && m.ClsGetName() == Ok(RootName) ==>
                if old(rootModule).Some? && old(rootModule).value != m
                then r == Err(DuplicateRootModulePlugin) && rootModule == old(rootModule)
                else r == NamespacedFor(RootName) && rootModule == Some(m)
    {
      var check := CheckHasModule(m);
      if check.Fail? {
        return Err(check.error);
      }
      r := GetNamespacedModuleNameNoCheck(m);
    }

    /** No module before position `i` fails to report its name or carries the name `name`. */
    predicate NoMatchBefore(cs: seq<ModuleClass>, i: nat, name: string)
      requires i <= |cs|
    {
      forall j :: 0 <= j < i ==> cs[j].ClsGetName().Ok? && cs[j].ClsGetName().value != name
    }

    /**
     * The loop of `get_module_class`: the first module class whose name is
     * `name`, the error of the first module whose name cannot be read, or
     * `None` when the whole list was scanned without either.
     */
    method FindModuleClass(cs: seq<ModuleClass>, name: string) returns (r: Option<Result<ModuleClass>>)
      ensures r.None? <==> NoMatchBefore(cs, |cs|, name)
      ensures r.Some? && r.value.Ok? ==>
                exists i :: 0 <= i < |cs| && cs[i] == r.value.value &&
                            cs[i].ClsGetName() == Ok(name) && NoMatchBefore(cs, i, name)
      ensures r.Some? && r.value.Err? ==>
                exists i :: 0 <= i < |cs| && cs[i].ClsGetName() == Err(r.value.error) && NoMatchBefore(cs, i, name)
    {
      var i := 0;
      while i < |cs|
        invariant 0 <= i <= |cs|
        invariant NoMatchBefore(cs, i, name)
      {
        var moduleName := cs[i].ClsGetName();
        if moduleName.Err? {
          assert !NoMatchBefore(cs, |cs|, name) by { assert !cs[i].ClsGetName().Ok?; }
          return Some(Err(moduleName.error));
        }
        if moduleName.value == name {
          assert !NoMatchBefore(cs, |cs|, name) by { assert cs[i].ClsGetName().value == name; }
          return Some(Ok(cs[i]));
        }
        i := i + 1;
      }
      r := None;
    }

    /**
     * `get_module_class`: the first module class, in list order, whose
     * normalised name equals `name` exactly. The search stops at the first
     * module whose name cannot be read, and `name` itself is not
     * normalised, so a name with upper-case letters or surrounding
     * whitespace is never found. When nothing matches, the plugin's own
     * description is built for the error, and its failure wins.
     */
    method GetModuleClass(name: string) returns (r: Result<ModuleClass>)
      ensures GetModuleClasses().Err? ==> r == Err(GetModuleClasses().error)
      ensures GetModuleClasses().Ok? && r.Ok? ==>
                var cs := GetModuleClasses().value;
                exists i :: 0 <= i < |cs| && cs[i] == r.value &&
                            cs[i].ClsGetName() == Ok(name) && NoMatchBefore(cs, i, name)
      ensures GetModuleClasses().Ok? && r.Err? ==>
                var cs := GetModuleClasses().value;
                (NoMatchBefore(cs, |cs|, name) && GetStr().Err? && r.error == GetStr().error) ||
                (NoMatchBefore(cs, |cs|, name) && GetStr().Ok? && r.error == NotFound("module class with namespaced name", name)) ||
                (exists i :: 0 <= i < |cs| && cs[i].ClsGetName() == Err(r.error) && NoMatchBefore(cs, i, name))
      ensures GetModuleClasses().Ok? && NoMatchBefore(GetModuleClasses().value, |GetModuleClasses().value|, name) ==>
                r == Err(if GetStr().Err? then GetStr().error else NotFound("module class with namespaced name", name))
      ensures Normalize(name) != name ==> r.Err?
    {
      var classes := GetModuleClasses();
      if classes.Err? {
        return Err(classes.error);
      }
      var found := FindModuleClass(classes.value, name);
      if found.Some? {
        return found.value;
      }
      var description := GetStr();
      if description.Err? {
        return Err(description.error);
      }
      r := Err(NotFound("module class with namespaced name", name));
    }
  }
}
