/**
 * `import_string` (aiohttp_runserver/common.py): split a dotted path at its
 * last dot, import the module, fetch the attribute, and report the directory
 * the module's file lives in. Importing is a lookup in a given table of
 * modules; the working directory is a parameter.
 */
module Common {
  import opened Wrappers
  import opened Text
  import opened Paths

  /** An importable module: its attributes and its `__file__` (`None` when it has none). */
  datatype Module<A> = Module(attributes: map<string, A>, file: Option<string>)

  datatype ImportFailure =
    | NotAModulePath(dotted: string)                          // ImportError, no dot
    | ModuleNotImported(modulePath: string)                   // raised by the import itself
    | AttributeMissing(modulePath: string, className: string) // ImportError, no such attribute
    | NoModuleFile(modulePath: string)                        // the module has no file

  /**
   * The messages of the two `ImportError`s the function raises itself: the
   * first starts with the rejected path, the second quotes the module path
   * and then the missing name.
   */
  function Message(f: ImportFailure): (r: string)
    requires f.NotAModulePath? || f.AttributeMissing?
    ensures f.NotAModulePath? ==> |r| > |f.dotted| && r[..|f.dotted|] == f.dotted
    ensures f.AttributeMissing? ==>
      exists i, j :: && OccursAt(r, "\"" + f.modulePath + "\"", i)
                     && OccursAt(r, "\"" + f.className + "\"", j)
                     && i + |f.modulePath| + 2 <= j
  {
    match f
    case NotAModulePath(dotted) => dotted + " doesn't look like a module path"
    case AttributeMissing(m, c) =>
      var head := "Module ";
      var middle := " does not define a ";
      var qm := "\"" + m + "\"";
      var qc := "\"" + c + "\"";
      var r := head + qm + middle + qc + " attribute/class";
      assert OccursAt(r, qm, |head|);
      assert OccursAt(r, qc, |head| + |qm| + |middle|);
      r
  }

  /** Every `ImportError` that `import_string` raises itself names what the caller asked for. */
  lemma FailureMessageNamesInput<A>(dotted: string, modules: map<string, Module<A>>, cwd: Path)
    requires ImportString(dotted, modules, cwd).Failure?
    ensures var f := ImportString(dotted, modules, cwd).error;
      f.NotAModulePath? ==> Message(f)[..|dotted|] == dotted
    ensures var f := ImportString(dotted, modules, cwd).error;
      f.AttributeMissing? ==>
        (&& f.modulePath + "." + f.className == dotted
         && Contains(Message(f), "\"" + f.modulePath + "\"")
         && Contains(Message(f), "\"" + f.className + "\""))
  {
    var f := ImportString(dotted, modules, cwd).error;
    if f.AttributeMissing? {
      var msg := Message(f);
      var i, j :| && OccursAt(msg, "\"" + f.modulePath + "\"", i)
                  && OccursAt(msg, "\"" + f.className + "\"", j)
                  && i + |f.modulePath| + 2 <= j;
      assert Contains(msg, "\"" + f.modulePath + "\"");
      assert Contains(msg, "\"" + f.className + "\"");
    }
  }

  /** `dotted.rsplit('.', 1)` unpacked into two names: `None` where the unpacking fails. */
  function SplitDotted(dotted: string): (r: Option<(string, string)>)
    ensures r.None? <==> '.' !in dotted
    ensures r.Some? ==> r.value.0 + "." + r.value.1 == dotted && '.' !in r.value.1
  {
    match LastIndexOf(dotted, '.')
    case None => None
    case Some(k) =>
      assert dotted[..k] + "." + dotted[k + 1..] == dotted by {
        assert dotted == dotted[..k] + [dotted[k]] + dotted[k + 1..];
      }
      Some((dotted[..k], dotted[k + 1..]))
  }

  /** Joining a module path and a dot-free name and splitting again gives both back. */
  lemma SplitJoin(modulePath: string, className: string)
    requires '.' !in className
    ensures SplitDotted(modulePath + "." + className) == Some((modulePath, className))
  {
    var s := modulePath + "." + className;
    var k := LastIndexOf(s, '.').value;
    assert s[|modulePath|] == '.';
    assert s[|modulePath| + 1..] == className;
    assert k == |modulePath|;
    assert s[..k] == modulePath;
    assert s[k + 1..] == className;
  }

  /**
   * `import_string(dotted)` against the importable `modules`, with `cwd` the
   * working directory: the attribute and the absolute directory of the
   * module's file.
   */
  function ImportString<A>(dotted: string, modules: map<string, Module<A>>, cwd: Path): (r: Result<(A, Path), ImportFailure>)
    ensures '.' !in dotted ==> r == Failure(NotAModulePath(dotted))
    ensures r.Success? ==>
      var (m, c) := SplitDotted(dotted).value;
      && m in modules && c in modules[m].attributes && modules[m].file.Some?
      && r.value.0 == modules[m].attributes[c]
      && r.value.1 == Parent(Absolute(Parse(modules[m].file.value), cwd))
    ensures r.Failure? && '.' in dotted ==>
      var (m, c) := SplitDotted(dotted).value;
      r.error == (if m !in modules then ModuleNotImported(m)
                  else if c !in modules[m].attributes then AttributeMissing(m, c)
                  else NoModuleFile(m))
  {
    match SplitDotted(dotted)
    case None => Failure(NotAModulePath(dotted))
    case Some((modulePath, className)) =>
      if modulePath !in modules then Failure(ModuleNotImported(modulePath))
      else
        var mod := modules[modulePath];
        if className !in mod.attributes then Failure(AttributeMissing(modulePath, className))
        else if mod.file.None? then Failure(NoModuleFile(modulePath))
        else Success((mod.attributes[className], Parent(Absolute(Parse(mod.file.value), cwd))))
  }

  /** The reported directory contains the module's file: joining the file's name to it gives the file's absolute path. */
  lemma DirectoryHoldsModuleFile<A>(dotted: string, modules: map<string, Module<A>>, cwd: Path)
    requires ImportString(dotted, modules, cwd).Success?
    ensures var (m, _) := SplitDotted(dotted).value;
      var file := Absolute(Parse(modules[m].file.value), cwd);
      |file.parts| > 0 ==>
        Joinpath(ImportString(dotted, modules, cwd).value.1, Path(false, [file.parts[|file.parts| - 1]])) == file
  {
  }
}
