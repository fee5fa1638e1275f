/**
  The per-distribution driver of `alnair/distribution.py`: it turns package
  arguments into Package objects (loading recipes from a recipe store),
  chooses the install command, issues one install command line, replays the
  config uploads and the `after` commands, and defers that replay to the end
  of a batch scope (`with dist: ...`).
 */
module Distributions {
  import opened Results
  import opened Text
  import opened Errors
  import opened Remote
  import opened Packages
  import opened Replay

  // ----- The recipe files under CONFIG_DIR -----

  /** A module-level value of a recipe file. */
  datatype Value =
    | PackageValue(pkg: Package)   // an instance of Package
    | PlainValue(text: string)     // anything else, with the text `'%s' %` renders it as

  /** A recipe file once loaded: its module-level names. */
  datatype Recipe = Recipe(names: map<string, Value>)

  /**
    The recipe tree: whether CONFIG_DIR exists, and the loaded contents of the
    file `<distribution>/<module>.py` for each (distribution, module) whose
    file exists.
   */
  datatype Store = Store(configDirExists: bool, files: map<(string, string), Recipe>)

  predicate FileExists(store: Store, key: (string, string)) {
    store.configDirExists && key in store.files
  }

  /** How `'%s'` renders a Package object (the object address is left out). */
  const PackageRepr: string := "<alnair.package.Package object>"

  function Show(v: Value): string {
    match v
    case PackageValue(_) => PackageRepr
    case PlainValue(t) => t
  }

  // ----- Package arguments -----

  /** One element of the list handed to `get_packages`. */
  datatype Item =
    | Name(name: string)  // a string: a package name to load
    | Pkg(pkg: Package)   // a Package instance
    | OtherItem           // anything else: an int, None, a list, a dict

  /** The `pkgs` argument of `install`: a value with `__iter__` (a list, a tuple, a dict) or a single value. */
  datatype PkgsArg = Iterable(items: seq<Item>) | Single(item: Item)

  /** The list `install` hands to `get_packages`: the extra positional args, then `pkgs`. */
  function InstallItems(pkgs: PkgsArg, args: seq<Item>): (r: seq<Item>)
    ensures |args| <= |r| && r[..|args|] == args
    ensures pkgs.Iterable? ==> r[|args|..] == pkgs.items
    ensures pkgs.Single? ==> r[|args|..] == [pkgs.item]
  {
    match pkgs
    case Iterable(items) => args + items
    case Single(item) => args + [item]
  }

  /** Python truthiness of an optional string: neither None nor empty. */
  predicate Truthy(s: Option<string>) {
    s.Some? && s.value != ""
  }

  function Names(ps: seq<Package>): seq<string> {
    seq(|ps|, i requires 0 <= i < |ps| => ps[i].name)
  }

  /** `'%s %s' % (install_command, ' '.join(pkg.name for pkg in packages))`. */
  function InstallLine(installCommand: string, ps: seq<Package>): (r: string)
    ensures |installCommand| < |r| && r[..|installCommand|] == installCommand && r[|installCommand|] == ' '
    ensures r[|installCommand| + 1..] == Join(Names(ps))
  {
    installCommand + " " + Join(Names(ps))
  }

  /** Splitting at a space splits the two sides independently. */
  lemma {:induction false} SplitAtSpace(a: string, b: string)
    ensures Split(a + " " + b) == Split(a) + Split(b)
  {
    if a == [] {
      assert a + " " + b == [' '] + b;
      assert (a + " " + b)[1..] == b;
      SplitEmptyPrefix(b);
    } else {
      assert (a + " " + b)[1..] == a[1..] + " " + b;
      SplitAtSpace(a[1..], b);
    }
  }

  lemma SplitEmptyPrefix(b: string)
    ensures Split([' '] + b) == [""] + Split(b)
  {
    assert ([' '] + b)[1..] == b;
  }

  /**
    The install line, split at its single spaces, is the words of the install
    command followed by the package names in resolution order.  With no
    package the line still ends in the separating space, so it splits into
    the command's words followed by one empty piece.
   */
  lemma InstallLineWords(installCommand: string, ps: seq<Package>)
    requires forall i :: 0 <= i < |ps| ==> ' ' !in ps[i].name
    ensures Split(InstallLine(installCommand, ps)) ==
              Split(installCommand) + if ps == [] then [""] else Names(ps)
  {
    SplitAtSpace(installCommand, Join(Names(ps)));
    if ps != [] {
      SplitJoin(Names(ps));
    }
  }

  /** The line of three packages is the command and the three names, one space apart. */
  lemma InstallLineOfThree(c: string, p1: Package, p2: Package, p3: Package)
    ensures InstallLine(c, [p1, p2, p3]) == c + " " + p1.name + " " + p2.name + " " + p3.name
  {
    assert Names([p1, p2, p3]) == [p1.name, p2.name, p3.name];
    assert [p1.name, p2.name, p3.name][1..] == [p2.name, p3.name];
    assert [p2.name, p3.name][1..] == [p3.name];
    assert Join([p2.name, p3.name]) == p2.name + " " + p3.name;
    assert Join([p1.name, p2.name, p3.name]) == p1.name + " " + (p2.name + " " + p3.name);
  }

  /**
    Three packages named pkg1, pkg2, pkg3 give the line `<command> pkg1 pkg2
    pkg3`, e.g. `test_install_command pkg1 pkg2 pkg3`.
   */
  lemma InstallLineExample(c: string, p1: Package, p2: Package, p3: Package)
    requires p1.name == "pkg1" && p2.name == "pkg2" && p3.name == "pkg3"
    ensures InstallLine(c, [p1, p2, p3]) == c + " pkg1 pkg2 pkg3"
  {
    InstallLineOfThree(c, p1, p2, p3);
    SpacedNames(c);
  }

  lemma SpacedNames(c: string)
    ensures c + " " + "pkg1" + " " + "pkg2" + " " + "pkg3" == c + " pkg1 pkg2 pkg3"
  {
    assert " " + "pkg1" + " " + "pkg2" + " " + "pkg3" == " pkg1 pkg2 pkg3";
    assert c + " " + "pkg1" + " " + "pkg2" + " " + "pkg3" == c + (" " + "pkg1" + " " + "pkg2" + " " + "pkg3");
  }

  // ----- The `after` action -----

  /** The Command object `after` leads to, if it leads to one. */
  ghost function AfterRecorders(after: After): set<Command> {
    if after.value.AfterCommand? then {after.value.cmd} else {}
  }

  // ----- Snapshots of the packages, as `after_install` reads them -----

  /**
    Every package's setup is well formed.  This and the snapshot functions
    below read the whole heap: `after_install` reads every Setup, Config and
    Command object reachable from the packages.
   */
  ghost predicate SetupsValid(ps: seq<Package>)
    reads *
  {
    forall i :: 0 <= i < |ps| ==> ps[i].setup.Valid()
  }

  /** The entries of `s` under `keys`, as `after_install` reads them. */
  ghost function ConfigViews(s: Setup, keys: seq<string>): (r: seq<ConfigView>)
    requires forall j :: 0 <= j < |keys| ==> keys[j] in s.configs
    reads *
    ensures |r| == |keys|
    ensures forall j :: 0 <= j < |keys| ==>
              r[j] == ConfigView(keys[j], s.configs[keys[j]].contents, s.configs[keys[j]].cmd.commands)
  {
    if keys == [] then []
    else
      var c := s.configs[keys[|keys| - 1]];
      ConfigViews(s, keys[..|keys| - 1]) + [ConfigView(keys[|keys| - 1], c.contents, c.cmd.commands)]
  }

  /** A setup as `after_install` reads it: its entries in iteration order and its resolved `after`. */
  ghost function SetupViewOf(s: Setup): SetupView
    requires s.Valid()
    reads *
  {
    SetupView(ConfigViews(s, s.order), Distribution.GetAfterCommands(s.after))
  }

  /** `views[k].configs` is what the config loop reads from package `k`'s setup. */
  ghost predicate ConfigsRead(ps: seq<Package>, views: seq<SetupView>)
    reads *
  {
    && |views| == |ps|
    && forall k :: 0 <= k < |ps| ==>
         ps[k].setup.Valid() && views[k].configs == ConfigViews(ps[k].setup, ps[k].setup.order)
  }

  /** What `after_install` reads of the packages' setups, package by package. */
  ghost function ViewsOf(ps: seq<Package>): (r: seq<SetupView>)
    requires SetupsValid(ps)
    reads *
    ensures |r| == |ps|
  {
    if ps == [] then []
    else
      var n := |ps| - 1;
      ViewsOf(ps[..n]) + [SetupViewOf(ps[n].setup)]
  }

  /** Entry `i` of the snapshot is the snapshot of package `i`'s setup. */
  lemma {:induction false} ViewsOfAt(ps: seq<Package>, i: nat)
    requires SetupsValid(ps) && i < |ps|
    ensures ViewsOf(ps)[i] == SetupViewOf(ps[i].setup)
  {
    var n := |ps| - 1;
    if i < n {
      ViewsOfAt(ps[..n], i);
    }
  }

  class Distribution {
    /** `name`: the distribution, e.g. `archlinux`; recipes live under `<CONFIG_DIR>/<name>/`. */
    const name: string
    /** `install_command`: the install command given to the constructor, if any. */
    const installCommand: Option<string>
    /** `_within_context`: inside a `with` batch scope. */
    var withinContext: bool
    /** `_packages`: the packages resolved by the last `install`. */
    var packages: seq<Package>

    /** `Distribution(name, install_command=None)`. */
    constructor (name: string, installCommand: Option<string> := None)
      ensures this.name == name && this.installCommand == installCommand
      ensures !withinContext && packages == []
    {
      this.name := name;
      this.installCommand := installCommand;
      withinContext := false;
      packages := [];
    }

    /**
      `get_package(pkg)`: loads the recipe `<name>/<pkg>.py` and returns its
      variable `pkg`.  The checks are made in a fixed order, so each error
      stands exactly for the first check that fails.
     */
    function GetPackage(store: Store, pkg: string): (r: Result<Package, LoaderError>)
      ensures r == Err(NoSuchDirectoryError) <==> !store.configDirExists
      ensures r == Err(NoSuchFileError) <==> store.configDirExists && (name, pkg) !in store.files
      ensures r == Err(UndefinedPackageError) <==>
                FileExists(store, (name, pkg)) && pkg !in store.files[(name, pkg)].names
      ensures r == Err(PackageTypeError) <==>
                FileExists(store, (name, pkg)) && pkg in store.files[(name, pkg)].names
                && !store.files[(name, pkg)].names[pkg].PackageValue?
      ensures r.Ok? <==>
                FileExists(store, (name, pkg)) && pkg in store.files[(name, pkg)].names
                && store.files[(name, pkg)].names[pkg].PackageValue?
      ensures r.Ok? ==> r.value == store.files[(name, pkg)].names[pkg].pkg
    {
      if !store.configDirExists then Err(NoSuchDirectoryError)
      else if (name, pkg) !in store.files then Err(NoSuchFileError)
      else
        var names := store.files[(name, pkg)].names;
        if pkg !in names then Err(UndefinedPackageError)
        else if !names[pkg].PackageValue? then Err(PackageTypeError)
        else Ok(names[pkg].pkg)
    }

    /** One element of `get_packages`' loop: a name is loaded, a Package is kept, anything else aborts. */
    function ResolveItem(store: Store, item: Item): (r: Result<Package, Failure>)
      ensures item.Pkg? ==> r == Ok(item.pkg)
      ensures item.OtherItem? ==> r == Err(Abort(NotPackageOrName))
      ensures item.Name? ==>
                && (r.Ok? <==> GetPackage(store, item.name).Ok?)
                && (r.Ok? ==> r.value == GetPackage(store, item.name).value)
                && (r.Err? ==> r.error == Abort(LoadFailed(GetPackage(store, item.name).error)))
    {
      match item
      case Name(n) =>
        (match GetPackage(store, n)
         case Ok(p) => Ok(p)
         case Err(e) => Err(Abort(LoadFailed(e))))
      case Pkg(p) => Ok(p)
      case OtherItem => Err(Abort(NotPackageOrName))
    }

    /** `get_packages(items)`: each element resolved in turn; the first one that fails aborts the call. */
    function ResolvePackages(store: Store, items: seq<Item>): (r: Result<seq<Package>, Failure>)
      ensures r.Ok? ==> |r.value| == |items|
    {
      if items == [] then Ok([])
      else
        match ResolvePackages(store, items[..|items| - 1])
        case Err(f) => Err(f)
        case Ok(ps) =>
          match ResolveItem(store, items[|items| - 1])
          case Err(f) => Err(f)
          case Ok(p) => Ok(ps + [p])
    }

    lemma ResolveNext(store: Store, items: seq<Item>, n: nat)
      requires n < |items|
      ensures ResolvePackages(store, items[..n + 1]) ==
                match ResolvePackages(store, items[..n])
                case Err(f) => Err(f)
                case Ok(ps) =>
                  (match ResolveItem(store, items[n])
                   case Err(f) => Err(f)
                   case Ok(p) => Ok(ps + [p]))
    {
      assert items[..n + 1][..n] == items[..n];
    }

    lemma {:induction false} ResolveStops(store: Store, items: seq<Item>, n: nat)
      requires n <= |items| && ResolvePackages(store, items[..n]).Err?
      ensures ResolvePackages(store, items) == ResolvePackages(store, items[..n])
      decreases |items| - n
    {
      if n < |items| {
        ResolveNext(store, items, n);
        ResolveStops(store, items, n + 1);
      } else {
        assert items[..n] == items;
      }
    }

    /**
      `get_packages` keeps length and order: it succeeds exactly when every
      element is a Package or a name that loads, and then each Package is
      kept as the identical object and each name is replaced by its loaded
      Package.
     */
    lemma {:induction false} ResolvePackagesOk(store: Store, items: seq<Item>)
      ensures ResolvePackages(store, items).Ok? <==>
                forall i :: 0 <= i < |items| ==>
                  items[i].Pkg? || (items[i].Name? && GetPackage(store, items[i].name).Ok?)
      ensures ResolvePackages(store, items).Ok? ==>
                var ps := ResolvePackages(store, items).value;
                && |ps| == |items|
                && (forall i :: 0 <= i < |items| && items[i].Pkg? ==> ps[i] == items[i].pkg)
                && (forall i :: 0 <= i < |items| && items[i].Name? ==> GetPackage(store, items[i].name) == Ok(ps[i]))
    {
      if items != [] {
        var n := |items| - 1;
        ResolvePackagesOk(store, items[..n]);
        assert forall i :: 0 <= i < n ==> items[..n][i] == items[i];
      }
    }

    /**
      When `get_packages` fails, some element `k` is the first that does not
      resolve, and the abort is that element's: the loader error of its name,
      or the wrong-type abort.
     */
    lemma {:induction false} ResolvePackagesErr(store: Store, items: seq<Item>) returns (k: nat)
      requires ResolvePackages(store, items).Err?
      ensures k < |items|
      ensures forall i :: 0 <= i < k ==> ResolveItem(store, items[i]).Ok?
      ensures ResolveItem(store, items[k]).Err?
      ensures ResolvePackages(store, items).error == ResolveItem(store, items[k]).error
      ensures items[k].OtherItem? ==> ResolvePackages(store, items).error == Abort(NotPackageOrName)
      ensures items[k].Name? ==>
                ResolvePackages(store, items).error == Abort(LoadFailed(GetPackage(store, items[k].name).error))
    {
      var n := |items| - 1;
      if ResolvePackages(store, items[..n]).Err? {
        k := ResolvePackagesErr(store, items[..n]);
        assert items[..n][k] == items[k];
        assert forall i :: 0 <= i < k ==> items[..n][i] == items[i];
      } else {
        ResolvePackagesOk(store, items[..n]);
        forall i | 0 <= i < n ensures ResolveItem(store, items[i]).Ok? {
          assert items[..n][i] == items[i];
        }
        k := n;
      }
    }

    /** `get_packages(packages)`: builds the list of Packages element by element. */
    method GetPackages(items: seq<Item>, store: Store) returns (r: Result<seq<Package>, Failure>)
      ensures r == ResolvePackages(store, items)
    {
      var result: seq<Package> := [];
      var i := 0;
      while i < |items|
        invariant 0 <= i <= |items|
        invariant ResolvePackages(store, items[..i]) == Ok(result)
      {
        ResolveNext(store, items, i);
        match items[i] {
          case Name(n) =>
            var loaded := GetPackage(store, n);
            if loaded.Err? {
              ResolveStops(store, items, i + 1);
              return Err(Abort(LoadFailed(loaded.error)));
            }
            result := result + [loaded.value];
          case Pkg(p) =>
            result := result + [p];
          case OtherItem =>
            ResolveStops(store, items, i + 1);
            return Err(Abort(NotPackageOrName));
        }
        i := i + 1;
      }
      assert items[..i] == items;
      r := Ok(result);
    }

    /**
      `get_install_command(default)`: a truthy argument wins, then a truthy
      stored `install_command`, and only then the `install_command` of the
      distribution's `common` recipe, which is read from the store.
     */
    function GetInstallCommand(arg: Option<string>, store: Store): (r: Result<string, Failure>)
      ensures Truthy(arg) ==> r == Ok(arg.value)
      ensures !Truthy(arg) && Truthy(installCommand) ==> r == Ok(installCommand.value)
      ensures !Truthy(arg) && !Truthy(installCommand) ==>
                var common := (name, "common");
                && (r == Err(Raised(CommonRecipeUnreadable)) <==> !FileExists(store, common))
                && (r == Err(Abort(InstallCommandMissing)) <==>
                      FileExists(store, common) && "install_command" !in store.files[common].names)
                && (r.Ok? <==> FileExists(store, common) && "install_command" in store.files[common].names)
                && (r.Ok? ==> r.value == Show(store.files[common].names["install_command"]))
    {
      if Truthy(arg) then Ok(arg.value)
      else if Truthy(installCommand) then Ok(installCommand.value)
      else if !FileExists(store, (name, "common")) then Err(Raised(CommonRecipeUnreadable))
      else
        var names := store.files[(name, "common")].names;
        if "install_command" !in names then Err(Abort(InstallCommandMissing))
        else Ok(Show(names["install_command"]))
    }

    /**
      `get_after_commands(after)`: each callable in front of the value is
      called once and the result resolved again; a Command gives exactly its
      recorded commands, anything else aborts.
     */
    static function GetAfterCommands(after: After): (r: Result<seq<string>, Failure>)
      reads AfterRecorders(after)`commands
      ensures r.Ok? <==> after.value.AfterCommand?
      ensures r.Ok? ==> r.value == after.value.cmd.commands
      ensures r.Err? ==> r.error == Abort(AfterNotCommand)
      decreases after.factories
    {
      if after.factories > 0 then GetAfterCommands(After(after.factories - 1, after.value))
      else
        match after.value
        case AfterCommand(c) => Ok(c.commands)
        case _ => Err(Abort(AfterNotCommand))
    }

    /** How many callables stand in front of the value does not change the result. */
    static lemma {:induction false} AfterCommandsIgnoreFactories(after: After)
      ensures GetAfterCommands(after) == GetAfterCommands(After(0, after.value))
      decreases after.factories
    {
      if after.factories > 0 {
        AfterCommandsIgnoreFactories(After(after.factories - 1, after.value));
      }
    }

    /**
      `after_install()`: for each package in `_packages` order, each config
      entry is uploaded and its commands run as root; then the commands of
      the last setup's `after`.
     */
    method AfterInstall() returns (failure: Option<Failure>, effects: seq<Effect>)
      requires SetupsValid(packages)
      ensures effects == old(AfterInstallRun(ViewsOf(packages))).effects
      ensures failure == old(AfterInstallRun(ViewsOf(packages))).failure
    {
      var ps := packages;
      ghost var views := ViewsOf(ps);
      forall k | 0 <= k < |ps|
        ensures ps[k].setup.Valid() && views[k] == SetupViewOf(ps[k].setup)
      {
        ViewsOfAt(ps, k);
      }
      assert ConfigsRead(ps, views);
      var setup;
      setup, failure, effects := RunPackages(ps, views);
      if failure.Some? {
        return;
      }
      if setup == null {
        return Some(Raised(SetupUnbound)), effects;
      }
      assert views[|ps| - 1] == SetupViewOf(setup);
      var after := GetAfterCommands(setup.after);
      if after.Err? {
        return Some(after.error), effects;
      }
      var e := RunCommands(after.value);
      return None, effects + e;
    }

    /**
      `install(pkgs, *args, install_command=...)`: resolves the packages (the
      extra args, then `pkgs`) and makes them `_packages`, chooses the install
      command, issues the one install line, and runs `after_install` exactly
      when that line succeeded outside a batch scope.  Returns the line's
      success flag.
     */
    method Install(pkgs: PkgsArg, args: seq<Item>, installCommandArg: Option<string>, store: Store, hosts: Hosts)
        returns (r: Result<bool, Failure>, effects: seq<Effect>)
      requires var res := ResolvePackages(store, InstallItems(pkgs, args));
               res.Ok? ==> SetupsValid(res.value)
      modifies this`packages
      ensures var res := ResolvePackages(store, InstallItems(pkgs, args));
              && (res.Err? ==> r == Err(res.error) && effects == [] && packages == old(packages))
              && (res.Ok? ==> packages == res.value)
      ensures var res := ResolvePackages(store, InstallItems(pkgs, args));
              var command := GetInstallCommand(installCommandArg, store);
              res.Ok? && command.Err? ==> r == Err(command.error) && effects == []
      ensures var res := ResolvePackages(store, InstallItems(pkgs, args));
              var command := GetInstallCommand(installCommandArg, store);
              res.Ok? && command.Ok? ==>
                var line := InstallLine(command.value, res.value);
                if Succeeds(hosts, line) && !withinContext then
                  var run := AfterInstallRun(ViewsOf(res.value));
                  && effects == [Sudo(line)] + run.effects
                  && r == (if run.failure.Some? then Err(run.failure.value) else Ok(true))
                else
                  effects == [Sudo(line)] && r == Ok(Succeeds(hosts, line))
    {
      var resolved := GetPackages(InstallItems(pkgs, args), store);
      if resolved.Err? {
        return Err(resolved.error), [];
      }
      assert SetupsValid(resolved.value);
      SetPackages(resolved.value);
      assert SetupsValid(packages);
      var command := GetInstallCommand(installCommandArg, store);
      if command.Err? {
        return Err(command.error), [];
      }
      var line := InstallLine(command.value, packages);
      effects := [Sudo(line)];
      var success := Succeeds(hosts, line);
      if success && !withinContext {
        ghost var views := ViewsOf(packages);
        var failure, e := AfterInstall();
        assert views == ViewsOf(packages);
        effects := effects + e;
        if failure.Some? {
          return Err(failure.value), effects;
        }
      }
      r := Ok(success);
    }

    /** `self._packages = packages`. */
    method SetPackages(ps: seq<Package>)
      modifies this`packages
      ensures packages == ps
    {
      packages := ps;
    }

    /** `self._within_context = b`. */
    method SetWithinContext(b: bool)
      modifies this`withinContext
      ensures withinContext == b
    {
      withinContext := b;
    }

    /** `__enter__`: the batch scope begins; `install` no longer runs `after_install`. */
    method Enter() returns (self: Distribution)
      modifies this`withinContext
      ensures self == this && withinContext
    {
      SetWithinContext(true);
      self := this;
    }

    /**
      `__exit__`: the batch scope ends; unless an exception is propagating,
      `after_install` runs once, for the packages of the last `install`.  The
      result `false` never suppresses the exception.
     */
    method Exit(excActive: bool) returns (r: Result<bool, Failure>, effects: seq<Effect>)
      requires !excActive ==> SetupsValid(packages)
      modifies this`withinContext
      ensures !withinContext
      ensures excActive ==> r == Ok(false) && effects == []
      ensures !excActive ==>
                var run := AfterInstallRun(ViewsOf(packages));
                && effects == run.effects
                && r == (if run.failure.Some? then Err(run.failure.value) else Ok(false))
    {
      SetWithinContext(false);
      effects := [];
      if !excActive {
        ghost var views := ViewsOf(packages);
        var failure;
        failure, effects := AfterInstall();
        assert views == ViewsOf(packages);
        if failure.Some? {
          return Err(failure.value), effects;
        }
      }
      r := Ok(false);
    }
  }

  // ----- A batch scope: `with dist:` around a sequence of installs -----

  /** One `install(pkgs, *args, install_command=...)` call. */
  datatype InstallCall = InstallCall(pkgs: PkgsArg, args: seq<Item>, installCommand: Option<string>)

  /** The call's packages resolve and an install command is found, so the call issues its line. */
  predicate CallResolves(d: Distribution, c: InstallCall, store: Store) {
    d.ResolvePackages(store, InstallItems(c.pkgs, c.args)).Ok? && d.GetInstallCommand(c.installCommand, store).Ok?
  }

  /** The packages the call resolves to. */
  function CallPackages(d: Distribution, c: InstallCall, store: Store): seq<Package>
    requires CallResolves(d, c, store)
  {
    d.ResolvePackages(store, InstallItems(c.pkgs, c.args)).value
  }

  /** The install line the call issues. */
  function CallLine(d: Distribution, c: InstallCall, store: Store): string
    requires CallResolves(d, c, store)
  {
    InstallLine(d.GetInstallCommand(c.installCommand, store).value, CallPackages(d, c, store))
  }

  /** Every call resolves, to packages whose setups are well formed. */
  ghost predicate CallsReady(d: Distribution, calls: seq<InstallCall>, store: Store)
    reads *
  {
    forall k :: 0 <= k < |calls| ==> CallResolves(d, calls[k], store) && SetupsValid(CallPackages(d, calls[k], store))
  }

  /** The install lines of the calls, one each, in call order. */
  function ScopeLines(d: Distribution, calls: seq<InstallCall>, store: Store): (r: seq<Effect>)
    requires forall k :: 0 <= k < |calls| ==> CallResolves(d, calls[k], store)
    ensures |r| == |calls|
  {
    if calls == [] then []
    else ScopeLines(d, calls[..|calls| - 1], store) + [Sudo(CallLine(d, calls[|calls| - 1], store))]
  }

  /** Line `k` of the scope is the install line of call `k`. */
  lemma {:induction false} ScopeLinesAt(d: Distribution, calls: seq<InstallCall>, store: Store, k: nat)
    requires k < |calls| && forall j :: 0 <= j < |calls| ==> CallResolves(d, calls[j], store)
    ensures ScopeLines(d, calls, store)[k] == Sudo(CallLine(d, calls[k], store))
  {
    var n := |calls| - 1;
    if k < n {
      ScopeLinesAt(d, calls[..n], store, k);
    }
  }

  /**
    An install inside a batch scope issues its install line and nothing
    else, and makes the resolved packages `_packages`.
   */
  method InstallInScope(d: Distribution, c: InstallCall, store: Store, hosts: Hosts)
      returns (r: Result<bool, Failure>, effects: seq<Effect>)
    requires d.withinContext
    requires CallResolves(d, c, store) && SetupsValid(CallPackages(d, c, store))
    modifies d`packages
    ensures d.packages == CallPackages(d, c, store) && SetupsValid(d.packages)
    ensures effects == [Sudo(CallLine(d, c, store))] && r == Ok(Succeeds(hosts, CallLine(d, c, store)))
  {
    label Before:
    r, effects := d.Install(c.pkgs, c.args, c.installCommand, store, hosts);
    assert old@Before(SetupsValid(CallPackages(d, c, store)));
    assert SetupsValid(d.packages);
  }

  /**
    The installs inside the scope, in order: each issues only its own install
    line, and each replaces `_packages`, so the last one's packages remain.
   */
  method InstallAllInScope(d: Distribution, calls: seq<InstallCall>, store: Store, hosts: Hosts)
      returns (effects: seq<Effect>)
    requires d.withinContext
    requires CallsReady(d, calls, store)
    requires calls == [] ==> SetupsValid(d.packages)
    modifies d`packages
    ensures effects == ScopeLines(d, calls, store)
    ensures calls == [] ==> d.packages == old(d.packages)
    ensures calls != [] ==> d.packages == CallPackages(d, calls[|calls| - 1], store)
    ensures SetupsValid(d.packages)
    decreases |calls|
  {
    if calls == [] {
      return [];
    }
    var n := |calls| - 1;
    var c := calls[n];
    assert CallResolves(d, c, store) && SetupsValid(CallPackages(d, c, store));
    var e := [];
    if n > 0 {
      assert forall k :: 0 <= k < n ==> calls[..n][k] == calls[k];
      assert CallsReady(d, calls[..n], store);
      label Before:
      e := InstallAllInScope(d, calls[..n], store, hosts);
      assert old@Before(SetupsValid(CallPackages(d, c, store)));
      assert SetupsValid(CallPackages(d, c, store));
    } else {
      assert calls[..n] == [];
    }
    var r, line := InstallInScope(d, c, store, hosts);
    effects := e + line;
  }

  /**
    A batch scope around a sequence of installs (`with dist: for ...:
    dist.install(...)`): each install issues only its own install line, and
    leaving the scope runs `after_install` exactly once, for the packages of
    the last install.
   */
  method InstallBatch(d: Distribution, calls: seq<InstallCall>, store: Store, hosts: Hosts)
      returns (r: Result<bool, Failure>, effects: seq<Effect>)
    requires !d.withinContext
    requires CallsReady(d, calls, store)
    requires calls == [] ==> SetupsValid(d.packages)
    modifies d`packages, d`withinContext
    ensures !d.withinContext
    ensures d.packages == if calls == [] then old(d.packages) else CallPackages(d, calls[|calls| - 1], store)
    ensures SetupsValid(d.packages)
    ensures var run := AfterInstallRun(ViewsOf(d.packages));
            && effects == ScopeLines(d, calls, store) + run.effects
            && r == (if run.failure.Some? then Err(run.failure.value) else Ok(false))
  {
    BeginBatch(d, calls, store);
    var lines := InstallAllInScope(d, calls, store, hosts);
    var e;
    r, e := EndBatch(d);
    effects := lines + e;
  }

  /** `with dist:` entered: the scope flag is set, and what the installs need still holds. */
  method BeginBatch(d: Distribution, calls: seq<InstallCall>, store: Store)
    requires !d.withinContext
    requires CallsReady(d, calls, store)
    requires calls == [] ==> SetupsValid(d.packages)
    modifies d`withinContext
    ensures d.withinContext
    ensures CallsReady(d, calls, store)
    ensures calls == [] ==> SetupsValid(d.packages)
  {
    label Start:
    var self := d.Enter();
    forall k | 0 <= k < |calls|
      ensures CallResolves(d, calls[k], store) && SetupsValid(CallPackages(d, calls[k], store))
    {
      assert old@Start(SetupsValid(CallPackages(d, calls[k], store)));
    }
    assert old@Start(calls == [] ==> SetupsValid(d.packages));
  }

  /** `with dist:` left without an exception: `after_install` runs once for `_packages`. */
  method EndBatch(d: Distribution) returns (r: Result<bool, Failure>, effects: seq<Effect>)
    requires SetupsValid(d.packages)
    modifies d`withinContext
    ensures !d.withinContext && SetupsValid(d.packages)
    ensures var run := AfterInstallRun(ViewsOf(d.packages));
            && effects == run.effects
            && r == (if run.failure.Some? then Err(run.failure.value) else Ok(false))
  {
    label Inside:
    r, effects := d.Exit(false);
    assert old@Inside(SetupsValid(d.packages));
  }

  /**
    The package loop of `after_install`: the config loop of each package's
    setup in turn, stopping at the first failure.  `setup` is left holding
    the last package's setup, and stays unbound (null) when there is none.
   */
  method RunPackages(ps: seq<Package>, ghost views: seq<SetupView>)
      returns (setup: Setup?, failure: Option<Failure>, effects: seq<Effect>)
    requires ConfigsRead(ps, views)
    ensures effects == PackagesRun(views, ConfigRun).effects
    ensures failure == PackagesRun(views, ConfigRun).failure
    ensures failure.None? ==> setup == if ps == [] then null else ps[|ps| - 1].setup
  {
    effects := [];
    setup := null;
    var i := 0;
    while i < |ps|
      invariant 0 <= i <= |ps|
      invariant setup == if i == 0 then null else ps[i - 1].setup
      invariant PackagesRun(views[..i], ConfigRun) == Run(effects, None)
    {
      setup := ps[i].setup;
      var e;
      failure, e := RunSetup(setup, views[i].configs);
      PackagesRunStep(views, ConfigRun, i);
      effects := effects + e;
      if failure.Some? {
        return;
      }
      i := i + 1;
    }
    assert views[..i] == views;
    failure := None;
  }

  /** `fa.sudo(cmd)` for each command in turn. */
  method RunCommands(cmds: seq<string>) returns (effects: seq<Effect>)
    ensures effects == Sudos(cmds)
  {
    effects := [];
    var k := 0;
    while k < |cmds|
      invariant 0 <= k <= |cmds|
      invariant effects == Sudos(cmds[..k])
    {
      SudosAppend(cmds[..k], cmds[k]);
      assert cmds[..k + 1] == cmds[..k] + [cmds[k]];
      effects := effects + [Sudo(cmds[k])];
      k := k + 1;
    }
    assert cmds[..k] == cmds;
  }

  /**
    One config entry of `after_install`: its contents are read (None has no
    `decode`), uploaded to `filename`, then its commands are run as root.
   */
  method RunConfig(filename: string, config: Config) returns (failure: Option<Failure>, effects: seq<Effect>)
    ensures var run := ConfigRun(ConfigView(filename, config.contents, config.cmd.commands));
            effects == run.effects && failure == run.failure
  {
    if config.contents.None? {
      return Some(Raised(ContentsNone)), [];
    }
    var e := RunCommands(config.cmd.commands);
    return None, [Put(filename, config.contents.value)] + e;
  }

  /**
    The config loop of `after_install` for one setup, entries in `config_all`
    order; `cviews` is the setup's entries as read when the loop starts.
   */
  method RunSetup(setup: Setup, ghost cviews: seq<ConfigView>) returns (failure: Option<Failure>, effects: seq<Effect>)
    requires setup.Valid() && cviews == ConfigViews(setup, setup.order)
    ensures effects == RunAll(cviews, ConfigRun).effects
    ensures failure == RunAll(cviews, ConfigRun).failure
  {
    effects := [];
    var j := 0;
    while j < |setup.order|
      invariant 0 <= j <= |setup.order| == |cviews|
      invariant RunAll(cviews[..j], ConfigRun) == Run(effects, None)
    {
      var filename := setup.order[j];
      var config := setup.configs[filename];
      assert cviews[j] == ConfigView(filename, config.contents, config.cmd.commands);
      var e;
      failure, e := RunConfig(filename, config);
      RunAllStep(cviews, ConfigRun, j);
      effects := effects + e;
      if failure.Some? {
        return;
      }
      j := j + 1;
    }
    assert cviews[..j] == cviews;
    return None, effects;
  }
}
