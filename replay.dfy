/**
  What `Distribution.after_install` does, stated on values: the effects it
  sends to the remote side for a list of package setups, and the failure, if
  any, that stops it.  `Distribution.AfterInstall` is proved to emit exactly
  `AfterInstallRun` of a snapshot of its packages.
 */
module Replay {
  import opened Results
  import opened Errors
  import opened Remote

  /** What `after_install` reads of one config entry: its key, its contents and its recorded commands. */
  datatype ConfigView = ConfigView(filename: string, contents: Option<string>, commands: seq<string>)

  /** What `after_install` reads of one package's setup: its config entries in iteration order and its resolved `after`. */
  datatype SetupView = SetupView(configs: seq<ConfigView>, after: Result<seq<string>, Failure>)

  /** The effects sent so far, and the failure that stopped the run, if any. */
  datatype Run = Run(effects: seq<Effect>, failure: Option<Failure>)

  /** Runs `a`, then `b` unless `a` failed. */
  function Then(a: Run, b: Run): Run {
    if a.failure.Some? then a else Run(a.effects + b.effects, b.failure)
  }

  /** `step` on each element in turn, stopping at the first failure. */
  function RunAll<T>(xs: seq<T>, step: T -> Run): Run {
    if xs == [] then Run([], None) else Then(RunAll(xs[..|xs| - 1], step), step(xs[|xs| - 1]))
  }

  lemma RunAllNext<T>(xs: seq<T>, step: T -> Run, n: nat)
    requires n < |xs|
    ensures RunAll(xs[..n + 1], step) == Then(RunAll(xs[..n], step), step(xs[n]))
  {
    assert xs[..n + 1][..n] == xs[..n];
  }

  /** Once a prefix has failed, the rest of the elements are never stepped. */
  lemma {:induction false} RunAllStops<T>(xs: seq<T>, step: T -> Run, n: nat)
    requires n <= |xs| && RunAll(xs[..n], step).failure.Some?
    ensures RunAll(xs, step) == RunAll(xs[..n], step)
    decreases |xs| - n
  {
    if n < |xs| {
      RunAllNext(xs, step, n);
      RunAllStops(xs, step, n + 1);
    } else {
      assert xs[..n] == xs;
    }
  }

  /**
    One more element of a loop that has not failed yet: its effects are
    appended, its failure becomes the loop's, and a failure ends the loop.
   */
  lemma RunAllStep<T>(xs: seq<T>, step: T -> Run, n: nat)
    requires n < |xs| && RunAll(xs[..n], step).failure.None?
    ensures RunAll(xs[..n + 1], step) == Run(RunAll(xs[..n], step).effects + step(xs[n]).effects, step(xs[n]).failure)
    ensures step(xs[n]).failure.Some? ==> RunAll(xs, step) == RunAll(xs[..n + 1], step)
  {
    RunAllNext(xs, step, n);
    if step(xs[n]).failure.Some? {
      RunAllStops(xs, step, n + 1);
    }
  }

  /** One config entry as `after_install` (with the loop read as iterating entries) replays it. */
  function ConfigRun(c: ConfigView): (r: Run)
    ensures r.failure.None? <==> c.contents.Some?
    ensures r.failure.Some? ==> r == Run([], Some(Raised(ContentsNone)))
    ensures c.contents.Some? ==> |r.effects| > 0 && r.effects[0] == Put(c.filename, c.contents.value)
    ensures c.contents.Some? ==> r.effects[1..] == Sudos(c.commands)
  {
    match c.contents
    case None => Run([], Some(Raised(ContentsNone)))
    case Some(data) => Run([Put(c.filename, data)] + Sudos(c.commands), None)
  }

  /** The config loops of `after_install`: each package in turn, each of its entries through `step`. */
  function PackagesRun(vs: seq<SetupView>, step: ConfigView -> Run): Run {
    if vs == [] then Run([], None)
    else Then(PackagesRun(vs[..|vs| - 1], step), RunAll(vs[|vs| - 1].configs, step))
  }

  lemma PackagesRunNext(vs: seq<SetupView>, step: ConfigView -> Run, n: nat)
    requires n < |vs|
    ensures PackagesRun(vs[..n + 1], step) == Then(PackagesRun(vs[..n], step), RunAll(vs[n].configs, step))
  {
    assert vs[..n + 1][..n] == vs[..n];
  }

  lemma {:induction false} PackagesRunStops(vs: seq<SetupView>, step: ConfigView -> Run, n: nat)
    requires n <= |vs| && PackagesRun(vs[..n], step).failure.Some?
    ensures PackagesRun(vs, step) == PackagesRun(vs[..n], step)
    decreases |vs| - n
  {
    if n < |vs| {
      PackagesRunNext(vs, step, n);
      PackagesRunStops(vs, step, n + 1);
    } else {
      assert vs[..n] == vs;
    }
  }

  /** One more package of a package loop that has not failed yet, as `RunAllStep`. */
  lemma PackagesRunStep(vs: seq<SetupView>, step: ConfigView -> Run, n: nat)
    requires n < |vs| && PackagesRun(vs[..n], step).failure.None?
    ensures var r := RunAll(vs[n].configs, step);
            PackagesRun(vs[..n + 1], step) == Run(PackagesRun(vs[..n], step).effects + r.effects, r.failure)
    ensures RunAll(vs[n].configs, step).failure.Some? ==> PackagesRun(vs, step) == PackagesRun(vs[..n + 1], step)
  {
    PackagesRunNext(vs, step, n);
    if RunAll(vs[n].configs, step).failure.Some? {
      PackagesRunStops(vs, step, n + 1);
    }
  }

  /** The commands the resolved `after` issues, or the failure resolving it gave. */
  function AfterRun(after: Result<seq<string>, Failure>): Run {
    match after
    case Ok(cmds) => Run(Sudos(cmds), None)
    case Err(f) => Run([], Some(f))
  }

  /**
    `after_install` with `step` for each config entry: the config loops, then
    the commands of the `after` of the last package's setup (the loop variable
    `setup` outlives the loop); with no packages, `setup` is unbound.
   */
  function AfterInstallRunWith(vs: seq<SetupView>, step: ConfigView -> Run): (r: Run)
    ensures vs == [] ==> r == Run([], Some(Raised(SetupUnbound)))
    ensures vs != [] ==> |PackagesRun(vs, step).effects| <= |r.effects|
    ensures vs != [] ==> r.effects[..|PackagesRun(vs, step).effects|] == PackagesRun(vs, step).effects
    ensures vs != [] ==> (r.failure.None? <==> PackagesRun(vs, step).failure.None? && vs[|vs| - 1].after.Ok?)
  {
    if vs == [] then Run([], Some(Raised(SetupUnbound)))
    else Then(PackagesRun(vs, step), AfterRun(vs[|vs| - 1].after))
  }

  /** `after_install`, its loop over each setup's config entries taken as iterating (filename, config) pairs. */
  function AfterInstallRun(vs: seq<SetupView>): (r: Run)
    ensures vs == [] ==> r == Run([], Some(Raised(SetupUnbound)))
    ensures r.failure.None? ==> vs != [] && vs[|vs| - 1].after.Ok?
  {
    AfterInstallRunWith(vs, ConfigRun)
  }

  // ----- An independent description of the replay -----

  /** Every package's config entries, package by package. */
  function AllConfigs(vs: seq<SetupView>): seq<ConfigView> {
    if vs == [] then [] else vs[0].configs + AllConfigs(vs[1..])
  }

  lemma {:induction false} AllConfigsAppend(vs: seq<SetupView>, v: SetupView)
    ensures AllConfigs(vs + [v]) == AllConfigs(vs) + v.configs
  {
    if vs != [] {
      assert (vs + [v])[1..] == vs[1..] + [v];
      AllConfigsAppend(vs[1..], v);
    }
  }

  /**
    Fail-fast replay of a flat list of config entries: each gets one upload
    of its contents to its filename followed by its commands in order; an
    entry without contents stops everything.
   */
  function FlatReplay(cs: seq<ConfigView>): Run {
    if cs == [] then Run([], None)
    else
      match cs[0].contents
      case None => Run([], Some(Raised(ContentsNone)))
      case Some(data) =>
        var rest := FlatReplay(cs[1..]);
        Run([Put(cs[0].filename, data)] + Sudos(cs[0].commands) + rest.effects, rest.failure)
  }

  lemma {:induction false} ReplayAppend(a: seq<ConfigView>, b: seq<ConfigView>)
    ensures FlatReplay(a + b) == Then(FlatReplay(a), FlatReplay(b))
  {
    if a != [] {
      assert (a + b)[0] == a[0];
      assert (a + b)[1..] == a[1..] + b;
      ReplayAppend(a[1..], b);
    } else {
      assert a + b == b;
    }
  }

  lemma {:induction false} RunAllIsReplay(cs: seq<ConfigView>)
    ensures RunAll(cs, ConfigRun) == FlatReplay(cs)
  {
    if cs != [] {
      var n := |cs| - 1;
      RunAllIsReplay(cs[..n]);
      ReplayAppend(cs[..n], [cs[n]]);
      assert cs[..n] + [cs[n]] == cs;
      assert [cs[n]][1..] == [];
    }
  }

  /** The config loops of `after_install` are the fail-fast replay of all entries, in package order. */
  lemma {:induction false} PackagesRunIsReplay(vs: seq<SetupView>)
    ensures PackagesRun(vs, ConfigRun) == FlatReplay(AllConfigs(vs))
  {
    if vs != [] {
      var n := |vs| - 1;
      PackagesRunIsReplay(vs[..n]);
      RunAllIsReplay(vs[n].configs);
      assert vs[..n] + [vs[n]] == vs;
      AllConfigsAppend(vs[..n], vs[n]);
      ReplayAppend(AllConfigs(vs[..n]), vs[n].configs);
    }
  }

  /** The uploads among the effects, as (path, contents) pairs, in order. */
  function Uploads(effects: seq<Effect>): seq<(string, string)> {
    if effects == [] then []
    else (if effects[0].Put? then [(effects[0].path, effects[0].contents)] else []) + Uploads(effects[1..])
  }

  lemma {:induction false} UploadsAppend(a: seq<Effect>, b: seq<Effect>)
    ensures Uploads(a + b) == Uploads(a) + Uploads(b)
  {
    if a != [] {
      assert (a + b)[1..] == a[1..] + b;
      UploadsAppend(a[1..], b);
    } else {
      assert a + b == b;
    }
  }

  lemma {:induction false} UploadsOfSudos(cmds: seq<string>)
    ensures Uploads(Sudos(cmds)) == []
  {
    if cmds != [] {
      assert Sudos(cmds)[1..] == Sudos(cmds[1..]);
      UploadsOfSudos(cmds[1..]);
    }
  }

  /** The (filename, contents) pairs of config entries that all have contents. */
  function Contents(cs: seq<ConfigView>): seq<(string, string)>
    requires forall i :: 0 <= i < |cs| ==> cs[i].contents.Some?
  {
    seq(|cs|, i requires 0 <= i < |cs| => (cs[i].filename, cs[i].contents.value))
  }

  /**
    When every entry has contents, the replay completes and uploads exactly
    one file per entry, in order, each with the entry's own contents; an
    entry without contents makes it fail with the AttributeError, after the
    entries before it and before any entry after it.
   */
  lemma {:induction false} ReplayOutcome(cs: seq<ConfigView>)
    ensures FlatReplay(cs).failure.None? <==> forall i :: 0 <= i < |cs| ==> cs[i].contents.Some?
    ensures FlatReplay(cs).failure.Some? ==> FlatReplay(cs).failure == Some(Raised(ContentsNone))
    ensures (forall i :: 0 <= i < |cs| ==> cs[i].contents.Some?) ==> Uploads(FlatReplay(cs).effects) == Contents(cs)
  {
    ReplayFailure(cs);
    if forall i :: 0 <= i < |cs| ==> cs[i].contents.Some? {
      ReplayUploads(cs);
    }
  }

  /** The replay fails exactly when some entry has no contents, and then with the AttributeError. */
  lemma {:induction false} ReplayFailure(cs: seq<ConfigView>)
    ensures FlatReplay(cs).failure.None? <==> forall i :: 0 <= i < |cs| ==> cs[i].contents.Some?
    ensures FlatReplay(cs).failure.Some? ==> FlatReplay(cs).failure == Some(Raised(ContentsNone))
  {
    if cs != [] {
      ReplayFailure(cs[1..]);
      assert forall i :: 1 <= i < |cs| ==> cs[i] == cs[1..][i - 1];
    }
  }

  /** When every entry has contents, the replay uploads exactly their (filename, contents) pairs, in order. */
  lemma {:induction false} ReplayUploads(cs: seq<ConfigView>)
    requires forall i :: 0 <= i < |cs| ==> cs[i].contents.Some?
    ensures Uploads(FlatReplay(cs).effects) == Contents(cs)
  {
    if cs != [] {
      assert forall i :: 0 <= i < |cs[1..]| ==> cs[1..][i] == cs[i + 1];
      ReplayUploads(cs[1..]);
      UploadsOfEntry(cs[0].filename, cs[0].contents.value, cs[0].commands, FlatReplay(cs[1..]).effects);
      assert Contents(cs) == [(cs[0].filename, cs[0].contents.value)] + Contents(cs[1..]);
    }
  }

  /** One entry's effects upload its file once and nothing else. */
  lemma UploadsOfEntry(filename: string, data: string, cmds: seq<string>, rest: seq<Effect>)
    ensures Uploads([Put(filename, data)] + Sudos(cmds) + rest) == [(filename, data)] + Uploads(rest)
  {
    UploadsAppend([Put(filename, data)] + Sudos(cmds), rest);
    UploadsAppend([Put(filename, data)], Sudos(cmds));
    UploadsOfSudos(cmds);
    assert [Put(filename, data)][1..] == [];
  }

  /** A replay stopped by the entry at `m` emits what the replay of the entries before it emits. */
  lemma {:induction false} ReplayStopsAtMissing(cs: seq<ConfigView>, m: nat)
    requires m < |cs| && cs[m].contents.None?
    requires forall i :: 0 <= i < m ==> cs[i].contents.Some?
    ensures FlatReplay(cs) == Run(FlatReplay(cs[..m]).effects, Some(Raised(ContentsNone)))
  {
    assert cs == cs[..m] + cs[m..];
    ReplayAppend(cs[..m], cs[m..]);
    ReplayOutcome(cs[..m]);
    assert forall i :: 0 <= i < |cs[..m]| ==> cs[..m][i].contents.Some?;
  }

  /**
    `after_install` completes exactly when there is a package, every config
    entry has contents and the last setup's `after` resolves; it then emits
    the replay of every entry followed by the `after` commands.
   */
  lemma AfterInstallOutcome(vs: seq<SetupView>)
    ensures AfterInstallRun(vs).failure.None? <==>
              && vs != []
              && (forall i :: 0 <= i < |AllConfigs(vs)| ==> AllConfigs(vs)[i].contents.Some?)
              && vs[|vs| - 1].after.Ok?
    ensures AfterInstallRun(vs).failure.None? ==>
              AfterInstallRun(vs).effects == FlatReplay(AllConfigs(vs)).effects + Sudos(vs[|vs| - 1].after.value)
    ensures vs == [] ==> AfterInstallRun(vs) == Run([], Some(Raised(SetupUnbound)))
  {
    if vs != [] {
      PackagesRunIsReplay(vs);
      ReplayOutcome(AllConfigs(vs));
    }
  }

  // ----- The loop of line 94 as written -----

  /**
    As written, `for filename, config in setup.config_all` iterates the dict
    itself, which yields its keys, and unpacks each key string into two
    names: a key of two characters unpacks, and the next line then reads
    `_contents` of a one-character string; any other key fails to unpack.
   */
  function UnpackKeyAsWritten(key: string): (e: PythonError)
    ensures e == KeyHasNoContents <==> |key| == 2
    ensures e == UnpackError <==> |key| != 2
  {
    if |key| == 2 then KeyHasNoContents else UnpackError
  }

  /** As written, each entry fails before its first effect. */
  function ConfigRunAsWritten(c: ConfigView): (r: Run)
    ensures r.effects == [] && r.failure == Some(Raised(UnpackKeyAsWritten(c.filename)))
  {
    Run([], Some(Raised(UnpackKeyAsWritten(c.filename))))
  }

  lemma {:induction false} RunAllAsWritten(cs: seq<ConfigView>)
    ensures RunAll(cs, ConfigRunAsWritten) ==
              if cs == [] then Run([], None) else ConfigRunAsWritten(cs[0])
  {
    if |cs| > 1 {
      var n := |cs| - 1;
      RunAllAsWritten(cs[..n]);
    } else if |cs| == 1 {
      assert cs[..0] == [];
    }
  }

  lemma {:induction false} PackagesRunAsWritten(vs: seq<SetupView>)
    ensures PackagesRun(vs, ConfigRunAsWritten) ==
              if AllConfigs(vs) == [] then Run([], None) else ConfigRunAsWritten(AllConfigs(vs)[0])
  {
    if vs != [] {
      var n := |vs| - 1;
      PackagesRunAsWritten(vs[..n]);
      RunAllAsWritten(vs[n].configs);
      assert vs[..n] + [vs[n]] == vs;
      AllConfigsAppend(vs[..n], vs[n]);
    }
  }

  /**
    As written, `after_install` uploads nothing and runs no command as soon
    as any package has a config entry: it raises on the first key.
   */
  lemma AsWrittenNeverUploads(vs: seq<SetupView>)
    requires AllConfigs(vs) != []
    ensures AfterInstallRunWith(vs, ConfigRunAsWritten) ==
              Run([], Some(Raised(UnpackKeyAsWritten(AllConfigs(vs)[0].filename))))
  {
    PackagesRunAsWritten(vs);
  }

  /** The nginx recipe's single config: as written it raises ValueError, corrected it is uploaded. */
  lemma AsWrittenNginxExample()
    ensures var vs := [SetupView([ConfigView("/etc/nginx/nginx.conf", Some("worker_processes 1;"),
                                             ["systemctl restart nginx"])], Ok([]))];
            && AfterInstallRunWith(vs, ConfigRunAsWritten) == Run([], Some(Raised(UnpackError)))
            && AfterInstallRun(vs) == Run([Put("/etc/nginx/nginx.conf", "worker_processes 1;"),
                                           Sudo("systemctl restart nginx")], None)
  {
    var vs := [SetupView([ConfigView("/etc/nginx/nginx.conf", Some("worker_processes 1;"),
                                     ["systemctl restart nginx"])], Ok([]))];
    AsWrittenNeverUploads(vs);
    assert vs[..0] == [];
    assert vs[0].configs[..0] == [];
  }
}
