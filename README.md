# alnair: recipe objects and the install driver, in Dafny

alnair is a small provisioning DSL on top of Fabric. A recipe builds, per
package, a `Setup` that records shell commands and config files to upload.
A `Distribution` installs a list of packages on the remote host with one
install command line, then replays every package's config uploads and the
commands recorded with them, and finally the commands of the `after`
action. Inside a `with dist:` batch scope, that replay is deferred to the
end of the scope.

The model has seven modules:

- `Results` (results.dfy): `Option` and `Result`.
- `Text` (text.dfy): the Python 2 string operations that a recorded command
  line is built with: `str.strip()`, `' '.join(...)`, the truthiness filter,
  and `str.split(' ')` as the inverse of the join.
- `Packages` (package.dfy): the classes of `alnair/package.py`. `Command`,
  `Config`, `Setup` and `Package` are Dafny classes whose methods update
  their fields in place (`modifies`). The recorded line is the function
  `CommandLine`.
- `Errors` (errors.dfy): the loader exceptions, the `fa.abort` reasons and
  the Python exceptions `after_install` can raise.
- `Remote` (remote.dfy): the remote side. `fa.sudo` and `fa.put` become
  recorded `Effect`s returned in order. Whether a command succeeds is read
  from a `Hosts` value.
- `Replay` (replay.dfy): the specification of `after_install` over plain
  values. `AfterInstallRun` describes the nested loops; `FlatReplay` is the
  same behaviour as one flat pass over all config entries. Lemmas connect
  the two and characterise the outcome.
- `Distributions` (distribution.dfy): the `Distribution` class of
  `alnair/distribution.py`, with the recipe files as a `Store` value.
  `GetPackages` is a method with the loop of `get_packages`. The loops of
  `after_install` are the methods `RunPackages`, `RunSetup` and
  `RunCommands`, which `AfterInstall` calls. `Install`, `Enter` and `Exit`
  update `packages` and `withinContext`. Each method is proved against the
  functions of `Distributions` and `Replay`. `ViewsOf` takes the snapshot of
  the heap that `after_install` reads: each package's config entries in
  iteration order, and its resolved `after`. `InstallBatch` is a `with
  dist:` block around a sequence of `install` calls.

The model follows the code, with one exception: line 94 of
`alnair/distribution.py`. As written, that loop iterates the keys of the
dict and raises before the first upload (see "## Findings"). `AfterInstall`,
and through it `Install`, `Exit` and `InstallBatch`, instead iterates the
(filename, config) entries. The code as written is kept beside it as
`AfterInstallRunWith(vs, ConfigRunAsWritten)`.

The repository's tests were written against a newer interface than the code
they sit beside:

- tests/test_package.py, lines 10-35, expects commands recorded as
  `(cmd, fa.run)` or `(cmd, fa.sudo)` pairs.
- tests/test_package.py, lines 52-126, expects a `Host` object and config
  keys of the form `(hostname, filename)`.
- tests/test_distribution.py, lines 81-115, expects the setup's own
  commands to be run, an `after` action per package, and no
  `get_after_commands` call when `after` is None.

The code records plain strings, keys configs by filename, runs no setup
commands, and resolves only the `after` of the last package's setup, even
when it is None. The model follows the code on all of these points: on an
`after` of None, `after_install` aborts after the config uploads.

## Model

| member | source | states |
|---|---|---|
| Packages.Command.constructor | alnair/package.py:35-42 | A new Command has recorded nothing and selected no verb. It keeps the given trailing argument, which defaults to the empty string. |
| Packages.Command.Select | alnair/package.py:51-56 | Reading an unknown attribute makes its name the current verb and returns the same object. It records nothing. |
| Packages.Command.Call | alnair/package.py:44-49 | A call appends exactly one line, `CommandLine` of the current verb, option, args and trailing argument. Earlier lines and the selected verb are unchanged, so the verb stays in force. The same object is returned. |
| Packages.CommandLine | alnair/package.py:45-47 | The recorded line has no leading or trailing whitespace. It is empty when every part is empty. |
| Packages.CommandLineVerbOnly | alnair/package.py:45-47 | With nothing but a selected verb, the recorded line is the stripped verb; a verb without surrounding whitespace comes back exactly. |
| Packages.CommandLineWords | alnair/package.py:45-47 | When every part is a single word, splitting the recorded line at its spaces gives the verb, the option, the args and the trailing argument, in that order, with the empty parts skipped. |
| Packages.JoinedParts | alnair/package.py:46-47 | Joining the non-empty parts, the args already space-joined into one part, gives the same line as joining the non-empty words. |
| Packages.WordsOfLine | alnair/package.py:46-47 | With word args, the filter keeps every arg and filters only the head parts and the trailing argument. |
| Packages.JoinFlatten | alnair/package.py:46-47 | A space-joined middle part joins the same as its pieces in place. |
| Packages.Config.constructor | alnair/package.py:60-67 | A new Config has contents None and no recorded commands. Its filename is the trailing argument of everything it records. |
| Packages.Config.SetContents | alnair/package.py:69-76 | `contents(c)` stores `c` and returns the same Config. |
| Packages.Setup.constructor | alnair/package.py:80-85 | A new Setup has `after` None, no configs, and an empty Command part. |
| Packages.Setup.Config | alnair/package.py:87-97 | A filename seen before returns the identical Config and changes nothing. A new filename adds exactly one entry, a fresh empty Config for it, and touches no other key. |
| Packages.Setup.ConfigAll | alnair/package.py:99-105 | `config_all` returns the dict `_config` itself: exactly the filenames asked for so far as keys, each mapped to the identical Config that `config(filename)` returned. |
| Packages.Package.constructor | alnair/package.py:109-115 | A new Package keeps its name and owns a fresh, empty Setup. |
| Text.TrimLeft | alnair/package.py:47 | Left trimming keeps the longest suffix that does not start with whitespace; everything dropped is whitespace. |
| Text.TrimRight | alnair/package.py:47 | Right trimming keeps the longest prefix that does not end with whitespace; everything dropped is whitespace. |
| Text.Strip | alnair/package.py:47 | `strip()` gives a string with no whitespace at either end, no longer than its input. |
| Text.StripIsSlice | alnair/package.py:47 | What `strip()` keeps is one contiguous slice of its input, starting after the leading whitespace; everything before and after that slice is whitespace. |
| Text.StripOfClean | alnair/package.py:47 | Stripping a string with no whitespace at its ends changes nothing. |
| Text.StripIdempotent | alnair/package.py:47 | Stripping twice is stripping once. |
| Text.NonEmptyAppend | alnair/package.py:46 | The truthiness filter distributes over concatenation. |
| Text.JoinAppend | alnair/package.py:46 | Joining two non-empty lists puts exactly one space between their joins. |
| Text.JoinWordsClean | alnair/package.py:46-47 | Joining words gives a non-empty string that starts with the first word and ends with the last, with no whitespace at its ends. |
| Text.SplitJoin | alnair/package.py:46 | Splitting the join of space-free parts at spaces gives back the parts. |
| Text.JoinSplit | alnair/package.py:46 | Joining the pieces of a split gives back the string. |
| Replay.RunAllStep | alnair/distribution.py:94-98 | One more config entry in a loop that has not failed appends that entry's effects. Its failure ends the loop. |
| Replay.PackagesRunStep | alnair/distribution.py:92-98 | One more package in the package loop appends that package's config loop. Its failure ends the loop. |
| Replay.RunAllIsReplay | alnair/distribution.py:94-98 | The config loop of one setup is the flat replay of its entries. |
| Replay.PackagesRunIsReplay | alnair/distribution.py:92-98 | The nested package and config loops are the flat replay of every package's entries, package by package. |
| Replay.ReplayAppend | alnair/distribution.py:92-98 | Replaying two runs of entries is replaying the first, then the second unless the first failed. |
| Replay.ReplayFailure | alnair/distribution.py:95 | The replay fails exactly when some entry has contents None, and then with the AttributeError. |
| Replay.ReplayUploads | alnair/distribution.py:95-96 | When every entry has contents, the uploads are exactly the (filename, contents) pairs of the entries, one each, in order. |
| Replay.ReplayOutcome | alnair/distribution.py:94-98 | Both of the above together: the replay completes if and only if every entry has contents, and then uploads exactly the entries in order. |
| Replay.ReplayStopsAtMissing | alnair/distribution.py:94-98 | An entry without contents stops the replay after the effects of the entries before it and before any effect of the entries after it. |
| Replay.UploadsOfEntry | alnair/distribution.py:95-98 | One entry's effects contain exactly one upload: its own file. |
| Replay.AfterInstallOutcome | alnair/distribution.py:91-100 | `after_install` completes if and only if there is a package, every entry has contents, and the last setup's `after` resolves. It then emits the flat replay of every entry followed by the `after` commands. With no package it raises UnboundLocalError. |
| Replay.ConfigRun | alnair/distribution.py:95-98 | One config entry completes if and only if it has contents. It then uploads its contents to its filename first and runs its recorded commands after; otherwise it raises AttributeError before any effect. |
| Replay.AfterInstallRunWith | alnair/distribution.py:91-100 | With no package, `after_install` raises UnboundLocalError and does nothing. Otherwise its effects start with those of the package loop, and it completes if and only if that loop completes and the last setup's `after` resolves. |
| Replay.AfterInstallRun | alnair/distribution.py:91-100 | No package raises UnboundLocalError; a completed run had a package whose last setup's `after` resolved. |
| Replay.UnpackKeyAsWritten | alnair/distribution.py:94 | Unpacking a key string into two names raises ValueError unless the key has exactly two characters; a two-character key instead fails at the missing `_contents`. |
| Replay.ConfigRunAsWritten | alnair/distribution.py:94 | As written, each config entry fails with the unpacking error of its key before any effect. |
| Replay.AsWrittenNeverUploads | alnair/distribution.py:94 | As written, any config entry makes `after_install` fail on the first key before the first effect. |
| Replay.AsWrittenNginxExample | alnair/distribution.py:94-98 | The nginx recipe's one config: as written it raises ValueError; as intended it uploads the file and then runs its command. |
| Distributions.InstallItems | alnair/distribution.py:76-81 | The list to resolve is the positional args, followed by the items of an iterable `pkgs`, or by `pkgs` itself when it is a single value. |
| Distributions.InstallLine | alnair/distribution.py:84-86 | The install line is the install command, one space, and then the space-joined package names. |
| Distributions.InstallLineWords | alnair/distribution.py:84-86 | The install line split at spaces is the words of the install command followed by the package names, in resolution order. With no package the line ends in the separating space and splits into the command's words and one empty piece. |
| Distributions.InstallLineOfThree | alnair/distribution.py:84-86 | Three packages give the install command and their three names, in order, one space apart. |
| Distributions.InstallLineExample | alnair/distribution.py:84-86 | Packages pkg1, pkg2 and pkg3 give the line `<command> pkg1 pkg2 pkg3` for any install command, `test_install_command pkg1 pkg2 pkg3` among them. |
| Distributions.SplitAtSpace | alnair/distribution.py:86 | Splitting at a space splits both sides independently. |
| Distributions.ViewsOfAt | alnair/distribution.py:92-94 | Entry `i` of the snapshot is the snapshot of package `i`'s setup. |
| Distributions.Distribution.constructor | alnair/distribution.py:51-60 | A new Distribution keeps its name and install command, is outside any scope and has no packages. |
| Distributions.Distribution.GetPackage | alnair/distribution.py:159-183 | Each loader error stands exactly for the first failing check: missing directory, then missing file, then missing variable, then a variable that is not a Package. Success returns that variable's Package. |
| Distributions.Distribution.ResolveItem | alnair/distribution.py:145-156 | A Package resolves to itself. A name resolves if and only if it loads, to the loaded Package, and otherwise aborts with the loader error. Any other value aborts with the wrong-type abort. |
| Distributions.Distribution.ResolvePackages | alnair/distribution.py:144-157 | A successful resolution has one Package per element. |
| Distributions.Distribution.ResolvePackagesOk | alnair/distribution.py:144-157 | `get_packages` succeeds exactly when every element is a Package or a name that loads. It then keeps length and order, keeps each Package as the identical object, and replaces each name by its loaded Package. |
| Distributions.Distribution.ResolvePackagesErr | alnair/distribution.py:144-157 | On failure, the abort is that of the first element that does not resolve: the loader error of its name, or the wrong-type abort. |
| Distributions.Distribution.ResolveStops | alnair/distribution.py:144-157 | Once a prefix has aborted, the remaining elements are never resolved. |
| Distributions.Distribution.GetPackages | alnair/distribution.py:144-157 | The loop computes exactly the resolution above, the abort included. |
| Distributions.Distribution.GetInstallCommand | alnair/distribution.py:116-130 | A truthy argument wins, then a truthy stored install command, then the `install_command` of the `common` recipe. A missing recipe raises; a missing name aborts. |
| Distributions.Distribution.GetAfterCommands | alnair/distribution.py:102-114 | Resolving `after` gives exactly the Command's recorded list if and only if the callables lead to a Command; anything else aborts. |
| Distributions.Distribution.AfterCommandsIgnoreFactories | alnair/distribution.py:109-111 | How many callables stand in front of the final value does not change what `get_after_commands` returns: only that value decides it. |
| Distributions.RunCommands | alnair/distribution.py:99-100 | Runs `fa.sudo` once per command, in order. |
| Distributions.RunConfig | alnair/distribution.py:95-98 | One entry: one upload of its contents to its filename, then its recorded commands. Contents None raises AttributeError before any effect. |
| Distributions.RunSetup | alnair/distribution.py:94-98 | The config loop of one setup emits the config loop of the specification, failure included. |
| Distributions.RunPackages | alnair/distribution.py:92-98 | The package loop emits the package loop of the specification, failure included, and is left holding the last package's setup. |
| Distributions.Distribution.AfterInstall | alnair/distribution.py:91-100 | The effects and the failure are those of `AfterInstallRun` on the snapshot of `_packages`. |
| Distributions.Distribution.Install | alnair/distribution.py:62-89 | The resolved packages replace `_packages`. Exactly one install line is issued, the install command then the names. `after_install` follows if and only if the line succeeded outside a scope. The success flag is returned, or the first failure. |
| Distributions.Distribution.SetPackages | alnair/distribution.py:82 | `_packages` is the given list. |
| Distributions.Distribution.SetWithinContext | alnair/distribution.py:186 | `_within_context` is the given flag. |
| Distributions.Distribution.Enter | alnair/distribution.py:185-187 | Entering sets the scope flag and returns the same object. |
| Distributions.Distribution.Exit | alnair/distribution.py:189-193 | Leaving always clears the flag. With an exception in flight it runs nothing; otherwise it runs `after_install` once. It returns False, so the exception is never suppressed. |
| Distributions.ScopeLinesAt | alnair/distribution.py:84-86 | Line `k` of a scope is the install line of the `k`-th call: its install command, then its package names. |
| Distributions.InstallInScope | alnair/distribution.py:62-89 | Inside a scope, any `install` call whose packages and command resolve issues its install line and nothing else, returns whether the line succeeded, and makes its packages `_packages`. |
| Distributions.InstallAllInScope | alnair/distribution.py:62-89 | Inside a scope, a sequence of `install` calls issues exactly their install lines, one each, in call order. Each replaces `_packages`, so the last call's packages remain, or the earlier ones when there is no call. |
| Distributions.BeginBatch | alnair/distribution.py:185-187 | Entering the scope sets only the flag. |
| Distributions.EndBatch | alnair/distribution.py:189-193 | Leaving the scope without an exception clears the flag and runs `after_install` once, for `_packages`. It returns False. |
| Distributions.InstallBatch | alnair/distribution.py:185-193 | A `with dist:` block around any number of `install` calls issues their install lines, then runs `after_install` exactly once, at the end of the block, for the packages of the last call. |

## Left out

- Fabric is not modelled. `fa.sudo` and `fa.put` are recorded `Effect`s, returned by each method in order. Success of a remote command comes from the `Hosts` parameter. `fa.abort` is the failure `Abort(reason)`. The abort and exception message texts are not modelled.
- The recipe loader (`imp.load_source`, `os.path.isdir`/`isfile`, the absolute `CONFIG_DIR` path) is the `Store` value: whether the directory exists, and the module-level names of each loadable file. Errors raised while executing a recipe file are not modelled.
- The `print configfile` of `get_package` is output only and left out.
- Python reflection: `__getattribute__` is modelled only for its fallback, as `Command.Select`. Which attribute names exist on the object is left to the caller.
- `Config` and `Setup` inherit from `Command` in Python. Here each holds its `Command` part as the field `cmd`, because a trait would be needed for class inheritance.
- A Python 2 dict iterates in an unspecified order. The model iterates `config_all` in insertion order, kept as `Setup.order`.
- `StringIO(....decode('utf-8'))` is left out: contents are uploaded as the string itself.
- `'%s'` formatting of a non-string `install_command` is approximated by `Show`: a Package renders without its object address.
- `install` honours only the `install_command` keyword; like the code, the model ignores any other keyword.
- Distributions.Distribution.AfterInstall: does not model the side effect of `config._cmd` at line 97. The `__getattribute__` fallback sets each visited config's current verb to `'_cmd'`; the model leaves it unchanged. Only a later call on that config would see the difference.
- Distributions.Distribution.GetAfterCommands: a callable stored in `after` is modelled as a count of zero-argument callables in front of a final value. A callable that takes arguments, raises, never returns, or returns different values on different calls is not modelled.
- An exception raised by the remote side itself (a dropped connection, say) is not modelled.
- Distributions.Distribution.AfterInstall: runs the loop of line 94 over the (filename, config) entries of `config_all`, not over its keys as written, and so do `Install`, `Exit` and `InstallBatch`, which call it. The code as written is `AfterInstallRunWith(vs, ConfigRunAsWritten)`, which raises on the first key (see "## Findings").
- `imp.load_source` (lines 124 and 174) executes the recipe file again on every load, so loading the same name twice gives two distinct Package objects. It also reuses a `sys.modules` entry of the same name, so attributes left over from an earlier load can survive until they are set again. The `Store` instead holds one value per (distribution, module) name, which every load returns.
- Text.IsSpace: is the whitespace of `str.strip()` on Python 2 byte strings. A `unicode` part would strip more characters, such as U+00A0 and U+2028.
- Distributions.InstallBatch: covers only batches whose every `install` call resolves its packages and its install command. A call that aborts raises `SystemExit` inside the `with` block, and `__exit__` then skips `after_install`, as `Exit(true)` states.
- Object footprints are not modelled. The snapshot predicates `SetupsValid`, `ConfigsRead`, `CallsReady` and `ViewsOf` read the whole heap (`reads *`) rather than a `Repr` set per Package, because `after_install` reaches every Setup, Config and Command object through `_packages`, and recipes may share those objects between packages. So the model does not state which objects a method leaves untouched beyond its `modifies` clause. Facts about these predicates are carried across a call by asserting them again after it.

## Findings

| source | as written | input that shows it | evidently intended | confidence | as-written member | corrected member |
|---|---|---|---|---|---|---|
| alnair/distribution.py:94 | `for filename, config in setup.config_all:` iterates the dict, which yields only its keys. Each key string is unpacked into two names: a key of any length but two raises ValueError, and a two-character key leaves `config` a one-character string without `_contents`. | One package whose setup has the config `/etc/nginx/nginx.conf` with contents: `after_install` raises ValueError before uploading anything. | Iterate the entries (`config_all.items()`): upload each config and run its commands. | not executed (the line and Python 2 iteration semantics, read as text) | Replay.AsWrittenNeverUploads | Replay.AfterInstallOutcome |
