/**
  The recipe-building objects of `alnair/package.py`.

  A `Command` records shell-command strings: selecting a verb (Python's
  attribute-access fallback, `cmd.restart`) and then calling the object
  (`cmd.restart('-f')`) appends one command line.  `Config` and `Setup` are
  `Command`s in Python; here each holds its `Command` part as the constant
  field `cmd` (`Config.cmd.arg` is the config's filename, `Setup.cmd.arg` is
  empty).  A `Setup` memoises one `Config` per filename and holds the `after`
  action; a `Package` pairs a name with a fresh `Setup`.
 */
module Packages {
  import opened Results
  import opened Text

  /** The verb as a part of the command line: Python skips `None` like an empty string. */
  function VerbText(verb: Option<string>): string {
    match verb
    case None => ""
    case Some(v) => v
  }

  /**
    The entry `Command.__call__` records: the selected verb, the option, the
    positional args joined by single spaces and the trailing argument, in that
    order, with empty parts skipped, joined by single spaces and stripped.
   */
  function CommandLine(verb: Option<string>, option: string, args: seq<string>, arg: string): (r: string)
    ensures Clean(r)
    ensures NonEmpty([VerbText(verb), option, Join(args), arg]) == [] ==> r == ""
  {
    Strip(Join(NonEmpty([VerbText(verb), option, Join(args), arg])))
  }

  /** A call with nothing but a selected verb records the verb (stripped). */
  lemma CommandLineVerbOnly(v: string)
    ensures CommandLine(Some(v), "", [], "") == Strip(v)
    ensures Clean(v) ==> CommandLine(Some(v), "", [], "") == v
  {
    assert Join([]) == "";
    NonEmptyOfFour(v, "", "", "");
    NonEmptyAppend([v], [""]);
    assert [v] + [""] == [v, ""];
    NonEmptyOne(v);
    NonEmptyOne("");
    assert NonEmpty([v, "", Join([]), ""]) == NonEmpty([v]);
    if v != "" {
      assert Join([v]) == v;
    }
    if Clean(v) {
      StripOfClean(v);
    }
  }

  /** The parts of a four-part line filter independently. */
  lemma NonEmptyOfFour(a: string, b: string, c: string, d: string)
    ensures NonEmpty([a, b, c, d]) == NonEmpty([a, b]) + NonEmpty([c]) + NonEmpty([d])
  {
    assert [a, b, c, d] == [a, b] + [c] + [d];
    NonEmptyAppend([a, b] + [c], [d]);
    NonEmptyAppend([a, b], [c]);
  }

  /** The words of a line whose positional args are all words: the head words, the args and the trailing word. */
  lemma WordsOfLine(head: seq<string>, args: seq<string>, arg: string)
    requires forall i :: 0 <= i < |args| ==> Word(args[i])
    ensures NonEmpty(head + args + [arg]) == NonEmpty(head) + args + NonEmpty([arg])
  {
    NonEmptyAppend(head + args, [arg]);
    NonEmptyAppend(head, args);
  }

  /**
    When every part is a single word (the positional args each one), the
    recorded line is, word for word, the verb, the option, the args and the
    trailing argument, in this order and with the empty ones skipped: splitting
    it at its single spaces gives exactly those words back.
   */
  lemma CommandLineWords(verb: Option<string>, option: string, args: seq<string>, arg: string)
    requires VerbText(verb) == "" || Word(VerbText(verb))
    requires option == "" || Word(option)
    requires arg == "" || Word(arg)
    requires forall i :: 0 <= i < |args| ==> Word(args[i])
    ensures var words := NonEmpty([VerbText(verb), option] + args + [arg]);
            && (words == [] ==> CommandLine(verb, option, args, arg) == "")
            && (words != [] ==> Split(CommandLine(verb, option, args, arg)) == words)
  {
    var v := VerbText(verb);
    var words := NonEmpty([v, option] + args + [arg]);
    JoinedParts(v, option, args, arg);
    WordsOfLine([v, option], args, arg);
    WordsAreWords(v, option, args, arg, NonEmpty([v, option]), NonEmpty([arg]), words);
    if words != [] {
      JoinWordsClean(words);
      StripOfClean(Join(words));
      SplitJoin(words);
    }
  }

  /** Joining the non-empty parts, the args already joined, is joining the non-empty words. */
  lemma JoinedParts(v: string, option: string, args: seq<string>, arg: string)
    requires forall i :: 0 <= i < |args| ==> Word(args[i])
    ensures Join(NonEmpty([v, option, Join(args), arg])) == Join(NonEmpty([v, option] + args + [arg]))
  {
    var head := NonEmpty([v, option]);
    var tail := NonEmpty([arg]);
    WordsOfLine([v, option], args, arg);
    NonEmptyOfFour(v, option, Join(args), arg);
    if args != [] {
      JoinWordsClean(args);
      assert NonEmpty([Join(args)]) == [Join(args)];
      JoinFlatten(head, args, tail);
    } else {
      assert NonEmpty([Join(args)]) == [];
      assert head + [] + tail == head + args + tail;
    }
  }

  /** Every element of the filtered parts is a word. */
  lemma WordsAreWords(v: string, option: string, args: seq<string>, arg: string,
                      head: seq<string>, tail: seq<string>, words: seq<string>)
    requires v == "" || Word(v)
    requires option == "" || Word(option)
    requires arg == "" || Word(arg)
    requires forall i :: 0 <= i < |args| ==> Word(args[i])
    requires head == NonEmpty([v, option]) && tail == NonEmpty([arg]) && words == head + args + tail
    ensures forall i :: 0 <= i < |words| ==> Word(words[i]) && ' ' !in words[i]
  {
    HeadWords(v, option);
    NonEmptyOne(arg);
    forall i | 0 <= i < |words|
      ensures Word(words[i])
    {
      if i < |head| {
        assert words[i] == head[i];
      } else if i < |head| + |args| {
        assert words[i] == args[i - |head|];
      } else {
        assert words[i] == arg;
      }
    }
    forall i | 0 <= i < |words|
      ensures ' ' !in words[i]
    {
      WordHasNoSpace(words[i]);
    }
  }

  /** The verb and the option that survive the filter are words. */
  lemma HeadWords(v: string, option: string)
    requires v == "" || Word(v)
    requires option == "" || Word(option)
    ensures forall i :: 0 <= i < |NonEmpty([v, option])| ==> Word(NonEmpty([v, option])[i])
  {
    NonEmptyAppend([v], [option]);
    assert [v] + [option] == [v, option];
    NonEmptyOne(v);
    NonEmptyOne(option);
  }

  /** Joining a joined middle part is joining its pieces in place. */
  lemma {:induction false} JoinFlatten(head: seq<string>, mid: seq<string>, tail: seq<string>)
    requires |mid| > 0
    ensures Join(head + [Join(mid)] + tail) == Join(head + mid + tail)
    decreases |head|
  {
    if head == [] {
      assert head + [Join(mid)] + tail == [Join(mid)] + tail;
      assert head + mid + tail == mid + tail;
      if tail == [] {
        assert [Join(mid)] + tail == [Join(mid)];
        assert mid + tail == mid;
      } else {
        JoinCons(Join(mid), tail);
        JoinAppend(mid, tail);
      }
    } else {
      JoinFlatten(head[1..], mid, tail);
      assert head + [Join(mid)] + tail == [head[0]] + (head[1..] + [Join(mid)] + tail);
      assert head + mid + tail == [head[0]] + (head[1..] + mid + tail);
      JoinCons(head[0], head[1..] + [Join(mid)] + tail);
      JoinCons(head[0], head[1..] + mid + tail);
    }
  }

  class Command {
    /** `_commands`: the recorded command lines, in call order. */
    var commands: seq<string>
    /** `_current_cmd`: the verb selected last; `None` before the first selection. */
    var currentCmd: Option<string>
    /** `_arg`: the trailing argument of every command this object records. */
    const arg: string

    /** `Command(arg='')`: nothing recorded, no verb selected. */
    constructor (arg: string := "")
      ensures commands == [] && currentCmd == None && this.arg == arg
    {
      commands := [];
      currentCmd := None;
      this.arg := arg;
    }

    /**
      Reading an attribute the object does not have (`cmd.restart`): the
      name becomes the current verb, nothing is recorded, and the object
      itself is returned so that it can be called.
     */
    method Select(verb: string) returns (self: Command)
      modifies this`currentCmd
      ensures self == this
      ensures currentCmd == Some(verb)
      ensures commands == old(commands)
    {
      currentCmd := Some(verb);
      self := this;
    }

    /**
      `cmd(*args, option=...)`: appends exactly one command line, leaves the
      earlier ones and the selected verb as they were, and returns the object.
     */
    method Call(args: seq<string>, option: string := "") returns (self: Command)
      modifies this`commands
      ensures self == this
      ensures commands == old(commands) + [CommandLine(currentCmd, option, args, arg)]
      ensures currentCmd == old(currentCmd)
    {
      commands := commands + [CommandLine(currentCmd, option, args, arg)];
      self := this;
    }
  }

  class Config {
    /** `_filename`: the path the contents are uploaded to. */
    const filename: string
    /** The `Command` part of the config; its trailing argument is the filename. */
    const cmd: Command
    /** `_contents`: `None` until `contents(...)` sets it. */
    var contents: Option<string>

    /** `Config(filename)`: no contents, no commands, the filename as trailing argument. */
    constructor (filename: string)
      ensures this.filename == filename && contents == None
      ensures fresh(cmd) && cmd.arg == filename && cmd.commands == [] && cmd.currentCmd == None
    {
      this.filename := filename;
      cmd := new Command(filename);
      contents := None;
    }

    /** `contents(c)`: stores `c` and returns the config itself. */
    method SetContents(c: string) returns (self: Config)
      modifies this`contents
      ensures self == this && contents == Some(c)
    {
      contents := Some(c);
      self := this;
    }
  }

  /** What `Setup.after` holds once every callable in front of it has been called. */
  datatype AfterValue =
    | NoAfter                    // None, the value a new Setup starts with
    | AfterCommand(cmd: Command) // an instance of Command (a Config or a Setup through its `cmd`)
    | OtherAfter                 // any other value that is not callable: an int, a string, a list, a dict

  /**
    The value of `Setup.after`: `factories` callables in front of `value`.
    Each callable, called with no arguments, returns the next one, and the
    last returns `value`; a plain value has no callable in front of it.
   */
  datatype After = After(factories: nat, value: AfterValue)

  class Setup {
    /** The `Command` part of the setup; its trailing argument is empty. */
    const cmd: Command
    /** `after`: what `after_install` resolves into the final commands. */
    var after: After
    /** `_config`: one Config per filename. */
    var configs: map<string, Config>
    /** The keys of `configs`, in the order they were added and are iterated in. */
    var order: seq<string>

    /** Every key is listed once in `order`, and it is the filename (the trailing argument) of its Config. */
    ghost predicate Valid()
      reads this`configs, this`order
    {
      && (forall k :: k in configs <==> k in order)
      && (forall i, j :: 0 <= i < j < |order| ==> order[i] != order[j])
      && (forall k :: k in configs ==> configs[k].filename == k && configs[k].cmd.arg == k)
    }

    /** The state of a new Setup. */
    ghost predicate Initial()
      reads this`after, this`configs, this`order, cmd`commands, cmd`currentCmd
    {
      after == After(0, NoAfter) && configs == map[] && order == []
      && cmd.arg == "" && cmd.commands == [] && cmd.currentCmd == None
    }

    /** `Setup()`: `after` is None and there are no configs. */
    constructor ()
      ensures Valid() && Initial() && fresh(cmd)
    {
      cmd := new Command();
      after := After(0, NoAfter);
      configs := map[];
      order := [];
    }

    /**
      `config(filename)`: on a filename seen before, the identical Config and
      nothing changes; on a new one, a fresh empty Config for it becomes the
      only new entry.
     */
    method Config(filename: string) returns (c: Config)
      requires Valid()
      modifies this`configs, this`order
      ensures Valid()
      ensures filename in configs && c == configs[filename]
      ensures filename in old(configs) ==>
                c == old(configs[filename]) && configs == old(configs) && order == old(order)
      ensures filename !in old(configs) ==>
                && fresh(c) && fresh(c.cmd)
                && c.filename == filename && c.contents == None
                && c.cmd.arg == filename && c.cmd.commands == [] && c.cmd.currentCmd == None
                && configs == old(configs)[filename := c] && order == old(order) + [filename]
    {
      if filename in configs {
        c := configs[filename];
      } else {
        c := new Config(filename);
        configs := configs[filename := c];
        order := order + [filename];
      }
    }

    /** `config_all`: the map of every Config asked for so far, keyed by its filename. */
    function ConfigAll(): (m: map<string, Config>)
      requires Valid()
      reads this`configs, this`order
      ensures m == configs
      ensures forall k :: k in m <==> k in order
      ensures forall k :: k in m ==> m[k].filename == k
    {
      configs
    }
  }

  class Package {
    /** `name`: the package name that goes on the install command line. */
    const name: string
    /** `setup`: the package's own Setup. */
    const setup: Setup

    /** `Package(name)`: the name and a fresh, empty Setup. */
    constructor (name: string)
      ensures this.name == name
      ensures fresh(setup) && fresh(setup.cmd) && setup.Valid() && setup.Initial()
    {
      this.name := name;
      setup := new Setup();
    }
  }
}
