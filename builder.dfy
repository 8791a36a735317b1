/**
 * `From<&toml::Value> for Command` (src/command.rs:255-547): a node built
 * from a configuration value. Every field but `cmd` is read first, in the
 * source's order; then `cmd` sets the body (a string) or the children (an
 * array, or a table holding its own `cmd`).
 *
 * A multi-line `cmd` is written to a temporary file: the file's path is
 * `TempPath(n)` for a counter `n` threaded through the construction, so each
 * file gets a fresh path.
 */
module CommandFrom {
  import opened Text
  import opened Values
  import opened Commands
  import opened Fields

  /** What the construction reads from its process: the argument vector and the dotenv variables. */
  datatype Process = Process(argv: seq<string>, dotenv: seq<(string, string)>)

  /** A construction that yields a value and the next free temporary-file number, or panics. */
  datatype Outcome<T> = Done(value: T, tmp: nat) | Aborted(fault: Fault)

  /** A value found under a key of a table is smaller than the table. */
  lemma GetIsSmaller(v: Toml, key: string)
    requires Get(v, key).Some?
    ensures Get(v, key).value < v
  {
    var x := Get(v, key).value;
    assert (key, x) in v.entries;
  }

  /**
   * The `args` field: the declared arguments with the command-line overrides
   * applied. Reading the overrides scans the process arguments, which can
   * panic; without an `args` array nothing is declared and nothing scanned.
   */
  function ArgsField(v: Toml, argv: seq<string>): (r: Result<Args>)
    ensures r.Err? ==> Get(v, "args").Some? && Get(v, "args").value.Array? && OverrideTokens(argv).Err?
    ensures r.Ok? && Get(v, "args").Some? && Get(v, "args").value.Array? ==>
      Keys(r.value) == Keys(ArgsOf(Get(v, "args").value.items))
    ensures r.Ok? && !(Get(v, "args").Some? && Get(v, "args").value.Array?) ==> r.value == []
  {
    match Get(v, "args")
    case Some(Array(a)) =>
      (match OverrideTokens(argv)
       case Err(f) => Err(f)
       case Ok(toks) => Ok(ApplyOverrides(ArgsOf(a), toks)))
    case _ => Ok([])
  }

  /** The fields before `args`: the body of a bare string, the three numbers and `env`. */
  function Head(v: Toml): (b: CommandBuilder)
    ensures b == Builder().(command := b.command, repeat := b.repeat, maxRepeat := b.maxRepeat, until := b.until, env := b.env)
    ensures b.command == if v.Str? then Split(v.s, ' ') else []
    ensures Get(v, "env").Some? && Get(v, "env").value.Array? ==> b.env == EnvOf(Get(v, "env").value.items)
    ensures !(Get(v, "env").Some? && Get(v, "env").value.Array?) ==> b.env == map[]
  {
    var b0 := Builder();
    var b1 := if v.Str? then b0.(command := Split(v.s, ' ')) else b0;
    var b2 := b1.(repeat := NumberField(v, "repeat"), maxRepeat := NumberField(v, "max_repeat"), until := NumberField(v, "until"));
    match Get(v, "env")
    case Some(Array(a)) => b2.(env := EnvOf(a))
    case _ => b2
  }

  /** `load_dotenv`: the flag, and when it is set the dotenv variables merged into `env`. */
  function Dotenv(b: CommandBuilder, v: Toml, proc: Process): (r: CommandBuilder)
    ensures r == b.(loadDotenv := r.loadDotenv, env := r.env)
    ensures Get(v, "load_dotenv") == Some(Boolean(true)) ==> r.loadDotenv && r.env == MergeDotenv(b.env, proc.dotenv)
  {
    match Get(v, "load_dotenv")
    case Some(Boolean(on)) => b.(loadDotenv := on, env := if on then MergeDotenv(b.env, proc.dotenv) else b.env)
    case _ => b
  }

  /** `working_dir`: kept when it is a string. */
  function WorkingDir(b: CommandBuilder, v: Toml): CommandBuilder
  {
    match Get(v, "working_dir")
    case Some(Str(d)) => b.(workingDir := d)
    case _ => b
  }

  /** `parallel`: kept when it is a boolean. */
  function Parallel(b: CommandBuilder, v: Toml): CommandBuilder
  {
    match Get(v, "parallel")
    case Some(Boolean(on)) => b.(parallel := on)
    case _ => b
  }

  /** `delay`: an integer or float number of seconds. */
  function Delay(b: CommandBuilder, v: Toml): CommandBuilder
  {
    b.(delay := DelaySeconds(b.delay, v))
  }

  function DelaySeconds(current: real, v: Toml): real
  {
    match Get(v, "delay")
    case Some(Integer(i)) => i as real
    case Some(Float(f)) => f
    case _ => current
  }

  /** `working_dir`, `parallel` and `delay`, each kept only when of the expected kind. */
  function Settings(b: CommandBuilder, v: Toml): (r: CommandBuilder)
    ensures r == b.(workingDir := r.workingDir, parallel := r.parallel, delay := r.delay)
  {
    Delay(Parallel(WorkingDir(b, v), v), v)
  }

  /** The fields after `args`: `load_dotenv`, `working_dir`, `parallel`, `delay`, `prefix`, `suffix`, `shell`. */
  function Tail(b: CommandBuilder, v: Toml, proc: Process): (r: Result<CommandBuilder>)
    ensures r.Err? <==> ContainsKey(v, "prefix") || ContainsKey(v, "suffix")
    ensures r.Err? ==> r.fault == Unimplemented(if ContainsKey(v, "prefix") then "prefix" else "suffix")
    ensures r.Ok? ==> r.value == b.(loadDotenv := r.value.loadDotenv, env := r.value.env, workingDir := r.value.workingDir,
                                    parallel := r.value.parallel, delay := r.value.delay, shell := r.value.shell)
    ensures r.Ok? ==> r.value.env == Dotenv(b, v, proc).env && r.value.loadDotenv == Dotenv(b, v, proc).loadDotenv
  {
    var b8 := Settings(Dotenv(b, v, proc), v);
    if ContainsKey(v, "prefix") then Err(Unimplemented("prefix"))
    else if ContainsKey(v, "suffix") then Err(Unimplemented("suffix"))
    else Ok(match Get(v, "shell") case Some(Str(sh)) => b8.(shell := sh) case _ => b8)
  }

  /** Every field but `cmd`, read in the source's order; `prefix` and `suffix` are `todo!()`. */
  function Staged(v: Toml, proc: Process): (r: Result<CommandBuilder>)
    ensures r.Err? <==> ArgsField(v, proc.argv).Err? || ContainsKey(v, "prefix") || ContainsKey(v, "suffix")
    ensures r.Err? && ArgsField(v, proc.argv).Ok? ==> r.fault == Unimplemented(if ContainsKey(v, "prefix") then "prefix" else "suffix")
    ensures r.Ok? ==> r.value.args == ArgsField(v, proc.argv).value && r.value.command == Head(v).command
    ensures r.Ok? ==> r.value.children == [] && r.value.fileHandles == [] && !r.value.isSection &&
                      r.value.prefix == [] && r.value.suffix == []
    ensures r.Ok? && Get(v, "load_dotenv") == Some(Boolean(true)) ==>
      r.value.loadDotenv && r.value.env == MergeDotenv(Head(v).env, proc.dotenv)
  {
    match ArgsField(v, proc.argv)
    case Err(f) => Err(f)
    case Ok(args) => Tail(Head(v).(args := args), v, proc)
  }

  /** `Command::from(v)`. */
  function From(v: Toml, proc: Process, tmp: nat): (r: Outcome<Command>)
    ensures r.Done? ==> r.tmp >= tmp
    decreases v, 3
  {
    match Staged(v, proc)
    case Err(f) => Aborted(f)
    case Ok(b) => WithCmd(v, b, proc, tmp)
  }

  /** The `cmd` field on top of the staged fields. */
  function WithCmd(v: Toml, b: CommandBuilder, proc: Process, tmp: nat): (r: Outcome<Command>)
    ensures r.Done? ==> r.tmp >= tmp
    ensures r.Done? ==> r.value == Build(b).(command := r.value.command, fileHandles := r.value.fileHandles, children := r.value.children)
    decreases v, 2
  {
    match Get(v, "cmd")
    case None => Done(Build(b), tmp)
    case Some(c) =>
      GetIsSmaller(v, "cmd");
      CmdValue(c, b, proc, tmp)
  }

  /**
   * The value `c` of a `cmd` key: a string is the body (a
   * multi-line one through a temporary file), an array gives one child per
   * element, a table gives the child its own `cmd` describes.
   */
  function CmdValue(c: Toml, b: CommandBuilder, proc: Process, tmp: nat): (r: Outcome<Command>)
    ensures r.Done? ==> r.tmp >= tmp
    ensures r.Done? ==> r.value == Build(b).(command := r.value.command, fileHandles := r.value.fileHandles, children := r.value.children)
    decreases c, 2
  {
    match c
    case Str(s) => Done(CmdText(s, b, tmp), if '\n' in s then tmp + 1 else tmp)
    case Array(a) => CmdArray(a, b, proc, tmp)
    case Table(t) => CmdTable(t, b, proc, tmp)
    case _ => Done(Build(b), tmp)
  }

  /**
   * A string `cmd`: a multi-line one is written, with `$name` substituted,
   * to the `tmp`-th temporary file, which becomes the body; a single-line one
   * is split on single spaces and each token substituted.
   */
  function CmdText(s: string, b: CommandBuilder, tmp: nat): (c: Command)
    ensures c == Build(b).(command := c.command, fileHandles := c.fileHandles)
  {
    if '\n' in s then
      var path := TempPath(tmp);
      Build(b.(command := [path], fileHandles := b.fileHandles + [TempFile(path, Substitute(s, b.args))]))
    else
      Build(b.(command := SubstituteTokens(Split(s, ' '), b.args)))
  }

  /** An array `cmd`: the children of its elements are appended. */
  function CmdArray(a: seq<Toml>, b: CommandBuilder, proc: Process, tmp: nat): (r: Outcome<Command>)
    ensures r.Done? ==> r.tmp >= tmp
    ensures r.Done? ==> r.value == Build(b).(children := r.value.children)
    decreases Array(a), 1
  {
    match FromChildren(a, 0, b, proc, tmp)
    case Aborted(f) => Aborted(f)
    case Done(kids, next) => Done(Build(b.(children := b.children + kids)), next)
  }

  /** A table `cmd`: the node its own `cmd` describes, if any, is appended as one child. */
  function CmdTable(t: seq<(string, Toml)>, b: CommandBuilder, proc: Process, tmp: nat): (r: Outcome<Command>)
    ensures r.Done? ==> r.tmp >= tmp
    ensures r.Done? ==> r.value == Build(b).(children := r.value.children)
    decreases Table(t), 1
  {
    match Lookup(t, "cmd")
    case None => Done(Build(b), tmp)
    case Some(inner) =>
      assert ("cmd", inner) in t;
      match From(inner, proc, tmp)
      case Aborted(f) => Aborted(f)
      case Done(child, next) => Done(Build(b.(children := b.children + [child])), next)
  }

  /** A string element of a `cmd` array takes the parent's arguments, environment and directory. */
  function Inherit(item: Toml, child: Command, parent: CommandBuilder): Command
  {
    if item.Str? then child.(args := parent.args, env := parent.env, workingDir := parent.workingDir) else child
  }

  /**
   * The child one element of a `cmd` array gives: the element's own node,
   * with the parent's arguments, environment and directory when the element
   * is a string, and each token `c` of its body replaced by the argument
   * named `c[1..]` when there is one.
   */
  function ChildOf(item: Toml, parent: CommandBuilder, proc: Process, tmp: nat): (r: Outcome<Command>)
    ensures r.Done? ==> r.tmp >= tmp
    decreases item, 4
  {
    match From(item, proc, tmp)
    case Aborted(f) => Aborted(f)
    case Done(child, next) =>
      var inherited := Inherit(item, child, parent);
      match ResolveTokens(inherited.command, inherited.args)
      case Err(f) => Aborted(f)
      case Ok(toks) => Done(inherited.(command := toks), next)
  }

  /** The children of a `cmd` array from the `i`-th element on. */
  function FromChildren(items: seq<Toml>, i: nat, parent: CommandBuilder, proc: Process, tmp: nat): (r: Outcome<seq<Command>>)
    requires i <= |items|
    ensures r.Done? ==> r.tmp >= tmp && |r.value| == |items| - i
    decreases items, 0, |items| - i
  {
    if i == |items| then Done([], tmp)
    else
      match ChildOf(items[i], parent, proc, tmp)
      case Aborted(f) => Aborted(f)
      case Done(child, next) =>
        match FromChildren(items, i + 1, parent, proc, next)
        case Aborted(f) => Aborted(f)
        case Done(rest, last) => Done([child] + rest, last)
  }

  /** Puts children already built in front of an outcome. */
  function Prepend(kids: seq<Command>, o: Outcome<seq<Command>>): Outcome<seq<Command>>
  {
    match o
    case Aborted(f) => Aborted(f)
    case Done(rest, t) => Done(kids + rest, t)
  }

  // ---------------------------------------------------------------------------
  // The construction as the source writes it: a builder updated field by field

  /** `Command::from(v)`, step by step. */
  method FromValue(v: Toml, proc: Process, tmp: nat) returns (r: Outcome<Command>)
    ensures r == From(v, proc, tmp)
    decreases v, 3
  {
    var staged := StageFields(v, proc);
    if staged.Err? {
      return Aborted(staged.fault);
    }
    r := AddCmd(v, staged.value, proc, tmp);
  }

  /** A number field: `Some(i as i32)` or `Some(f as i32)`. */
  method ReadNumber(v: Toml, key: string, current: Option<int>) returns (r: Option<int>)
    requires current.None?
    ensures r == NumberField(v, key)
  {
    r := current;
    var x := Get(v, key);
    if x.Some? {
      match x.value {
        case Integer(i) => r := Some(WrapI32(i));
        case Float(f) => r := Some(TruncI32(f));
        case _ =>
      }
    }
  }

  /** The fields before `cmd`, each `if v.get(key).is_some()` block in turn. */
  method StageFields(v: Toml, proc: Process) returns (r: Result<CommandBuilder>)
    ensures r == Staged(v, proc)
  {
    var command := ReadHead(v);
    var args := Get(v, "args");
    if args.Some? && args.value.Array? {
      var declared := InsertArgEntries(args.value.items);
      command := command.(args := declared);
      var toks := RescanArgs(proc.argv);
      if toks.Err? {
        return Err(toks.fault);
      }
      var overridden := OverrideArgs(command.args, toks.value);
      command := command.(args := overridden);
    }
    assert ArgsField(v, proc.argv) == Ok(command.args);
    r := ReadTail(command, v, proc);
  }

  /** The blocks before `args`. */
  method ReadHead(v: Toml) returns (command: CommandBuilder)
    ensures command == Head(v)
  {
    command := Builder();
    if v.Str? {
      command := command.(command := Split(v.s, ' '));
    }
    var repeat := ReadNumber(v, "repeat", command.repeat);
    var maxRepeat := ReadNumber(v, "max_repeat", command.maxRepeat);
    var until := ReadNumber(v, "until", command.until);
    command := command.(repeat := repeat, maxRepeat := maxRepeat, until := until);
    var env := Get(v, "env");
    if env.Some? && env.value.Array? {
      var e := InsertEnvEntries(env.value.items);
      command := command.(env := e);
    }
  }

  /** The blocks after `args`. */
  method ReadTail(b: CommandBuilder, v: Toml, proc: Process) returns (r: Result<CommandBuilder>)
    ensures r == Tail(b, v, proc)
  {
    var command := ReadDotenv(b, v, proc);
    command := ReadSettings(command, v);
    if Get(v, "prefix").Some? {
      return Err(Unimplemented("prefix"));
    }
    if Get(v, "suffix").Some? {
      return Err(Unimplemented("suffix"));
    }
    var shell := Get(v, "shell");
    if shell.Some? && shell.value.Str? {
      command := command.(shell := shell.value.s);
    }
    r := Ok(command);
  }

  /** The `load_dotenv` block. */
  method ReadDotenv(b: CommandBuilder, v: Toml, proc: Process) returns (command: CommandBuilder)
    ensures command == Dotenv(b, v, proc)
  {
    command := b;
    var loadDotenv := Get(v, "load_dotenv");
    if loadDotenv.Some? && loadDotenv.value.Boolean? {
      command := command.(loadDotenv := loadDotenv.value.b);
      if loadDotenv.value.b {
        var merged := MergeDotenvVars(command.env, proc.dotenv);
        command := command.(env := merged);
      }
    }
  }

  /** The `working_dir`, `parallel` and `delay` blocks. */
  method ReadSettings(b: CommandBuilder, v: Toml) returns (command: CommandBuilder)
    ensures command == Settings(b, v)
  {
    command := ReadWorkingDir(b, v);
    command := ReadParallel(command, v);
    var delay := ReadDelay(command.delay, v);
    command := command.(delay := delay);
  }

  /** The `working_dir` block. */
  method ReadWorkingDir(b: CommandBuilder, v: Toml) returns (command: CommandBuilder)
    ensures command == WorkingDir(b, v)
  {
    command := b;
    match Get(v, "working_dir") {
      case Some(Str(d)) => command := command.(workingDir := d);
      case _ =>
    }
  }

  /** The `parallel` block. */
  method ReadParallel(b: CommandBuilder, v: Toml) returns (command: CommandBuilder)
    ensures command == Parallel(b, v)
  {
    command := b;
    match Get(v, "parallel") {
      case Some(Boolean(on)) => command := command.(parallel := on);
      case _ =>
    }
  }

  /** The `delay` block. */
  method ReadDelay(current: real, v: Toml) returns (d: real)
    ensures d == DelaySeconds(current, v)
  {
    d := current;
    match Get(v, "delay") {
      case Some(Integer(i)) => d := i as real;
      case Some(Float(f)) => d := f;
      case _ =>
    }
  }

  /** The `cmd` block, then `command.build()`. */
  method AddCmd(v: Toml, b: CommandBuilder, proc: Process, tmp: nat) returns (r: Outcome<Command>)
    ensures r == WithCmd(v, b, proc, tmp)
    decreases v, 2
  {
    var cmd := Get(v, "cmd");
    if cmd.None? {
      return Done(Build(b), tmp);
    }
    GetIsSmaller(v, "cmd");
    assert WithCmd(v, b, proc, tmp) == CmdValue(cmd.value, b, proc, tmp);
    var command := b;
    var next := tmp;
    match cmd.value {
      case Str(s) =>
        if '\n' in s {
          var text := SubstituteText(s, command.args);
          var path := TempPath(next);
          command := command.(command := [path], fileHandles := command.fileHandles + [TempFile(path, text)]);
          next := next + 1;
        } else {
          var toks := SubstituteEach(Split(s, ' '), command.args);
          command := command.(command := toks);
        }
      case Array(a) =>
        assert forall k :: 0 <= k < |a| ==> a[k] < cmd.value;
        assert CmdValue(cmd.value, b, proc, tmp) == CmdArray(a, b, proc, tmp);
        var kids := BuildChildren(a, command, proc, next);
        if kids.Aborted? {
          return Aborted(kids.fault);
        }
        command := command.(children := command.children + kids.value);
        next := kids.tmp;
      case Table(t) =>
        assert CmdValue(cmd.value, b, proc, tmp) == CmdTable(t, b, proc, tmp);
        var inner := Lookup(t, "cmd");
        if inner.Some? {
          assert ("cmd", inner.value) in t;
          var child := FromValue(inner.value, proc, next);
          if child.Aborted? {
            return Aborted(child.fault);
          }
          command := command.(children := command.children + [child.value]);
          next := child.tmp;
        }
      case _ =>
    }
    r := Done(Build(command), next);
  }

  /** One element of a `cmd` array: build, inherit, resolve tokens. */
  method BuildChild(item: Toml, parent: CommandBuilder, proc: Process, tmp: nat) returns (r: Outcome<Command>)
    ensures r == ChildOf(item, parent, proc, tmp)
    decreases item, 4
  {
    var built := FromValue(item, proc, tmp);
    if built.Aborted? {
      return Aborted(built.fault);
    }
    var cmd := built.value;
    if item.Str? {
      cmd := cmd.(args := parent.args, env := parent.env, workingDir := parent.workingDir);
    }
    assert cmd == Inherit(item, built.value, parent);
    var toks := ResolveEach(cmd.command, cmd.args);
    if toks.Err? {
      return Aborted(toks.fault);
    }
    r := Done(cmd.(command := toks.value), built.tmp);
  }

  /** The loop over a `cmd` array: one child per element, pushed in order; the first panic ends it. */
  method BuildChildren(items: seq<Toml>, parent: CommandBuilder, proc: Process, tmp: nat)
    returns (r: Outcome<seq<Command>>)
    ensures r == FromChildren(items, 0, parent, proc, tmp)
    decreases items, 0
  {
    var kids: seq<Command> := [];
    var next := tmp;
    var i := 0;
    PrependNothing(FromChildren(items, 0, parent, proc, tmp));
    while i < |items|
      invariant i <= |items|
      invariant FromChildren(items, 0, parent, proc, tmp) == Prepend(kids, FromChildren(items, i, parent, proc, next))
    {
      var child := BuildChild(items[i], parent, proc, next);
      if child.Aborted? {
        assert FromChildren(items, i, parent, proc, next) == Aborted(child.fault);
        return Aborted(child.fault);
      }
      ChildAdvance(items, i, parent, proc, tmp, next, kids);
      kids := kids + [child.value];
      next := child.tmp;
      i := i + 1;
    }
    assert kids + [] == kids;
    r := Done(kids, next);
  }

  lemma PrependNothing(o: Outcome<seq<Command>>)
    ensures Prepend([], o) == o
  {
    if o.Done? {
      assert [] + o.value == o.value;
    }
  }

  /** The loop's invariant carries over an element that builds and resolves. */
  lemma ChildAdvance(items: seq<Toml>, i: nat, parent: CommandBuilder, proc: Process, tmp: nat, next: nat, kids: seq<Command>)
    requires i < |items|
    requires FromChildren(items, 0, parent, proc, tmp) == Prepend(kids, FromChildren(items, i, parent, proc, next))
    requires ChildOf(items[i], parent, proc, next).Done?
    ensures var c := ChildOf(items[i], parent, proc, next);
      FromChildren(items, 0, parent, proc, tmp) == Prepend(kids + [c.value], FromChildren(items, i + 1, parent, proc, c.tmp))
  {
    var c := ChildOf(items[i], parent, proc, next);
    var rest := FromChildren(items, i + 1, parent, proc, c.tmp);
    if rest.Done? {
      assert kids + ([c.value] + rest.value) == (kids + [c.value]) + rest.value;
    }
  }

  // ---------------------------------------------------------------------------
  // What the construction promises

  /** A bare string is a body split on single spaces, every other field at its default. */
  lemma BareString(s: string, proc: Process, tmp: nat)
    ensures From(Str(s), proc, tmp) == Done(Build(Builder().(command := Split(s, ' '))), tmp)
    ensures var c := From(Str(s), proc, tmp).value;
      |c.command| == Count(s, ' ') + 1 && Join(c.command, ' ') == s && c.children == []
  {
    SplitJoin(s, ' ');
  }

  /** Two spaces in a row give an empty token between them. */
  lemma DoubleSpaceGivesEmptyToken(proc: Process, tmp: nat)
    ensures From(Str("cargo  build"), proc, tmp).value.command == ["cargo", "", "build"]
  {
    var parts := ["cargo", "", "build"];
    assert parts[1..][1..] == ["build"];
    assert Join(parts[1..], ' ') == [' '] + "build";
    assert Join(parts, ' ') == "cargo" + [' '] + [' '] + "build";
    assert "cargo" + [' '] + [' '] + "build" == "cargo  build";
    JoinSplit(parts, ' ');
    BareString("cargo  build", proc, tmp);
  }

  /** A `prefix` or `suffix` key always panics: the scan of the arguments, or else `todo!()`. */
  lemma PrefixOrSuffixPanics(v: Toml, proc: Process, tmp: nat)
    requires ContainsKey(v, "prefix") || ContainsKey(v, "suffix")
    ensures From(v, proc, tmp).Aborted?
    ensures ArgsField(v, proc.argv).Ok? ==>
      From(v, proc, tmp).fault == Unimplemented(if ContainsKey(v, "prefix") then "prefix" else "suffix")
  {
  }

  /** `cmd` touches only the body, the temporary files and the children: every other field is as staged. */
  lemma CmdKeepsFields(v: Toml, proc: Process, tmp: nat)
    requires From(v, proc, tmp).Done?
    ensures Staged(v, proc).Ok?
    ensures var b := Staged(v, proc).value; var c := From(v, proc, tmp).value;
      c.args == b.args && c.env == b.env && c.workingDir == b.workingDir && c.repeat == b.repeat &&
      c.maxRepeat == b.maxRepeat && c.until == b.until && c.parallel == b.parallel && c.loadDotenv == b.loadDotenv &&
      c.delay == b.delay && c.shell == b.shell && !c.isSection && c.prefix == [] && c.suffix == []
  {
  }

  /**
   * A multi-line `cmd` string becomes one fresh temporary file holding the
   * text with `$name` substituted; the body runs that file.
   */
  lemma MultiLineCmd(v: Toml, proc: Process, tmp: nat, s: string)
    requires Get(v, "cmd") == Some(Str(s)) && '\n' in s
    requires Staged(v, proc).Ok?
    ensures From(v, proc, tmp).Done? && From(v, proc, tmp).tmp == tmp + 1
    ensures var c := From(v, proc, tmp).value;
      c.command == [TempPath(tmp)] && c.fileHandles == [TempFile(TempPath(tmp), Substitute(s, c.args))] &&
      c.children == []
  {
    var b := Staged(v, proc).value;
    assert b.fileHandles == [] && b.children == [];
    GetIsSmaller(v, "cmd");
    assert From(v, proc, tmp) == WithCmd(v, b, proc, tmp);
    assert WithCmd(v, b, proc, tmp) == CmdValue(Str(s), b, proc, tmp);
  }

  /** A single-line `cmd` string is split on single spaces and each token substituted. */
  lemma SingleLineCmd(v: Toml, proc: Process, tmp: nat, s: string)
    requires Get(v, "cmd") == Some(Str(s)) && '\n' !in s
    requires Staged(v, proc).Ok?
    ensures From(v, proc, tmp).Done? && From(v, proc, tmp).tmp == tmp
    ensures var c := From(v, proc, tmp).value;
      |c.command| == Count(s, ' ') + 1 &&
      (forall i :: 0 <= i < |c.command| ==> c.command[i] == Substitute(Split(s, ' ')[i], c.args)) &&
      c.fileHandles == [] && c.children == []
  {
    var b := Staged(v, proc).value;
    assert b.fileHandles == [] && b.children == [];
    GetIsSmaller(v, "cmd");
    assert From(v, proc, tmp) == WithCmd(v, b, proc, tmp);
    assert WithCmd(v, b, proc, tmp) == CmdValue(Str(s), b, proc, tmp);
  }

  /**
   * The child a string element `s` of a `cmd` array gives under `parent`:
   * a body split on single spaces with each token `c` replaced by the
   * argument named `c[1..]` when the parent declares one, and the parent's
   * arguments, environment and directory; every other field at its default.
   */
  function StrChild(s: string, parent: CommandBuilder): (r: Result<Command>)
    ensures r.Err? <==> ResolveTokens(Split(s, ' '), parent.args).Err?
    ensures r.Ok? ==>
      r.value.args == parent.args && r.value.env == parent.env && r.value.workingDir == parent.workingDir &&
      r.value.command == ResolveTokens(Split(s, ' '), parent.args).value &&
      r.value.children == [] && r.value.fileHandles == [] && !r.value.parallel
  {
    match ResolveTokens(Split(s, ' '), parent.args)
    case Err(f) => Err(f)
    case Ok(toks) =>
      Ok(Build(Builder().(command := toks, args := parent.args, env := parent.env, workingDir := parent.workingDir)))
  }

  /** The children of a `cmd` array from the `i`-th element on: a string element gives its `StrChild`. */
  predicate StrKids(items: seq<Toml>, i: nat, parent: CommandBuilder, kids: seq<Command>)
    requires i <= |items| && |kids| == |items| - i
  {
    forall k :: i <= k < |items| && items[k].Str? ==> StrChild(items[k].s, parent) == Ok(kids[k - i])
  }

  /** Every string element of a `cmd` array gives its `StrChild`, at its own position. */
  lemma {:induction false} ChildrenFromElements(items: seq<Toml>, i: nat, parent: CommandBuilder, proc: Process, tmp: nat)
    requires i <= |items|
    requires FromChildren(items, i, parent, proc, tmp).Done?
    ensures StrKids(items, i, parent, FromChildren(items, i, parent, proc, tmp).value)
    decreases |items| - i
  {
    if i < |items| {
      var child := ChildOf(items[i], parent, proc, tmp);
      var kids := FromChildren(items, i, parent, proc, tmp).value;
      var rest := FromChildren(items, i + 1, parent, proc, child.tmp).value;
      assert child.Done? && kids == [child.value] + rest;
      ChildrenFromElements(items, i + 1, parent, proc, child.tmp);
      if items[i].Str? {
        StrElement(items[i].s, parent, proc, tmp);
      }
      StrKidsStep(items, i, parent, child.value, rest);
    }
  }

  /** A string element's `StrChild` in front of the later ones: the list from element `i` on. */
  lemma StrKidsStep(items: seq<Toml>, i: nat, parent: CommandBuilder, kid: Command, rest: seq<Command>)
    requires i < |items| && |rest| == |items| - i - 1
    requires items[i].Str? ==> StrChild(items[i].s, parent) == Ok(kid)
    requires StrKids(items, i + 1, parent, rest)
    ensures StrKids(items, i, parent, [kid] + rest)
  {
    var kids := [kid] + rest;
    forall k | i < k < |items| && items[k].Str?
      ensures StrChild(items[k].s, parent) == Ok(kids[k - i])
    {
      assert kids[k - i] == rest[k - (i + 1)];
    }
  }

  /** A string element's child is its `StrChild`. */
  lemma StrElement(s: string, parent: CommandBuilder, proc: Process, tmp: nat)
    ensures ChildOf(Str(s), parent, proc, tmp) ==
      match StrChild(s, parent)
      case Ok(c) => Done(c, tmp)
      case Err(f) => Aborted(f)
  {
    BareString(s, proc, tmp);
    var bare := Build(Builder().(command := Split(s, ' ')));
    assert Inherit(Str(s), bare, parent) == bare.(args := parent.args, env := parent.env, workingDir := parent.workingDir);
  }

  /**
   * The child a non-string element `item` of a `cmd` array gives when
   * built at temporary-file counter `t`: the element's own node, by `From`,
   * with each token of its body resolved against its own arguments.
   */
  function OwnChild(item: Toml, proc: Process, t: nat): Outcome<Command>
  {
    match From(item, proc, t)
    case Aborted(f) => Aborted(f)
    case Done(child, next) =>
      match ResolveTokens(child.command, child.args)
      case Err(f) => Aborted(f)
      case Ok(toks) => Done(child.(command := toks), next)
  }

  /**
   * A non-string element's child keeps the element's own arguments,
   * environment and directory: nothing comes from the parent.
   */
  lemma OwnChildKeepsOwn(item: Toml, proc: Process, t: nat)
    requires OwnChild(item, proc, t).Done?
    ensures Staged(item, proc).Ok?
    ensures var b := Staged(item, proc).value; var kid := OwnChild(item, proc, t).value;
      kid.args == b.args && kid.env == b.env && kid.workingDir == b.workingDir
  {
    CmdKeepsFields(item, proc, t);
  }

  /** The temporary-file counter at which the `k`-th element of a `cmd` array is built, starting from element `i`. */
  function TmpAt(items: seq<Toml>, i: nat, parent: CommandBuilder, proc: Process, tmp: nat, k: nat): nat
    requires i <= k < |items|
    decreases k - i
  {
    if k == i then tmp
    else
      match ChildOf(items[i], parent, proc, tmp)
      case Aborted(_) => tmp
      case Done(_, next) => TmpAt(items, i + 1, parent, proc, next, k)
  }

  /** The `k`-th child of a `cmd` array is that element's child, built at its own counter. */
  lemma {:induction false} ChildAt(items: seq<Toml>, i: nat, parent: CommandBuilder, proc: Process, tmp: nat, k: nat)
    requires i <= k < |items|
    requires FromChildren(items, i, parent, proc, tmp).Done?
    ensures var t := TmpAt(items, i, parent, proc, tmp, k);
      ChildOf(items[k], parent, proc, t).Done? &&
      FromChildren(items, i, parent, proc, tmp).value[k - i] == ChildOf(items[k], parent, proc, t).value
    decreases k - i
  {
    var child := ChildOf(items[i], parent, proc, tmp);
    var kids := FromChildren(items, i, parent, proc, tmp).value;
    var rest := FromChildren(items, i + 1, parent, proc, child.tmp);
    assert child.Done? && rest.Done? && kids == [child.value] + rest.value;
    if k > i {
      ChildAt(items, i + 1, parent, proc, child.tmp, k);
      assert kids[k - i] == rest.value[k - (i + 1)];
    }
  }

  /** A non-string element's child does not depend on the parent: it is its `OwnChild`. */
  lemma TableElement(item: Toml, parent: CommandBuilder, proc: Process, t: nat)
    requires !item.Str?
    ensures ChildOf(item, parent, proc, t) == OwnChild(item, proc, t)
  {
  }

  /**
   * The children of an array `cmd` value, one per element: string elements
   * give their `StrChild`, other elements their own `OwnChild`, built at
   * the counter the elements before them leave.
   */
  lemma {:induction false} ArrayChildren(a: seq<Toml>, b: CommandBuilder, proc: Process, tmp: nat)
    requires b.children == []
    requires CmdArray(a, b, proc, tmp).Done?
    ensures var c := CmdArray(a, b, proc, tmp).value;
      |c.children| == |a| && c.args == b.args && c.env == b.env && c.workingDir == b.workingDir &&
      (forall k :: 0 <= k < |a| && a[k].Str? ==> StrChild(a[k].s, b) == Ok(c.children[k])) &&
      (forall k :: 0 <= k < |a| && !a[k].Str? ==>
        var own := OwnChild(a[k], proc, TmpAt(a, 0, b, proc, tmp, k)); own.Done? && c.children[k] == own.value)
  {
    var kids := FromChildren(a, 0, b, proc, tmp);
    var c := CmdArray(a, b, proc, tmp).value;
    assert kids.Done? && c == Build(b.(children := kids.value));
    ChildrenFromElements(a, 0, b, proc, tmp);
    assert StrKids(a, 0, b, kids.value);
    forall k | 0 <= k < |a| && !a[k].Str?
      ensures var own := OwnChild(a[k], proc, TmpAt(a, 0, b, proc, tmp, k)); own.Done? && c.children[k] == own.value
    {
      ChildAt(a, 0, b, proc, tmp, k);
      TableElement(a[k], b, proc, TmpAt(a, 0, b, proc, tmp, k));
    }
  }

  /**
   * An array `cmd` gives exactly one child per element, in order; a string
   * element gives the `StrChild` of the node's own arguments, environment
   * and directory, any other element its own node (`OwnChild`), which
   * keeps its own arguments, environment and directory
   * (`OwnChildKeepsOwn`).
   */
  lemma ArrayCmd(v: Toml, proc: Process, tmp: nat, a: seq<Toml>)
    requires Get(v, "cmd") == Some(Array(a))
    requires From(v, proc, tmp).Done?
    ensures var c := From(v, proc, tmp).value;
      |c.children| == |a| &&
      (forall k :: 0 <= k < |a| && a[k].Str? ==> StrChild(a[k].s, Unbuild(c).(children := [])) == Ok(c.children[k])) &&
      (forall k :: 0 <= k < |a| && !a[k].Str? ==>
        var own := OwnChild(a[k], proc, TmpAt(a, 0, Unbuild(c).(children := []), proc, tmp, k));
        own.Done? && c.children[k] == own.value)
  {
    GetIsSmaller(v, "cmd");
    var b := Staged(v, proc).value;
    assert b.children == [];
    assert From(v, proc, tmp) == WithCmd(v, b, proc, tmp) == CmdValue(Array(a), b, proc, tmp) == CmdArray(a, b, proc, tmp);
    ArrayChildren(a, b, proc, tmp);
    assert Unbuild(From(v, proc, tmp).value).(children := []) == b;
  }

  /** A table `cmd` value with its own `cmd` gives one child, built from that inner value alone. */
  lemma TableChild(t: seq<(string, Toml)>, b: CommandBuilder, proc: Process, tmp: nat)
    requires b.children == []
    requires CmdTable(t, b, proc, tmp).Done?
    ensures var c := CmdTable(t, b, proc, tmp).value;
      match Lookup(t, "cmd")
      case None => c.children == []
      case Some(inner) => From(inner, proc, tmp).Done? && c.children == [From(inner, proc, tmp).value]
  {
    match Lookup(t, "cmd")
    case None =>
      assert CmdTable(t, b, proc, tmp) == Done(Build(b), tmp);
    case Some(inner) =>
      var child := From(inner, proc, tmp);
      assert CmdTable(t, b, proc, tmp) ==
        match child
        case Aborted(f) => Aborted(f)
        case Done(c1, next) => Done(Build(b.(children := b.children + [c1])), next);
      assert b.children + [child.value] == [child.value];
  }

  /** A table `cmd` with its own `cmd` gives one child, built from that inner value alone. */
  lemma TableCmd(v: Toml, proc: Process, tmp: nat, t: seq<(string, Toml)>)
    requires Get(v, "cmd") == Some(Table(t))
    requires From(v, proc, tmp).Done?
    ensures var c := From(v, proc, tmp).value;
      match Lookup(t, "cmd")
      case None => c.children == []
      case Some(inner) => From(inner, proc, tmp).Done? && c.children == [From(inner, proc, tmp).value]
  {
    var b := Staged(v, proc).value;
    GetIsSmaller(v, "cmd");
    assert b.children == [];
    assert From(v, proc, tmp) == WithCmd(v, b, proc, tmp) == CmdValue(Table(t), b, proc, tmp) == CmdTable(t, b, proc, tmp);
    TableChild(t, b, proc, tmp);
  }

  /**
   * Command-line overrides never declare an argument: a name is declared
   * exactly when an `args` element declares it, and a declared name holds the
   * last override for it, or else its last declared value.
   */
  lemma OverridesOnlyUpdate(v: Toml, proc: Process, tmp: nat, a: seq<Toml>, k: string)
    requires Get(v, "args") == Some(Array(a))
    requires From(v, proc, tmp).Done?
    ensures OverrideTokens(proc.argv).Ok?
    ensures var c := From(v, proc, tmp).value;
      var toks := OverrideTokens(proc.argv).value;
      var j := LastWith(OverrideEntries(toks), k);
      var d := LastWith(ArgEntries(a), k);
      (k in Keys(c.args) <==> d >= 0) &&
      ArgLookup(c.args, k) ==
        if d >= 0 && j >= 0 then Some(KeyValue(toks[j]).value.1)
        else if d >= 0 then Some(ArgEntry(a[d]).value.1)
        else None
  {
    CmdKeepsFields(v, proc, tmp);
    var toks := OverrideTokens(proc.argv).value;
    ArgsLastWins(a, k);
    OverrideLastWins(ArgsOf(a), toks, k);
  }

  /**
   * With `load_dotenv = true`, names set by `env` keep their values; a name
   * `env` does not set gets the first value the process environment (after
   * `.env` is loaded) has for it, if any. Without an `env` array, `env` is
   * empty and every variable of the environment lands in it.
   */
  lemma DotenvKeepsEnv(v: Toml, proc: Process, tmp: nat, k: string)
    requires Get(v, "load_dotenv") == Some(Boolean(true))
    requires From(v, proc, tmp).Done?
    ensures var c := From(v, proc, tmp).value; var e := Head(v).env;
      c.loadDotenv &&
      (k in e ==> k in c.env && c.env[k] == e[k]) &&
      (k !in e ==> (k in c.env <==> k in Keys(proc.dotenv))) &&
      (k !in e && k in Keys(proc.dotenv) ==> c.env[k] == Lookup(proc.dotenv, k).value)
    ensures !(Get(v, "env").Some? && Get(v, "env").value.Array?) ==>
      var c := From(v, proc, tmp).value;
      c.env == MergeDotenv(map[], proc.dotenv)
  {
    CmdKeepsFields(v, proc, tmp);
    DotenvNeverOverwrites(Head(v).env, proc.dotenv, k);
  }
}
