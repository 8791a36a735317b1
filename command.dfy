/**
 * The resolved command node of the task runner (`Command`, src/command.rs)
 * and its staging record (`CommandBuilder`), with the named-argument table
 * they carry.
 */
module Commands {
  import opened Text
  import opened Values

  /**
   * The named arguments of a command (`args: HashMap<String, String>`),
   * kept as a list of (name, value) pairs in insertion order: inserting an
   * existing name updates its value where it stands, a new name is
   * appended. Iterating the arguments visits them in this order.
   */
  type Args = seq<(string, string)>

  /** The value of the argument `name`, if it is declared. */
  function ArgLookup(args: Args, name: string): (r: Option<string>)
    ensures r.Some? <==> name in Keys(args)
    ensures r.Some? ==> (name, r.value) in args
  {
    if args == [] then None
    else if args[0].0 == name then Some(args[0].1)
    else ArgLookup(args[1..], name)
  }

  /** `args.insert(name, value)`: the names stay in place, a new one goes last. */
  function ArgInsert(args: Args, name: string, value: string): (r: Args)
    ensures Keys(r) == if name in Keys(args) then Keys(args) else Keys(args) + [name]
  {
    if args == [] then [(name, value)]
    else if args[0].0 == name then [(name, value)] + args[1..]
    else
      var rest := ArgInsert(args[1..], name, value);
      assert Keys(args) == [args[0].0] + Keys(args[1..]);
      assert Keys([args[0]] + rest) == [args[0].0] + Keys(rest);
      [args[0]] + rest
  }

  /** After an insert, the name maps to the new value and every other name is untouched. */
  lemma {:induction false} ArgInsertLookup(args: Args, name: string, value: string, other: string)
    ensures ArgLookup(ArgInsert(args, name, value), other)
         == if other == name then Some(value) else ArgLookup(args, other)
  {
    if args != [] && args[0].0 != name {
      ArgInsertLookup(args[1..], name, value, other);
    }
  }

  /** The ways the core panics; each stands for one `unwrap`, `remove(0)`, slice or `todo!()` that fails. */
  datatype Fault =
    | Unimplemented(key: string)     // `todo!()` on a `prefix` or `suffix` key
    | NoProgramName                  // `remove(0)` on an empty argument vector
    | NoFileName                     // `-f`/`--file` with nothing after it
    | NoTaskName                     // `remove(0)` on an empty list of command arguments
    | BadTokenSlice(token: string)   // `c[1..]` on an empty token or one opening with a multi-byte character
    | NotATable                      // `as_table().unwrap()` / `as_object().unwrap()` on something else
    | NoExtension(file: string)      // `extension().unwrap()` on a file name without one

  /** A computation that either yields a value or panics. */
  datatype Result<T> = Ok(value: T) | Err(fault: Fault)

  /** A temporary script file the node keeps open while it exists (`file_handles`). */
  datatype TempFile = TempFile(path: string, contents: string)

  /** The path of the `n`-th temporary file created; a fresh name for every `n`. */
  function TempPath(n: nat): string
  {
    "/tmp/.tmp" + Digits(n)
  }

  /** `Command`: a resolved, executable node. */
  datatype Command = Command(
    isSection: bool,
    repeat: Option<int>,
    maxRepeat: Option<int>,
    until: Option<int>,
    env: map<string, string>,
    args: Args,
    loadDotenv: bool,
    workingDir: string,
    command: seq<string>,
    parallel: bool,
    prefix: seq<Command>,
    suffix: seq<Command>,
    delay: real,
    shell: string,
    fileHandles: seq<TempFile>,
    children: seq<Command>)

  /** `CommandBuilder`: the staging record filled in field by field before `build`. */
  datatype CommandBuilder = CommandBuilder(
    isSection: bool,
    repeat: Option<int>,
    maxRepeat: Option<int>,
    until: Option<int>,
    env: map<string, string>,
    args: Args,
    loadDotenv: bool,
    workingDir: string,
    command: seq<string>,
    parallel: bool,
    prefix: seq<Command>,
    suffix: seq<Command>,
    delay: real,
    shell: string,
    fileHandles: seq<TempFile>,
    children: seq<Command>)

  /**
   * `Command::builder()`: a node with no body, no children, no repetition
   * policy, no environment and no arguments, run sequentially in the current
   * directory without delay.
   */
  function Builder(): (b: CommandBuilder)
    ensures !b.isSection && !b.loadDotenv && !b.parallel
    ensures b.repeat.None? && b.maxRepeat.None? && b.until.None?
    ensures b.env == map[] && b.args == []
    ensures b.workingDir == "" && b.shell == "" && b.delay == 0.0
    ensures b.command == [] && b.children == [] && b.prefix == [] && b.suffix == []
    ensures b.fileHandles == []
  {
    CommandBuilder(false, None, None, None, map[], [], false, "", [], false, [], [], 0.0, "", [], [])
  }

  /** Reads the fields of a node back into a staging record. */
  function Unbuild(c: Command): CommandBuilder
  {
    CommandBuilder(c.isSection, c.repeat, c.maxRepeat, c.until, c.env, c.args, c.loadDotenv,
                   c.workingDir, c.command, c.parallel, c.prefix, c.suffix, c.delay, c.shell,
                   c.fileHandles, c.children)
  }

  /** `CommandBuilder::build`: every staged field is carried over, nothing is lost or added. */
  function Build(b: CommandBuilder): (c: Command)
    ensures Unbuild(c) == b
  {
    Command(b.isSection, b.repeat, b.maxRepeat, b.until, b.env, b.args, b.loadDotenv,
            b.workingDir, b.command, b.parallel, b.prefix, b.suffix, b.delay, b.shell,
            b.fileHandles, b.children)
  }

  /** Building is one-to-one: every node is the build of exactly one staging record. */
  lemma BuildOneToOne(c: Command, b1: CommandBuilder, b2: CommandBuilder)
    ensures Build(Unbuild(c)) == c
    ensures Build(b1) == Build(b2) ==> b1 == b2
  {
    if Build(b1) == Build(b2) {
      assert Unbuild(Build(b1)) == Unbuild(Build(b2));
    }
  }

  /** The node that `Command::builder().build()` gives: a section-less, body-less node. */
  function EmptyCommand(): (c: Command)
    ensures c.command == [] && c.children == [] && !c.isSection && !c.parallel
  {
    Build(Builder())
  }
}
