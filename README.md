# cargo-commander, modelled in Dafny

cargo-commander (`cargo cmd`) is a task runner. It reads named commands from
`Commands.toml`, `commands.json`, `Cargo.toml` (`[commands]` and
`[package.metadata.commands]`) and `package.json` (`scripts`) in the current
directory and every directory above it, plus an optional file named with
`-f`. It then runs the command named on the command line, passing the
remaining arguments through.

This project models the core of that program:

- **The command node** (`src/command.rs`): the builder and `build`, and
  `From<&toml::Value>`. `From` covers the typed fields with their `i32`
  casts, `env` and `args` entries, the argument overrides read back from the
  process arguments, the `load_dotenv` merge of the process environment and
  `$name` substitution. It also covers
  the three forms of `cmd`: a string (one line, or a multi-line script
  written to a temporary file), an array of children, and a table.
- **`execute`**: the attempt loop with `repeat`, `max_repeat` and `until`,
  followed by the children, in sequence or in parallel.
- **The file loaders** (`src/utils.rs`): `handle_toml_value`, the table walk
  of `handle_toml`, `handle_json`, `convert_json_to_toml`,
  `enable_all_parallel`, and the sort, order and merge of
  `get_commands_map`.
- **`main`** (`src/main.rs`): the scan for `-f`, `-p` and `-h`, the task name
  and its arguments, forcing parallel mode, and dropping the `name=value`
  tokens the task resolved.

Modules, one per file:

| file | module | models |
|---|---|---|
| text.dfy | Text | `split`, `join`, `replace`, `starts_with`, `contains` on strings |
| values.dfy | Values | `toml::Value`, `serde_json::Value`, table lookup, `convert_json_to_toml` |
| command.dfy | Commands | `Command`, `CommandBuilder`, `Command::builder`, `build`, the argument list, the panics |
| fields.dfy | Fields | the field readers of `From<&toml::Value>` |
| builder.dfy | CommandFrom | `From<&toml::Value>` itself, with its children |
| execute.dfy | Execution | `Command::execute` |
| utils.dfy | Utils | `handle_toml_value`, `handle_toml`, `handle_json`, `enable_all_parallel` |
| commands_map.dfy | CommandsMap | the file order and the merge of `get_commands_map` |
| cli.dfy | Cli | `main` |

Each operation is written twice:
- A function states what it computes; the lemmas are proved about the
  function.
- A method follows the source's loop or in-place update and is proved equal
  to the function.

The methods are `FromValue`, `Execute`, `HandleValue`, `HandleTomlFile`,
`EnableAllParallel`, `GetCommandsMap`, `MainRun` and their helpers.

Some things the program does are not modelled directly; they are replaced
as follows:

- **Panics.** Every panic of the source is a value: `Err(fault)` or
  `Aborted(fault)`. The causes modelled:
  - `todo!()`.
  - `remove(0)` on an empty vector.
  - `-f` with nothing after it.
  - `c[1..]` on a bad token.
  - `as_table().unwrap()`.
  - `extension().unwrap()`.
- **Temporary files.** A counter names them.
- **Process arguments and the process environment after `.env` is loaded
  (`dotenv::vars()`).** They are fields of a `Process` value.
- **Launched processes.** Their exit statuses are an input sequence. The
  launches are an output sequence.

Where the code and its documentation differ, the model follows the code:

- Children built from an `cmd` array inherit `args`, `env` and `working_dir`
  only when they are strings; table children keep their own. Either way, the
  parent's arguments are never merged into them (`CommandFrom.ArrayChildren`,
  `CommandFrom.OwnChildKeepsOwn`).
- A `cmd` table yields one child, built from its inner `cmd` only.
- A child token is looked up as `c[1..]`, whether or not it starts with `$`.
- A `Cargo.toml` is walked once per top-level key, so each of its commands is
  listed that many times. Only the last copy survives in the map
  (`Utils.CargoWalkRepeats`).
- The second scan of the process arguments, in `From<&toml::Value>`, knows
  `-f` but not `-p`. After `-p`, the override candidates are taken from the
  wrong place (`Cli.ParallelFlagLeaksIntoOverrides`).

## Model

| member | source | states |
|---|---|---|
| Commands.Builder | src/command.rs:83-102 | a fresh builder has every field empty, false, zero or absent |
| Commands.Build | src/command.rs:212-233 | building keeps every field: the builder is recovered from the command |
| Commands.BuildOneToOne | src/command.rs:212-233 | building is one-to-one, and building a command's own fields gives it back |
| Commands.ArgInsertLookup | src/command.rs:352-354 | inserting an argument sets its value and leaves every other argument as it was |
| Values.ConvertJsonToToml | src/utils.rs:221-252 | null becomes `false`; booleans, numbers and strings keep their value; arrays and objects keep their length and keys |
| Values.ConvertRoundTrip | src/utils.rs:221-252 | a JSON value without nulls comes back unchanged from TOML; only null is lost, as `false` |
| Values.ConvertKeepsSize | src/utils.rs:236-249 | the converted value has the same number of nodes |
| Fields.WrapI32 | src/command.rs:276-278 | an `as i32` cast of an integer stays in range, agrees modulo 2^32, and changes nothing already in range |
| Fields.TruncI32 | src/command.rs:279-281 | an `as i32` cast of a float truncates toward zero and saturates at the bounds |
| Fields.NumberField | src/command.rs:272-315 | `repeat`, `max_repeat` and `until` are set exactly when the key holds an integer or a float, always to an `i32` |
| Fields.KeyValue | src/command.rs:328-330 | splitting at `=` gives a pair exactly when there is one `=`, and the pair joined with `=` is the text again |
| Fields.EnvLastWins | src/command.rs:324-334 | `env` holds a name exactly when some `name=value` string sets it, with the value of the last one |
| Fields.InsertEnvEntries | src/command.rs:324-334 | the `env` loop computes that map |
| Fields.ArgsLastWins | src/command.rs:346-357 | a declared argument takes the value of its last declaration, `""` when it has no `=`; other strings are skipped |
| Fields.InsertArgEntries | src/command.rs:346-357 | the `args` loop computes that list |
| Fields.SkipFileFlags | src/command.rs:369-386 | the rescan yields a suffix of its input that does not start with `-f`, or panics on a dangling `-f` |
| Fields.OverrideTokensShape | src/command.rs:359-388 | the rescan panics exactly on no arguments, a dangling `-f` or nothing after the flags; otherwise it yields a strict suffix of the process arguments |
| Fields.RescanArgs | src/command.rs:359-388 | the rescan loop computes those override candidates |
| Fields.CollectCommandArgs | src/command.rs:369-386 | the `all_found` loop yields what the flag skip yields |
| Fields.OverrideLastWins | src/command.rs:390-399 | overrides never declare a name: a declared one takes the value of the last `name=value` token, or keeps its own |
| Fields.OverrideArgs | src/command.rs:390-399 | the override loop computes that list |
| Fields.DotenvNeverOverwrites | src/command.rs:412-418 | the variables of the process environment after `.env` is loaded (`dotenv::vars()`) fill in only names not already in `env` |
| Fields.MergeDotenvVars | src/command.rs:412-418 | the `load_dotenv` loop computes that map |
| Fields.SubstituteNoDollar | src/command.rs:498-500 | text without `$` is unchanged by substitution |
| Fields.SubstituteToken | src/command.rs:511-515 | a token `$name` becomes the argument's value when no earlier argument's pattern occurs in it |
| Fields.SubstituteText | src/command.rs:498-500 | the replace loop computes the substitution |
| Fields.SubstituteEach | src/command.rs:511-515 | substitution is applied to every token, and the count stays the same |
| Fields.ResolveToken | src/command.rs:530-534 | a child token panics exactly when empty or when it opens with a multi-byte character; otherwise it becomes the value of the argument named by the rest, or stays as it was |
| Fields.ResolveTokens | src/command.rs:530-534 | all of a child's tokens resolve exactly when each one does, position by position |
| Fields.ResolveFirstBad | src/command.rs:530-534 | the first bad token is the one reported |
| Fields.ResolveEach | src/command.rs:530-534 | the token loop computes that resolution |
| Text.SplitJoin | src/command.rs:261 | joining the pieces of `split(' ')` again gives the text |
| Text.JoinSplit | src/command.rs:261 | splitting joined pieces without separators gives the pieces |
| Text.ReplaceAbsent | src/command.rs:499 | `replace` of a pattern that does not occur changes nothing |
| CommandFrom.ArgsField | src/command.rs:338-403 | `args` panics only through the rescan; otherwise it declares exactly the names the `args` array declares |
| CommandFrom.Head | src/command.rs:259-337 | a string value gives the words of the string; `env` is read from its array; nothing else is set |
| CommandFrom.Tail | src/command.rs:404-491 | `prefix` or `suffix` panic, `prefix` first; otherwise only `load_dotenv`, `env`, `working_dir`, `parallel`, `delay` and `shell` change |
| CommandFrom.Staged | src/command.rs:255-491 | the fields before `cmd`: when they panic and with what, and what `args`, `command` and `env` become |
| CommandFrom.StageFields | src/command.rs:255-491 | the field statements compute that builder |
| CommandFrom.FromValue | src/command.rs:255-547 | the whole of `From<&toml::Value>` computes the model's `From` |
| CommandFrom.BareString | src/command.rs:260-263 | a bare string is a command of its words and nothing else |
| CommandFrom.DoubleSpaceGivesEmptyToken | src/command.rs:261 | `"cargo  build"` gives the three words `cargo`, `""`, `build` |
| CommandFrom.PrefixOrSuffixPanics | src/command.rs:470-477 | any `prefix` or `suffix` key panics |
| CommandFrom.CmdKeepsFields | src/command.rs:493-546 | `cmd` changes only `command`, the file handles and the children |
| CommandFrom.MultiLineCmd | src/command.rs:496-507 | a multi-line `cmd` runs one new temporary file holding the substituted script |
| CommandFrom.SingleLineCmd | src/command.rs:508-516 | a one-line `cmd` is its words, each substituted |
| CommandFrom.StrChild | src/command.rs:523-535 | a string child takes its parent's `args`, `env` and `working_dir` and has its tokens resolved |
| CommandFrom.ArrayChildren | src/command.rs:522-537 | an array gives one child per element, in order; a string element becomes such a child, any other element its `OwnChild`: its own node built by `From` at the temporary-file counter the elements before it leave, with its tokens resolved against its own arguments |
| CommandFrom.OwnChildKeepsOwn | src/command.rs:524-529 | a non-string element's child keeps its own `args`, `env` and `working_dir`: only string elements take the parent's |
| CommandFrom.ArrayCmd | src/command.rs:522-537 | the same, for a whole table whose `cmd` is an array: string elements take the node's `args`, `env` and `working_dir`, other elements are their `OwnChild` |
| CommandFrom.TableCmd | src/command.rs:538-542 | a `cmd` table gives one child built from its inner `cmd`, or none |
| CommandFrom.OverridesOnlyUpdate | src/command.rs:338-403 | a built command declares exactly the names its `args` array declares, with the last override's value or else the declared one |
| CommandFrom.DotenvKeepsEnv | src/command.rs:316-337 | with `load_dotenv`, names from `env` keep their values and every other name comes from the process environment after `.env` is loaded (`dotenv::vars()`); without an `env` array the whole environment is the node's `env` |
| CommandFrom.BuildChildren | src/command.rs:522-537 | the children loop computes the children |
| Execution.AttemptLoop | src/command.rs:115-187 | the loop ends on an attempt that happened, with that attempt's code, I/O error or panic |
| Execution.LoopStopsAtFirst | src/command.rs:115-187 | the loop finishes at attempt n exactly when n is the first attempt whose decision is to stop |
| Execution.LoopExhausts | src/command.rs:115-187 | the loop runs out of statuses exactly when no attempt decides to stop |
| Execution.RunsOnceWithoutPolicy | src/command.rs:180-186 | without `repeat` and `until` the body runs once |
| Execution.RepeatCount | src/command.rs:157-162 | `repeat` alone runs the body `max(1, repeat)` times, capped at `max(1, max_repeat)`, and reports the last code |
| Execution.MaxRepeatCaps | src/command.rs:151-156 | `max_repeat` caps the attempts, and with enough statuses the loop does stop |
| Execution.UntilStopsAtFirstMatch | src/command.rs:163-179 | `until` alone stops at the first attempt that exits with that code |
| Execution.UntilRepeatCountsMatches | src/command.rs:163-179 | `until` with `repeat` stops exactly when the `repeat`-th matching exit happens |
| Execution.UntilGivesUpAtMax | src/command.rs:151-179 | with `until` and `max_repeat` M, when none of the first max(1, M) - 1 attempts exits with `until`, the loop stops after exactly max(1, M) attempts with the last one's code, whatever `repeat` is |
| Execution.RepeatUntilCountsSuccesses | src/command.rs:163-179 | with `repeat = 3` and `until = 0`, three matching exits end the loop |
| Execution.EmptyBodyRunsChildren | src/command.rs:116-119 | an empty command launches nothing itself and returns 0 once its children return |
| Execution.CodeIsTheBodys | src/command.rs:189-208 | the status returned is the body's, whatever the children do |
| Execution.ChildrenFollowBody | src/command.rs:189-206 | the children start after the body's launches, the first child first |
| Execution.ParallelNeverUnwinds | src/command.rs:190-199 | a panic in a parallel child never stops its siblings |
| Execution.SequentialPanicStops | src/command.rs:200-205 | a panic in a sequential child ends the run |
| Execution.RunAttempts | src/command.rs:115-187 | the attempt loop computes the loop end |
| Execution.Execute | src/command.rs:103-209 | `execute` computes the model's run: status, statuses consumed and launches |
| Execution.RunChildren | src/command.rs:189-206 | the children loop computes the children's run |
| Utils.HandleTomlValue | src/utils.rs:6-31 | a value that is not a table panics |
| Utils.Qualified | src/utils.rs:13-15 | every name of a section's walk is prefixed with `key.`, in order |
| Utils.NonSections | src/utils.rs:16-22 | a section node's children are never section nodes |
| Utils.NonSectionsKeepsCommands | src/utils.rs:18-22 | with no nested sections, every command becomes a child, in order |
| Utils.CommandEntry | src/utils.rs:9-11 | a command entry is one name, its key, for the command `From` builds |
| Utils.SectionEntry | src/utils.rs:12-24 | a section yields its qualified commands, then one section node of the non-section ones |
| Utils.EntryNames | src/utils.rs:8-28 | an entry's names are its key and names under its key |
| Utils.WalkNames | src/utils.rs:6-31 | a walk names every key, and nothing that is not a key or under one |
| Utils.HandleValue | src/utils.rs:6-31 | the walk loop computes the walk |
| Utils.HandleToml | src/utils.rs:33-117 | a plain file is walked as a table; a `Cargo.toml` repeats its `commands` walk once per top-level key |
| Utils.HandleTomlFile | src/utils.rs:33-117 | the top-level loop computes that |
| Utils.CargoFile | src/utils.rs:40-93 | the `Cargo.toml` branch computes one pass over `commands` and `package.metadata.commands` |
| Utils.CargoWalkRepeats | src/utils.rs:39-63 | a `Cargo.toml` with two top-level keys lists each command twice |
| Utils.HandleJson | src/utils.rs:119-131 | no `scripts` gives nothing, and `scripts` that is not an object panics |
| Utils.ScriptNames | src/utils.rs:125-128 | the scripts' names come out in order, one per script |
| Utils.HandleJsonFile | src/utils.rs:119-131 | `handle_json` on a parsed file computes that, panicking on non-object `scripts` |
| Utils.ScriptsLoop | src/utils.rs:125-128 | the loop over the scripts builds one command per script, in order |
| Utils.AllParallelMarksEveryNode | src/utils.rs:254-261 | after `enable_all_parallel` every node of every tree is parallel |
| Utils.ParallelKeepsShape | src/utils.rs:254-261 | nothing but the parallel flags changes |
| Utils.ParallelIdempotent | src/utils.rs:254-261 | marking twice is marking once |
| Utils.EnableAllParallel | src/utils.rs:254-261 | the in-place recursion over the vector computes that marking |
| CommandsMap.PathTotal | src/utils.rs:180 | paths are totally ordered, component by component, by code point |
| CommandsMap.PathTransitive | src/utils.rs:180 | the path order is transitive |
| CommandsMap.PathIrreflexive | src/utils.rs:180 | the path order is strict |
| CommandsMap.SortDedupSpec | src/utils.rs:180-181 | sort and dedup yields a strictly sorted list of exactly the files found |
| CommandsMap.SortedUnique | src/utils.rs:180-181 | so the sorted list is the only one with those elements |
| CommandsMap.Extension | src/utils.rs:185 | an extension is text after the last dot that has no dot |
| CommandsMap.WithExtensionSpec | src/utils.rs:184-193 | picking one extension keeps exactly the files that have it, in order |
| CommandsMap.ProcessingOrderSpec | src/utils.rs:182-193 | the order panics exactly when some file has no extension; otherwise no TOML comes before a JSON file, and exactly the JSON and TOML files stay |
| CommandsMap.OrderFiles | src/utils.rs:182-193 | the two loops compute that order |
| CommandsMap.MergeLastWins | src/utils.rs:195-217 | within one file, the last command of a name wins, with the file's directory |
| CommandsMap.MergeAllLastWins | src/utils.rs:195-217 | across files, the last file naming a command wins; names nobody defines are absent |
| CommandsMap.ProducedDirs | src/utils.rs:195-198 | each file's commands go with the file's own directory |
| CommandsMap.CommandsMapLastFileWins | src/utils.rs:173-218 | the map holds a name exactly when a file defines it, with the last such file's command and directory |
| CommandsMap.InsertAll | src/utils.rs:199-206 | the insert loop computes one file's merge |
| CommandsMap.GetCommandsMap | src/utils.rs:173-218 | the file loop computes the whole map |
| Cli.ScanFlags | src/main.rs:44-81 | a scan that started with `-p` ends with `-p`; a panic is always the missing-path one (where it happens is `Cli.ScanFails`) |
| Cli.MainScan | src/main.rs:32-81 | the `all_found` loop computes the scan |
| Cli.ScanTail | src/main.rs:44-81 | the command arguments are the tail of the arguments after a run of `-p` flags and `-f PATH` pairs, and do not start with an option; help is given only when `-h` follows such a run |
| Cli.FlagSplitUnique | src/main.rs:44-81 | that split into leading flags and a tail not opening with an option is unique, so the tail starts at the first token that is not a flag |
| Cli.ScanRun | src/main.rs:44-53 | a leading run of `-p` flags and `-f PATH` pairs is consumed whole, and the scan goes on after it with the flags that run records |
| Cli.ScanComplete | src/main.rs:44-81 | every run of flags followed by a tail that does not open with an option scans to exactly that tail; a `-h` right after such a run gives help |
| Cli.ScanFails | src/main.rs:49-51 | the scan panics exactly when a `-f` with no path after it ends a run of flags |
| Cli.LastFileRecorded | src/main.rs:49-51 | `-f` takes exactly the next token as the path, and the last `-f` of the run wins whatever `-p` flags follow it |
| Cli.ParallelRun | src/main.rs:52-53 | a run of `-p` flags sets parallel mode and leaves the recorded path as it was |
| Cli.OverridesAreTaskArguments | src/main.rs:44-87 | without `-p`, the override candidates the builder reads are exactly the task's arguments |
| Cli.ParallelFlagLeaksIntoOverrides | src/main.rs:52-53 | with `-p` first, a `-f` path of the form `a=b` overrides argument `a` |
| Cli.ForceParallelSpec | src/main.rs:96-103 | `-p` keeps every name and directory and makes each tree wholly parallel, changing nothing else |
| Cli.ForceParallelLoop | src/main.rs:96-103 | the loop over the map computes that |
| Cli.ArgTokens | src/main.rs:119-120 | one `name=value` token per resolved argument, in order |
| Cli.KeptSpec | src/main.rs:119-121 | what remains is exactly the tokens outside the list, in their order |
| Cli.RemoveAfterKept | src/main.rs:120 | one more `retain` removes one more token |
| Cli.PassArgs | src/main.rs:119-121 | the `retain` loop computes that filter |
| Cli.RunGetsItsArguments | src/main.rs:83-123 | a task that runs gets the arguments after its name, in their order, less its resolved tokens; with `-p` its tree is parallel |
| Cli.DispatchRun | src/main.rs:105-123 | a name in the map runs that command from its directory, with the task's arguments in their order less its resolved `name=value` tokens |
| Cli.NoTaskNoLookup | src/main.rs:83-85 | with no task name nothing is loaded |
| Cli.MainRun | src/main.rs:31-127 | `main` computes the model's `Main` |

## Left out

- `src/script.rs` (downloading, compiling and running a script from a URL or a file) is not part of this model; `main` only decides that a script runs, with which arguments.
- Launching processes, waiting for them, the Windows `cmd /C` branch and `set_current_dir`: the statuses are an input and the launches an output.
- Threads: parallel children are modelled one after the other in declared order, sharing one sequence of statuses; a panicking parallel child does not stop its siblings, as with `join`.
- `delay`: read and stored as a number; the sleep is not modelled.
- The help text and `gui()`: the model only returns `ShowHelp` or `NoCommand`.
- File system: which files exist (`is_file`), the directory walk that finds them and reading and parsing them; the model takes the files found and their parsed contents as inputs (`World`, `Disk`).
- Temporary files: named by a counter, with their contents recorded; creating and writing them is not modelled.
- `HashMap` iteration order: `args` is a list in insertion order, and maps are iterated in any order the loop picks; where the order matters (substitution, `retain`) the model fixes the declared order.
- TOML tables and JSON objects are key-value lists in their stored order; the parsers' duplicate-key handling is not modelled.
- Floats: `delay` and JSON numbers are reals; NaN and infinities are not modelled, nor is the `f64` rounding `as_f64` applies to JSON integers above 2^53.
- `Execution.AttemptLoop`: the `i32` attempt and success counters are unbounded; they would overflow only after 2^31 attempts.
- `CommandsMap.SortDedupSpec`: paths are sequences of components compared by code point; `PathBuf` normalisation and the library's in-place sort are not modelled, only the sorted, deduplicated result.
- `Utils.EnableAllParallel`: the vector is an array, and each child list is copied into a new array and back, since a command is a value here.
