/**
 * Turning parsed configuration files into named commands (src/utils.rs):
 * the walk over a TOML table that flattens nested sections into dotted
 * names, the same walk over a whole file (with the Cargo.toml special case),
 * the `scripts` of a JSON file, and the walk that marks a whole tree
 * parallel.
 */
module Utils {
  import opened Text
  import opened Values
  import opened Commands
  import opened CommandFrom

  /** Named commands in the order they are produced (`Vec<(String, Command)>`). */
  type Named = seq<(string, Command)>

  /** Puts named commands before the ones an outcome yields; an abort stays an abort. */
  function After(named: Named, o: Outcome<Named>): Outcome<Named>
  {
    match o
    case Aborted(f) => Aborted(f)
    case Done(rest, t) => Done(named + rest, t)
  }

  // ---------------------------------------------------------------------------
  // handle_toml_value (src/utils.rs:6-31)

  /** A section: a table with no `cmd` key, whose entries are commands of their own. */
  predicate IsSection(value: Toml)
  {
    value.Table? && !ContainsKey(value, "cmd")
  }

  /** `handle_toml_value`: the entries of a table, walked in order; anything but a table panics. */
  function HandleTomlValue(v: Toml, proc: Process, tmp: nat): (r: Outcome<Named>)
    ensures !v.Table? ==> r == Aborted(NotATable)
    decreases v, 1
  {
    if v.Table? then HandleEntries(v.entries, 0, proc, tmp) else Aborted(NotATable)
  }

  /** The entries from the `i`-th on, each one's commands after those of the entries before it. */
  function HandleEntries(es: seq<(string, Toml)>, i: nat, proc: Process, tmp: nat): (r: Outcome<Named>)
    requires i <= |es|
    decreases Table(es), 0, |es| - i
  {
    if i == |es| then Done([], tmp)
    else
      assert es[i] in es;
      match EntryOf(es[i].0, es[i].1, proc, tmp)
      case Aborted(f) => Aborted(f)
      case Done(here, t) => After(here, HandleEntries(es, i + 1, proc, t))
  }

  /**
   * One entry of the walk. A command (a table with `cmd`, or any other
   * value) gives one named command. A section gives its own walk under
   * dotted names, then the section node under its key; the node's children
   * come from a second walk of the section.
   */
  function EntryOf(key: string, value: Toml, proc: Process, tmp: nat): (r: Outcome<Named>)
    decreases value, 2
  {
    if IsSection(value) then
      match HandleTomlValue(value, proc, tmp)
      case Aborted(f) => Aborted(f)
      case Done(sub, t1) =>
        match HandleTomlValue(value, proc, t1)
        case Aborted(f) => Aborted(f)
        case Done(again, t2) => Done(Qualified(key, sub) + [(key, SectionOf(again))], t2)
    else
      match From(value, proc, tmp)
      case Aborted(f) => Aborted(f)
      case Done(c, t) => Done([(key, c)], t)
  }

  /** Every name prefixed with `key.` (`format!("{}.{}", key, k)`). */
  function Qualified(key: string, sub: Named): (r: Named)
    ensures |r| == |sub|
    ensures forall j :: 0 <= j < |sub| ==> r[j] == (key + "." + sub[j].0, sub[j].1)
  {
    seq(|sub|, j requires 0 <= j < |sub| => (key + "." + sub[j].0, sub[j].1))
  }

  /** The commands of a walk that are not section nodes, in order. */
  function NonSections(named: Named): (cs: seq<Command>)
    ensures forall c :: c in cs ==> !c.isSection
  {
    if named == [] then []
    else (if named[0].1.isSection then [] else [named[0].1]) + NonSections(named[1..])
  }

  /** The node standing for a section: an empty command marked as a section. */
  function SectionOf(again: Named): Command
  {
    EmptyCommand().(isSection := true, children := NonSections(again))
  }

  // ---------------------------------------------------------------------------
  // The walk as the source writes it: vectors filled by `push` in loops

  /** `handle_toml_value`, step by step. */
  method HandleValue(v: Toml, proc: Process, tmp: nat) returns (r: Outcome<Named>)
    ensures r == HandleTomlValue(v, proc, tmp)
    decreases v, 1
  {
    if !v.Table? {
      return Aborted(NotATable);
    }
    var es := v.entries;
    var named: Named := [];
    var t := tmp;
    var i := 0;
    AfterNothing(HandleEntries(es, 0, proc, tmp));
    while i < |es|
      invariant i <= |es|
      invariant HandleEntries(es, 0, proc, tmp) == After(named, HandleEntries(es, i, proc, t))
    {
      assert es[i] in es;
      var here := HandleEntry(es[i].0, es[i].1, proc, t);
      if here.Aborted? {
        assert HandleEntries(es, i, proc, t) == Aborted(here.fault);
        return Aborted(here.fault);
      }
      EntryAdvance(es, i, proc, tmp, t, named);
      named := named + here.value;
      t := here.tmp;
      i := i + 1;
    }
    assert named + [] == named;
    r := Done(named, t);
  }

  /** The body of the walk's loop for one entry. */
  method HandleEntry(key: string, value: Toml, proc: Process, tmp: nat) returns (r: Outcome<Named>)
    ensures r == EntryOf(key, value, proc, tmp)
    decreases value, 2
  {
    if value.Table? {
      if ContainsKey(value, "cmd") {
        r := FromEntry(key, value, proc, tmp);
        return;
      }
      var sub := HandleValue(value, proc, tmp);
      if sub.Aborted? {
        return Aborted(sub.fault);
      }
      var named := QualifyEach(key, sub.value);
      var again := HandleValue(value, proc, sub.tmp);
      if again.Aborted? {
        return Aborted(again.fault);
      }
      var parent := CollectSection(again.value);
      r := Done(named + [(key, parent)], again.tmp);
    } else {
      r := FromEntry(key, value, proc, tmp);
    }
  }

  /** `map.push((key.clone(), Command::from(value)))`. */
  method FromEntry(key: string, value: Toml, proc: Process, tmp: nat) returns (r: Outcome<Named>)
    requires !IsSection(value)
    ensures r == EntryOf(key, value, proc, tmp)
  {
    var c := FromValue(value, proc, tmp);
    if c.Aborted? {
      return Aborted(c.fault);
    }
    r := Done([(key, c.value)], c.tmp);
  }

  /** The loop pushing the section's entries under dotted names. */
  method QualifyEach(key: string, sub: Named) returns (named: Named)
    ensures named == Qualified(key, sub)
  {
    named := [];
    var i := 0;
    while i < |sub|
      invariant i <= |sub| && named == Qualified(key, sub[..i])
    {
      named := named + [(key + "." + sub[i].0, sub[i].1)];
      i := i + 1;
    }
    assert sub[..i] == sub;
  }

  /** The loop pushing every non-section command of the second walk into the section node. */
  method CollectSection(again: Named) returns (parent: Command)
    ensures parent == SectionOf(again)
  {
    parent := EmptyCommand();
    parent := parent.(isSection := true);
    var i := 0;
    while i < |again|
      invariant i <= |again|
      invariant parent == SectionOf(again[..i])
    {
      NonSectionsAppend(again[..i], [again[i]]);
      assert again[..i + 1] == again[..i] + [again[i]];
      if !again[i].1.isSection {
        parent := parent.(children := parent.children + [again[i].1]);
      }
      i := i + 1;
    }
    assert again[..i] == again;
  }

  lemma AfterNothing(o: Outcome<Named>)
    ensures After([], o) == o
  {
    if o.Done? {
      assert [] + o.value == o.value;
    }
  }

  /** The walk's invariant carries over an entry that does not panic. */
  lemma EntryAdvance(es: seq<(string, Toml)>, i: nat, proc: Process, tmp: nat, t: nat, named: Named)
    requires i < |es|
    requires HandleEntries(es, 0, proc, tmp) == After(named, HandleEntries(es, i, proc, t))
    requires EntryOf(es[i].0, es[i].1, proc, t).Done?
    ensures var e := EntryOf(es[i].0, es[i].1, proc, t);
      HandleEntries(es, 0, proc, tmp) == After(named + e.value, HandleEntries(es, i + 1, proc, e.tmp))
  {
    var e := EntryOf(es[i].0, es[i].1, proc, t);
    var rest := HandleEntries(es, i + 1, proc, e.tmp);
    assert HandleEntries(es, i, proc, t) == After(e.value, rest);
    if rest.Done? {
      assert named + (e.value + rest.value) == (named + e.value) + rest.value;
    }
  }

  // ---------------------------------------------------------------------------
  // What the walk promises

  /** Filtering the sections out of two walks one after the other is filtering each. */
  lemma {:induction false} NonSectionsAppend(a: Named, b: Named)
    ensures NonSections(a + b) == NonSections(a) + NonSections(b)
  {
    if a == [] {
      assert a + b == b;
    } else {
      assert (a + b)[1..] == a[1..] + b;
      NonSectionsAppend(a[1..], b);
    }
  }

  /** A section-free walk is kept whole, and a lone section node is dropped. */
  lemma {:induction false} NonSectionsKeepsCommands(named: Named)
    ensures (forall j :: 0 <= j < |named| ==> !named[j].1.isSection) ==>
      NonSections(named) == seq(|named|, j requires 0 <= j < |named| => named[j].1)
    ensures |named| == 1 && named[0].1.isSection ==> NonSections(named) == []
  {
    if named != [] {
      NonSectionsKeepsCommands(named[1..]);
    }
  }

  /**
   * A command entry (a table with `cmd`, or a value that is not a table)
   * yields exactly one named command, under its own key: the command that
   * `Command::from` builds from it; it panics exactly when that does.
   */
  lemma CommandEntry(key: string, value: Toml, proc: Process, tmp: nat)
    requires !IsSection(value)
    ensures var r := EntryOf(key, value, proc, tmp); var c := From(value, proc, tmp);
      (r.Done? <==> c.Done?) &&
      (r.Done? ==> r.value == [(key, c.value)] && r.tmp == c.tmp) &&
      (r.Aborted? ==> r.fault == c.fault)
  {
  }

  /**
   * A section yields every command of its walk under `key.name`, in order,
   * and then one section node under `key`: an otherwise empty command whose
   * children are the non-section commands of the (second) walk, in order.
   */
  lemma SectionEntry(key: string, value: Toml, proc: Process, tmp: nat)
    requires IsSection(value)
    requires EntryOf(key, value, proc, tmp).Done?
    ensures var r := EntryOf(key, value, proc, tmp).value;
      var sub := HandleTomlValue(value, proc, tmp);
      sub.Done? && |r| == |sub.value| + 1 &&
      (forall j :: 0 <= j < |sub.value| ==> r[j].0 == key + "." + sub.value[j].0 && r[j].1 == sub.value[j].1) &&
      r[|r| - 1].0 == key &&
      var node := r[|r| - 1].1;
      node.isSection && node == EmptyCommand().(isSection := true, children := node.children) &&
      node.children == NonSections(HandleTomlValue(value, proc, sub.tmp).value) &&
      forall c :: c in node.children ==> !c.isSection
  {
  }

  /** The names of two runs one after the other. */
  lemma KeysAppend(a: Named, b: Named)
    ensures Keys(a + b) == Keys(a) + Keys(b)
  {
    assert |Keys(a + b)| == |Keys(a) + Keys(b)|;
    forall j | 0 <= j < |a + b| ensures Keys(a + b)[j] == (Keys(a) + Keys(b))[j] {
      if j >= |a| {
        assert (a + b)[j] == b[j - |a|];
      }
    }
  }

  /** A name lies under a key when it is the key or starts with the key and a dot. */
  predicate Under(name: string, key: string)
  {
    name == key || StartsWith(name, key + ".")
  }

  /** One entry's names: its key, and otherwise only names under its key. */
  lemma EntryNames(key: string, value: Toml, proc: Process, tmp: nat)
    requires EntryOf(key, value, proc, tmp).Done?
    ensures var ns := Keys(EntryOf(key, value, proc, tmp).value);
      key in ns && forall n :: n in ns ==> Under(n, key)
  {
    var r := EntryOf(key, value, proc, tmp).value;
    if IsSection(value) {
      var sub := HandleTomlValue(value, proc, tmp).value;
      assert r == Qualified(key, sub) + [r[|r| - 1]];
      KeysAppend(Qualified(key, sub), [r[|r| - 1]]);
      forall n | n in Keys(r) ensures Under(n, key) {
        var j :| 0 <= j < |r| && Keys(r)[j] == n;
        if j < |sub| {
          assert (key + "." + sub[j].0)[..|key + "."|] == key + ".";
        }
      }
    }
  }

  /** A walk that does not panic is its first entry's commands followed by the rest's. */
  lemma EntriesStep(es: seq<(string, Toml)>, i: nat, proc: Process, tmp: nat)
    requires i < |es|
    requires HandleEntries(es, i, proc, tmp).Done?
    ensures var e := EntryOf(es[i].0, es[i].1, proc, tmp);
      e.Done? && HandleEntries(es, i + 1, proc, e.tmp).Done? &&
      HandleEntries(es, i, proc, tmp).value == e.value + HandleEntries(es, i + 1, proc, e.tmp).value
  {
  }

  /** `name` lies under one of the keys from the `i`-th on. */
  predicate UnderAKey(name: string, es: seq<(string, Toml)>, i: nat)
  {
    exists j :: i <= j < |es| && Under(name, es[j].0)
  }

  /** The names `ns` are the keys from the `i`-th on and names under them. */
  predicate CoversKeys(ns: seq<string>, es: seq<(string, Toml)>, i: nat)
  {
    (forall j :: i <= j < |es| ==> es[j].0 in ns) && (forall n :: n in ns ==> UnderAKey(n, es, i))
  }

  /** One entry's names followed by names covering the later keys cover the keys from that entry on. */
  lemma CoverStep(es: seq<(string, Toml)>, i: nat, a: Named, b: Named)
    requires i < |es|
    requires es[i].0 in Keys(a) && forall n :: n in Keys(a) ==> Under(n, es[i].0)
    requires CoversKeys(Keys(b), es, i + 1)
    ensures CoversKeys(Keys(a + b), es, i)
  {
    KeysAppend(a, b);
    forall n | n in Keys(a + b) ensures UnderAKey(n, es, i) {
      if n in Keys(a) {
        assert Under(n, es[i].0);
      } else {
        assert UnderAKey(n, es, i + 1);
      }
    }
  }

  /**
   * The names a walk produces: every key of the table is one of them, and
   * every one of them is a key or a dotted name under a key.
   */
  lemma {:induction false} WalkNames(es: seq<(string, Toml)>, i: nat, proc: Process, tmp: nat)
    requires i <= |es|
    requires HandleEntries(es, i, proc, tmp).Done?
    ensures CoversKeys(Keys(HandleEntries(es, i, proc, tmp).value), es, i)
    decreases |es| - i
  {
    if i < |es| {
      EntriesStep(es, i, proc, tmp);
      var e := EntryOf(es[i].0, es[i].1, proc, tmp);
      WalkNames(es, i + 1, proc, e.tmp);
      EntryNames(es[i].0, es[i].1, proc, tmp);
      CoverStep(es, i, e.value, HandleEntries(es, i + 1, proc, e.tmp).value);
    }
  }

  // ---------------------------------------------------------------------------
  // handle_toml (src/utils.rs:33-117), once the file is read and parsed

  /** `package.metadata.commands`, when every step of the chain is there. */
  function MetadataCommands(doc: Toml): Option<Toml>
  {
    match Get(doc, "package")
    case None => None
    case Some(pkg) =>
      match Get(pkg, "metadata")
      case None => None
      case Some(meta) => Get(meta, "commands")
  }

  /** A table that may be missing: walked when present (a present non-table panics). */
  function WalkIfPresent(t: Option<Toml>, proc: Process, tmp: nat): Outcome<Named>
  {
    match t
    case None => Done([], tmp)
    case Some(v) => HandleTomlValue(v, proc, tmp)
  }

  /** The commands of a Cargo.toml: the `commands` table, then `package.metadata.commands`. */
  function CargoWalk(doc: Toml, proc: Process, tmp: nat): Outcome<Named>
  {
    match WalkIfPresent(Get(doc, "commands"), proc, tmp)
    case Aborted(f) => Aborted(f)
    case Done(a, t) => After(a, WalkIfPresent(MetadataCommands(doc), proc, t))
  }

  /** `n` walks of a Cargo.toml one after the other. */
  function CargoRepeat(doc: Toml, n: nat, proc: Process, tmp: nat): Outcome<Named>
  {
    if n == 0 then Done([], tmp)
    else
      match CargoWalk(doc, proc, tmp)
      case Aborted(f) => Aborted(f)
      case Done(a, t) => After(a, CargoRepeat(doc, n - 1, proc, t))
  }

  /**
   * The walk of `handle_toml` over a parsed file. Any file but Cargo.toml
   * gets the walk of `handle_toml_value`. For Cargo.toml the loop over the
   * top-level keys walks the `commands` tables on every turn, so the whole
   * Cargo walk is repeated once per top-level key.
   */
  function HandleToml(doc: Toml, isCargo: bool, proc: Process, tmp: nat): (r: Outcome<Named>)
    ensures !isCargo ==> r == HandleTomlValue(doc, proc, tmp)
    ensures isCargo && doc.Table? ==> r == CargoRepeat(doc, |doc.entries|, proc, tmp)
  {
    if !doc.Table? then Aborted(NotATable)
    else if isCargo then CargoRepeat(doc, |doc.entries|, proc, tmp)
    else HandleEntries(doc.entries, 0, proc, tmp)
  }

  /** What the file walk still yields after `i` turns of its loop. */
  function TomlTurns(doc: Toml, isCargo: bool, i: nat, proc: Process, tmp: nat): Outcome<Named>
    requires doc.Table? && i <= |doc.entries|
  {
    if isCargo then CargoRepeat(doc, |doc.entries| - i, proc, tmp) else HandleEntries(doc.entries, i, proc, tmp)
  }

  /** `handle_toml` on a parsed file, step by step: one turn per top-level key. */
  method HandleTomlFile(doc: Toml, isCargo: bool, proc: Process, tmp: nat) returns (r: Outcome<Named>)
    ensures r == HandleToml(doc, isCargo, proc, tmp)
  {
    if !doc.Table? {
      return Aborted(NotATable);
    }
    var named: Named := [];
    var t := tmp;
    var i := 0;
    AfterNothing(TomlTurns(doc, isCargo, 0, proc, tmp));
    while i < |doc.entries|
      invariant i <= |doc.entries|
      invariant HandleToml(doc, isCargo, proc, tmp) == After(named, TomlTurns(doc, isCargo, i, proc, t))
    {
      var here;
      if isCargo {
        here := CargoFile(doc, proc, t);
      } else {
        assert doc.entries[i] in doc.entries;
        here := HandleEntry(doc.entries[i].0, doc.entries[i].1, proc, t);
      }
      TurnStep(doc, isCargo, i, proc, t);
      if here.Aborted? {
        return Aborted(here.fault);
      }
      AfterTwice(named, here.value, TomlTurns(doc, isCargo, i + 1, proc, here.tmp));
      named := named + here.value;
      t := here.tmp;
      i := i + 1;
    }
    assert named + [] == named;
    r := Done(named, t);
  }

  /** One turn of the file walk is the entry's walk, or the whole Cargo walk. */
  lemma TurnStep(doc: Toml, isCargo: bool, i: nat, proc: Process, t: nat)
    requires doc.Table? && i < |doc.entries|
    ensures var here := if isCargo then CargoWalk(doc, proc, t) else EntryOf(doc.entries[i].0, doc.entries[i].1, proc, t);
      TomlTurns(doc, isCargo, i, proc, t) ==
        match here
        case Aborted(f) => Aborted(f)
        case Done(a, t2) => After(a, TomlTurns(doc, isCargo, i + 1, proc, t2))
  {
    if isCargo {
      CargoTurn(doc, |doc.entries| - i, proc, t);
    } else {
      EntryTurn(doc.entries, i, proc, t);
    }
  }

  lemma CargoTurn(doc: Toml, n: nat, proc: Process, t: nat)
    requires n > 0
    ensures CargoRepeat(doc, n, proc, t) ==
      match CargoWalk(doc, proc, t)
      case Aborted(f) => Aborted(f)
      case Done(a, t2) => After(a, CargoRepeat(doc, n - 1, proc, t2))
  {
  }

  lemma EntryTurn(es: seq<(string, Toml)>, i: nat, proc: Process, t: nat)
    requires i < |es|
    ensures HandleEntries(es, i, proc, t) ==
      match EntryOf(es[i].0, es[i].1, proc, t)
      case Aborted(f) => Aborted(f)
      case Done(a, t2) => After(a, HandleEntries(es, i + 1, proc, t2))
  {
  }

  lemma AfterTwice(a: Named, b: Named, o: Outcome<Named>)
    ensures After(a, After(b, o)) == After(a + b, o)
  {
    if o.Done? {
      assert a + (b + o.value) == (a + b) + o.value;
    }
  }

  /** The Cargo.toml branch of the loop body. */
  method CargoFile(doc: Toml, proc: Process, tmp: nat) returns (r: Outcome<Named>)
    ensures r == CargoWalk(doc, proc, tmp)
  {
    var named: Named := [];
    var t := tmp;
    var commands := Get(doc, "commands");
    if commands.Some? {
      var w := HandleValue(commands.value, proc, t);
      if w.Aborted? {
        return Aborted(w.fault);
      }
      named, t := w.value, w.tmp;
    }
    var cmds := MetadataCommands(doc);
    if cmds.Some? {
      var w := HandleValue(cmds.value, proc, t);
      if w.Aborted? {
        return Aborted(w.fault);
      }
      return Done(named + w.value, w.tmp);
    }
    assert named + [] == named;
    r := Done(named, t);
  }

  /**
   * A Cargo.toml with two top-level keys, `package` and a `commands` table
   * holding one command `a`, yields `a` twice where one walk yields it once.
   */
  lemma CargoWalkRepeats(proc: Process, tmp: nat)
    ensures var doc := Table([("package", Table([])), ("commands", Table([("a", Str("x"))]))]);
      var c := From(Str("x"), proc, tmp).value;
      CargoWalk(doc, proc, tmp) == Done([("a", c)], tmp) &&
      HandleToml(doc, true, proc, tmp) == Done([("a", c), ("a", c)], tmp)
  {
    var doc := Table([("package", Table([])), ("commands", Table([("a", Str("x"))]))]);
    BareString("x", proc, tmp);
    var c := From(Str("x"), proc, tmp).value;
    CargoOnce(proc, tmp);
    assert [("a", c)] + [] == [("a", c)];
    assert CargoRepeat(doc, 1, proc, tmp) == Done([("a", c)], tmp);
    assert [("a", c)] + [("a", c)] == [("a", c), ("a", c)];
  }

  /** One Cargo walk of that file. */
  lemma CargoOnce(proc: Process, tmp: nat)
    ensures var doc := Table([("package", Table([])), ("commands", Table([("a", Str("x"))]))]);
      CargoWalk(doc, proc, tmp) == Done([("a", From(Str("x"), proc, tmp).value)], tmp)
  {
    var doc := Table([("package", Table([])), ("commands", Table([("a", Str("x"))]))]);
    var c := From(Str("x"), proc, tmp).value;
    OneCommandWalk(proc, tmp);
    assert Keys(doc.entries) == ["package", "commands"];
    assert Get(doc, "commands") == Some(Table([("a", Str("x"))]));
    assert Get(doc, "package") == Some(Table([]));
    assert Get(Table([]), "metadata") == None;
    assert [("a", c)] + [] == [("a", c)];
  }

  /** The walk of a table holding one single-line command. */
  lemma OneCommandWalk(proc: Process, tmp: nat)
    ensures HandleTomlValue(Table([("a", Str("x"))]), proc, tmp) == Done([("a", From(Str("x"), proc, tmp).value)], tmp)
  {
    var es := [("a", Str("x"))];
    BareString("x", proc, tmp);
    var c := From(Str("x"), proc, tmp).value;
    assert EntryOf("a", Str("x"), proc, tmp) == Done([("a", c)], tmp);
    assert HandleEntries(es, 1, proc, tmp) == Done([], tmp);
    assert [("a", c)] + [] == [("a", c)];
    assert HandleEntries(es, 0, proc, tmp) == After([("a", c)], HandleEntries(es, 1, proc, tmp));
  }

  // ---------------------------------------------------------------------------
  // handle_json (src/utils.rs:119-131), once the file is read and parsed

  /** `json.get("scripts")`: a member of an object; other values have none. */
  function Scripts(doc: Json): Option<Json>
  {
    if doc.Object? then Lookup(doc.members, "scripts") else None
  }

  /** `handle_json`: each script built from its converted value; `scripts` must be an object. */
  function HandleJson(doc: Json, proc: Process, tmp: nat): (r: Outcome<Named>)
    ensures Scripts(doc).None? ==> r == Done([], tmp)
    ensures Scripts(doc).Some? && !Scripts(doc).value.Object? ==> r == Aborted(NotATable)
  {
    match Scripts(doc)
    case None => Done([], tmp)
    case Some(Object(ms)) => ScriptsFrom(ms, 0, proc, tmp)
    case Some(_) => Aborted(NotATable)
  }

  /** The scripts from the `i`-th on. */
  function ScriptsFrom(ms: seq<(string, Json)>, i: nat, proc: Process, tmp: nat): Outcome<Named>
    requires i <= |ms|
    decreases |ms| - i
  {
    if i == |ms| then Done([], tmp)
    else
      match From(ConvertJsonToToml(ms[i].1), proc, tmp)
      case Aborted(f) => Aborted(f)
      case Done(c, t) => After([(ms[i].0, c)], ScriptsFrom(ms, i + 1, proc, t))
  }

  /** The scripts' commands come under the scripts' names, one each, in order. */
  lemma {:induction false} ScriptNames(ms: seq<(string, Json)>, i: nat, proc: Process, tmp: nat)
    requires i <= |ms|
    requires ScriptsFrom(ms, i, proc, tmp).Done?
    ensures Keys(ScriptsFrom(ms, i, proc, tmp).value) == Keys(ms[i..])
    decreases |ms| - i
  {
    if i < |ms| {
      var c := From(ConvertJsonToToml(ms[i].1), proc, tmp);
      var rest := ScriptsFrom(ms, i + 1, proc, c.tmp);
      ScriptNames(ms, i + 1, proc, c.tmp);
      KeysAppend([(ms[i].0, c.value)], rest.value);
      assert Keys(ms[i..]) == [ms[i].0] + Keys(ms[i + 1..]);
    }
  }

  /** `handle_json` on a parsed file, step by step. */
  method HandleJsonFile(doc: Json, proc: Process, tmp: nat) returns (r: Outcome<Named>)
    ensures r == HandleJson(doc, proc, tmp)
  {
    var scripts := Scripts(doc);
    if scripts.Some? {
      if !scripts.value.Object? {
        return Aborted(NotATable);
      }
      r := ScriptsLoop(scripts.value.members, proc, tmp);
      return;
    }
    r := Done([], tmp);
  }

  /** The loop over the scripts: one command built per script, in order. */
  method ScriptsLoop(ms: seq<(string, Json)>, proc: Process, tmp: nat) returns (r: Outcome<Named>)
    ensures r == ScriptsFrom(ms, 0, proc, tmp)
  {
    var named: Named := [];
    var t := tmp;
    var i := 0;
    ghost var total := ScriptsFrom(ms, 0, proc, tmp);
    AfterNothing(total);
    while i < |ms|
      invariant i <= |ms|
      invariant total == After(named, ScriptsFrom(ms, i, proc, t))
    {
      var x := FromValue(ConvertJsonToToml(ms[i].1), proc, t);
      if x.Aborted? {
        ScriptStep(ms, i, proc, t, named, total);
        return Aborted(x.fault);
      }
      ScriptStep(ms, i, proc, t, named, total);
      named := named + [(ms[i].0, x.value)];
      t := x.tmp;
      i := i + 1;
    }
    assert named + [] == named;
    r := Done(named, t);
  }

  /** One turn of the scripts loop. */
  lemma ScriptStep(ms: seq<(string, Json)>, i: nat, proc: Process, t: nat, named: Named, total: Outcome<Named>)
    requires i < |ms|
    requires total == After(named, ScriptsFrom(ms, i, proc, t))
    ensures var x := From(ConvertJsonToToml(ms[i].1), proc, t);
      (x.Aborted? ==> total == Aborted(x.fault)) &&
      (x.Done? ==> total == After(named + [(ms[i].0, x.value)], ScriptsFrom(ms, i + 1, proc, x.tmp)))
  {
    var x := From(ConvertJsonToToml(ms[i].1), proc, t);
    if x.Done? {
      AfterTwice(named, [(ms[i].0, x.value)], ScriptsFrom(ms, i + 1, proc, x.tmp));
    }
  }

  // ---------------------------------------------------------------------------
  // enable_all_parallel (src/utils.rs:254-261)

  /** Every node of a tree marked parallel; nothing else changes. */
  function ParallelTree(c: Command): Command
    decreases c
  {
    c.(parallel := true, children := AllParallel(c.children))
  }

  /** `enable_all_parallel` on a list of nodes. */
  function AllParallel(cs: seq<Command>): (r: seq<Command>)
    ensures |r| == |cs|
    decreases cs
  {
    if cs == [] then [] else [ParallelTree(cs[0])] + AllParallel(cs[1..])
  }

  /** Every node of the tree is parallel. */
  predicate TreeParallel(c: Command)
    decreases c
  {
    c.parallel && forall k :: 0 <= k < |c.children| ==> TreeParallel(c.children[k])
  }

  /** The tree with every parallel flag cleared: what is left when the flag is ignored. */
  function Shape(c: Command): Command
    decreases c
  {
    c.(parallel := false, children := seq(|c.children|, k requires 0 <= k < |c.children| => Shape(c.children[k])))
  }

  /** After `enable_all_parallel` every node of every tree is parallel. */
  lemma {:induction false} AllParallelMarksEveryNode(cs: seq<Command>)
    ensures forall k :: 0 <= k < |cs| ==> AllParallel(cs)[k] == ParallelTree(cs[k]) && TreeParallel(ParallelTree(cs[k]))
    decreases cs
  {
    forall k | 0 <= k < |cs|
      ensures AllParallel(cs)[k] == ParallelTree(cs[k]) && TreeParallel(ParallelTree(cs[k]))
    {
      AllParallelAt(cs, k);
      assert cs[k] in cs;
      AllParallelMarksEveryNode(cs[k].children);
    }
  }

  /** The `k`-th node of the result is the `k`-th tree marked parallel. */
  lemma {:induction false} AllParallelAt(cs: seq<Command>, k: nat)
    requires k < |cs|
    ensures AllParallel(cs)[k] == ParallelTree(cs[k])
  {
    if k > 0 {
      AllParallelAt(cs[1..], k - 1);
    }
  }

  /** Marking a tree parallel changes nothing but the flags: the shape and every other field stay. */
  lemma {:induction false} ParallelKeepsShape(c: Command)
    ensures Shape(ParallelTree(c)) == Shape(c)
    decreases c
  {
    var kids := AllParallel(c.children);
    forall k | 0 <= k < |c.children| ensures Shape(kids[k]) == Shape(c.children[k]) {
      AllParallelAt(c.children, k);
      ParallelKeepsShape(c.children[k]);
    }
  }

  /** Marking twice is marking once. */
  lemma {:induction false} ParallelIdempotent(c: Command)
    ensures ParallelTree(ParallelTree(c)) == ParallelTree(c)
    decreases c
  {
    var kids := AllParallel(c.children);
    var again := AllParallel(kids);
    forall k | 0 <= k < |kids| ensures again[k] == kids[k] {
      AllParallelAt(kids, k);
      AllParallelAt(c.children, k);
      ParallelIdempotent(c.children[k]);
    }
  }

  /** `enable_all_parallel`, in place over the vector of nodes, descending into non-empty child lists. */
  method EnableAllParallel(cs: array<Command>)
    modifies cs
    ensures cs[..] == AllParallel(old(cs[..]))
    decreases cs[..]
  {
    ghost var before := cs[..];
    var i := 0;
    while i < cs.Length
      invariant i <= cs.Length
      invariant forall k :: 0 <= k < i ==> cs[k] == ParallelTree(before[k])
      invariant forall k :: i <= k < cs.Length ==> cs[k] == before[k]
    {
      var command := cs[i];
      command := command.(parallel := true);
      if |command.children| > 0 {
        var kids := new Command[|command.children|](k requires 0 <= k < |command.children| => command.children[k]);
        assert before[i] in before;
        assert kids[..] == command.children;
        EnableAllParallel(kids);
        command := command.(children := kids[..]);
      }
      cs[i] := command;
      i := i + 1;
    }
    forall k | 0 <= k < cs.Length ensures cs[k] == AllParallel(before)[k] {
      AllParallelAt(before, k);
    }
  }
}
