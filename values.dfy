/**
 * The two parsed configuration shapes the task runner reads: TOML values
 * (from Commands.toml and Cargo.toml) and JSON values (from package.json and
 * commands.json), and the conversion of the second into the first
 * (`convert_json_to_toml`, src/utils.rs).
 *
 * Tables and objects are sequences of (key, value) entries, iterated in the
 * order of the sequence. Numbers that the source keeps as 64-bit floats are
 * `real`s here.
 */
module Values {

  datatype Option<T> = None | Some(value: T)

  /** `toml::Value`. */
  datatype Toml =
    | Str(s: string)
    | Integer(i: int)
    | Float(f: real)
    | Boolean(b: bool)
    | Datetime(text: string)
    | Array(items: seq<Toml>)
    | Table(entries: seq<(string, Toml)>)

  /** `serde_json::Value`. */
  datatype Json =
    | Null
    | Bool(b: bool)
    | Number(n: real)
    | String(s: string)
    | List(items: seq<Json>)
    | Object(members: seq<(string, Json)>)

  /** The keys of a table, in iteration order. */
  function Keys<V>(entries: seq<(string, V)>): (ks: seq<string>)
    ensures |ks| == |entries|
    ensures forall i :: 0 <= i < |entries| ==> ks[i] == entries[i].0
  {
    if entries == [] then [] else [entries[0].0] + Keys(entries[1..])
  }

  /** Position of the entry for `key` in a table, or -1 when there is none. */
  function FieldIndex<V>(entries: seq<(string, V)>, key: string): (j: int)
    ensures -1 <= j < |entries|
    ensures j >= 0 ==> entries[j].0 == key && key !in Keys(entries[..j])
    ensures j < 0 <==> key !in Keys(entries)
  {
    if entries == [] then -1
    else if entries[0].0 == key then 0
    else
      var j := FieldIndex(entries[1..], key);
      assert Keys(entries) == [entries[0].0] + Keys(entries[1..]);
      if j < 0 then -1
      else
        assert Keys(entries[..j + 1]) == [entries[0].0] + Keys(entries[1..][..j]);
        j + 1
  }

  /** The value stored under `key` in a table (the first entry with that key). */
  function Lookup<V>(entries: seq<(string, V)>, key: string): (r: Option<V>)
    ensures r.Some? <==> key in Keys(entries)
    ensures r.Some? ==> (key, r.value) in entries
  {
    var j := FieldIndex(entries, key);
    if j < 0 then None else Some(entries[j].1)
  }

  /**
   * `v.get(key)`: a lookup in a table; every other kind of value has no
   * fields.
   */
  function Get(v: Toml, key: string): (r: Option<Toml>)
    ensures r.Some? <==> v.Table? && key in Keys(v.entries)
  {
    if v.Table? then Lookup(v.entries, key) else None
  }

  /** `as_table().unwrap()` succeeds exactly on tables, and `contains_key` on their keys. */
  predicate ContainsKey(v: Toml, key: string)
  {
    v.Table? && key in Keys(v.entries)
  }

  /**
   * `convert_json_to_toml`: null becomes `false`, every number becomes a
   * float, strings and booleans are kept, arrays and objects are converted
   * element by element.
   */
  function ConvertJsonToToml(j: Json): (t: Toml)
    ensures j.Null? ==> t == Boolean(false)
    ensures j.Bool? ==> t == Boolean(j.b)
    ensures j.Number? ==> t == Float(j.n)
    ensures j.String? ==> t == Str(j.s)
    ensures j.List? <==> t.Array?
    ensures j.List? ==> |t.items| == |j.items|
    ensures j.Object? <==> t.Table?
    ensures j.Object? ==> Keys(t.entries) == Keys(j.members)
  {
    match j
    case Null => Boolean(false)
    case Bool(b) => Boolean(b)
    case Number(n) => Float(n)
    case String(s) => Str(s)
    case List(items) => Array(ConvertItems(items))
    case Object(members) => Table(ConvertMembers(members))
  }

  function ConvertItems(items: seq<Json>): (r: seq<Toml>)
    ensures |r| == |items|
  {
    if items == [] then [] else [ConvertJsonToToml(items[0])] + ConvertItems(items[1..])
  }

  function ConvertMembers(members: seq<(string, Json)>): (r: seq<(string, Toml)>)
    ensures Keys(r) == Keys(members)
  {
    if members == [] then []
    else
      assert members[0] in members && members[0].1 < members[0];
      [(members[0].0, ConvertJsonToToml(members[0].1))] + ConvertMembers(members[1..])
  }

  /** The i-th converted element is the conversion of the i-th element: order is kept. */
  lemma {:induction false} ConvertItemsAt(items: seq<Json>, i: nat)
    requires i < |items|
    ensures ConvertItems(items)[i] == ConvertJsonToToml(items[i])
  {
    if i > 0 {
      ConvertItemsAt(items[1..], i - 1);
    }
  }

  /** The value stored under a key of a converted object is the conversion of the original value. */
  lemma {:induction false} ConvertMembersAt(members: seq<(string, Json)>, i: nat)
    requires i < |members|
    ensures ConvertMembers(members)[i] == (members[i].0, ConvertJsonToToml(members[i].1))
  {
    if i > 0 {
      ConvertMembersAt(members[1..], i - 1);
    }
  }

  /** Number of nodes of a JSON value. */
  function JsonSize(j: Json): nat
  {
    match j
    case List(items) => 1 + JsonItemsSize(items)
    case Object(members) => 1 + JsonMembersSize(members)
    case _ => 1
  }

  function JsonItemsSize(items: seq<Json>): nat
  {
    if items == [] then 0 else JsonSize(items[0]) + JsonItemsSize(items[1..])
  }

  function JsonMembersSize(members: seq<(string, Json)>): nat
  {
    if members == [] then 0
    else
      assert members[0] in members && members[0].1 < members[0];
      JsonSize(members[0].1) + JsonMembersSize(members[1..])
  }

  /** Number of nodes of a TOML value. */
  function TomlSize(t: Toml): nat
  {
    match t
    case Array(items) => 1 + TomlItemsSize(items)
    case Table(entries) => 1 + TomlEntriesSize(entries)
    case _ => 1
  }

  function TomlItemsSize(items: seq<Toml>): nat
  {
    if items == [] then 0 else TomlSize(items[0]) + TomlItemsSize(items[1..])
  }

  function TomlEntriesSize(entries: seq<(string, Toml)>): nat
  {
    if entries == [] then 0
    else
      assert entries[0] in entries && entries[0].1 < entries[0];
      TomlSize(entries[0].1) + TomlEntriesSize(entries[1..])
  }

  /** The conversion neither drops nor adds a node at any depth. */
  lemma {:induction false} ConvertKeepsSize(j: Json)
    ensures TomlSize(ConvertJsonToToml(j)) == JsonSize(j)
  {
    match j
    case List(items) => ConvertItemsKeepSize(items);
    case Object(members) => ConvertMembersKeepSize(members);
    case _ =>
  }

  lemma {:induction false} ConvertItemsKeepSize(items: seq<Json>)
    ensures TomlItemsSize(ConvertItems(items)) == JsonItemsSize(items)
  {
    if items != [] {
      ConvertKeepsSize(items[0]);
      ConvertItemsKeepSize(items[1..]);
    }
  }

  lemma {:induction false} ConvertMembersKeepSize(members: seq<(string, Json)>)
    ensures TomlEntriesSize(ConvertMembers(members)) == JsonMembersSize(members)
  {
    if members != [] {
      assert members[0] in members && members[0].1 < members[0];
      ConvertKeepsSize(members[0].1);
      ConvertMembersKeepSize(members[1..]);
    }
  }

  /** A converted value never holds a null: `false` stands in for it. */
  predicate NoNulls(j: Json)
  {
    match j
    case Null => false
    case List(items) => forall i :: 0 <= i < |items| ==> NoNulls(items[i])
    case Object(members) => forall i :: 0 <= i < |members| ==> NoNulls(members[i].1)
    case _ => true
  }

  /**
   * The way back from TOML to JSON for the values the conversion produces:
   * floats become numbers, booleans stay booleans; other kinds do not occur.
   */
  function TomlToJson(t: Toml): Json
  {
    match t
    case Str(s) => String(s)
    case Integer(i) => Number(i as real)
    case Float(f) => Number(f)
    case Boolean(b) => Bool(b)
    case Datetime(text) => String(text)
    case Array(items) => List(seq(|items|, i requires 0 <= i < |items| => TomlToJson(items[i])))
    case Table(entries) => Object(seq(|entries|, i requires 0 <= i < |entries| => (entries[i].0, TomlToJson(entries[i].1))))
  }

  /** On JSON without nulls the conversion is undone exactly; a null comes back as `false`. */
  lemma {:induction false} ConvertRoundTrip(j: Json)
    ensures NoNulls(j) ==> TomlToJson(ConvertJsonToToml(j)) == j
    ensures j.Null? ==> TomlToJson(ConvertJsonToToml(j)) == Bool(false)
  {
    match j
    case List(items) =>
      if NoNulls(j) {
        var back := TomlToJson(ConvertJsonToToml(j));
        forall i | 0 <= i < |items| ensures back.items[i] == items[i] {
          ConvertItemsAt(items, i);
          ConvertRoundTrip(items[i]);
        }
      }
    case Object(members) =>
      if NoNulls(j) {
        var back := TomlToJson(ConvertJsonToToml(j));
        forall i | 0 <= i < |members| ensures back.members[i] == members[i] {
          ConvertMembersAt(members, i);
          ConvertRoundTrip(members[i].1);
        }
      }
    case _ =>
  }
}
