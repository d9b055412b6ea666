/**
  The workflow document: the nested value the builder produces and the YAML
  serializer consumes, in place of Python's dicts, lists, strings, ints and
  bools. A mapping keeps its entries in insertion order, as a Python dict does.
 */
module Document {
  import opened Options

  datatype Value =
    | Map(entries: seq<(string, Value)>)
    | List(items: seq<Value>)
    | Str(text: string)
    | Int(number: int)
    | Bool(flag: bool)

  /** The keys of a mapping, in insertion order (Python's `list(d.keys())`). */
  function Keys(es: seq<(string, Value)>): (ks: seq<string>)
    ensures |ks| == |es|
    ensures forall i :: 0 <= i < |es| ==> ks[i] == es[i].0
  {
    if |es| == 0 then [] else [es[0].0] + Keys(es[1..])
  }

  predicate DistinctKeys(es: seq<(string, Value)>) {
    forall i, j :: 0 <= i < j < |es| ==> es[i].0 != es[j].0
  }

  /** `d.get(key)`: the value stored under `key`, if any. */
  function Lookup(es: seq<(string, Value)>, key: string): (r: Option<Value>)
    ensures r.Some? <==> key in Keys(es)
    ensures r.Some? ==> exists i :: 0 <= i < |es| && es[i] == (key, r.value)
  {
    if |es| == 0 then None
    else if es[0].0 == key then Some(es[0].1)
    else
      assert Keys(es) == [es[0].0] + Keys(es[1..]);
      var r := Lookup(es[1..], key);
      if r.Some? then
        ghost var i :| 0 <= i < |es[1..]| && es[1..][i] == (key, r.value);
        assert es[i + 1] == (key, r.value);
        r
      else r
  }

  /** The entry under `key` of a mapping value; nothing for any other kind of value. */
  function Get(v: Value, key: string): Option<Value> {
    if v.Map? then Lookup(v.entries, key) else None
  }

  predicate HasKey(v: Value, key: string) {
    v.Map? && key in Keys(v.entries)
  }

  /** `d[key] = val`: an existing key keeps its position and gets the new value;
      a new key goes to the end. */
  function Put(es: seq<(string, Value)>, key: string, val: Value): (r: seq<(string, Value)>)
    ensures key in Keys(es) ==> Keys(r) == Keys(es)
    ensures key !in Keys(es) ==> Keys(r) == Keys(es) + [key]
  {
    if |es| == 0 then [(key, val)]
    else if es[0].0 == key then
      assert Keys(es) == [key] + Keys(es[1..]);
      assert Keys([(key, val)] + es[1..]) == [key] + Keys(es[1..]);
      [(key, val)] + es[1..]
    else
      assert Keys(es) == [es[0].0] + Keys(es[1..]);
      var rest := Put(es[1..], key, val);
      assert Keys([es[0]] + rest) == [es[0].0] + Keys(rest);
      [es[0]] + rest
  }

  /** After `d[key] = val`, `key` maps to `val` and every other key to what it did before. */
  lemma {:induction false} PutLookup(es: seq<(string, Value)>, key: string, val: Value, k: string)
    ensures Lookup(Put(es, key, val), k) == if k == key then Some(val) else Lookup(es, k)
  {
    if |es| > 0 && es[0].0 != key {
      PutLookup(es[1..], key, val, k);
      assert ([es[0]] + Put(es[1..], key, val))[1..] == Put(es[1..], key, val);
    } else if |es| > 0 {
      assert ([(key, val)] + es[1..])[1..] == es[1..];
    }
  }

  /** Storing under a key keeps the keys of a mapping distinct. */
  lemma PutDistinct(es: seq<(string, Value)>, key: string, val: Value)
    requires DistinctKeys(es)
    ensures DistinctKeys(Put(es, key, val))
  {
    var r := Put(es, key, val);
    var ks := Keys(r);
    if key in Keys(es) {
      assert forall i, j :: 0 <= i < j < |r| ==> r[i].0 == ks[i] == Keys(es)[i] && r[j].0 == ks[j] == Keys(es)[j];
    } else {
      assert forall i :: 0 <= i < |es| ==> r[i].0 == ks[i] == Keys(es)[i] == es[i].0;
      assert r[|es|].0 == key;
    }
  }

  /** Every mapping inside the value, at any depth, has distinct keys
      (what a Python dict guarantees by construction). */
  predicate WellFormed(v: Value)
    decreases v
  {
    match v
    case Map(es) => DistinctKeys(es) && forall i :: 0 <= i < |es| ==> WellFormed(es[i].1)
    case List(xs) => forall i :: 0 <= i < |xs| ==> WellFormed(xs[i])
    case _ => true
  }

  /** The entry chosen by a key is the first entry carrying it. */
  lemma {:induction false} LookupAt(es: seq<(string, Value)>, key: string, i: nat)
    requires i < |es| && es[i].0 == key
    requires forall j :: 0 <= j < i ==> es[j].0 != key
    ensures Lookup(es, key) == Some(es[i].1)
    decreases i
  {
    if i > 0 {
      LookupAt(es[1..], key, i - 1);
    }
  }

  /** One step into a document: a key of a mapping or a position in a list. */
  datatype Selector = Key(key: string) | Index(index: nat)

  /** The value one selector leads to, if it exists. */
  function Child(v: Value, sel: Selector): Option<Value> {
    match sel
    case Key(k) => Get(v, k)
    case Index(i) => if v.List? && i < |v.items| then Some(v.items[i]) else None
  }

  /** The value reached by following `path` through nested mappings and lists. */
  function Select(v: Value, path: seq<Selector>): Option<Value>
    decreases |path|
  {
    if |path| == 0 then Some(v)
    else
      match Child(v, path[0])
      case None => None
      case Some(w) => Select(w, path[1..])
  }

  /** Following a path is following its first selector, then the rest. */
  lemma {:induction false} SelectFirst(v: Value, path: seq<Selector>, w: Value)
    requires |path| > 0 && Child(v, path[0]) == Some(w)
    ensures Select(v, path) == Select(w, path[1..])
  {
  }
}
