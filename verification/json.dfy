/** JSON-like values as the tools see them after `json.loads`: Python's
    `None`, `bool`, `int`, `str`, `list` and `dict`. A dict is an association
    list, so its insertion order is kept. A field list could repeat a key,
    which no Python dict can; `Lookup` reads the first match. The dicts the
    tools build never repeat a key: their literal replies name each key once,
    and `Put` keeps keys distinct (`PutNoDupKeys`). Parsed values are inputs.
    There is no float. */
module Json {
  import opened Common

  datatype Value =
    | Null
    | Bool(b: bool)
    | Num(n: int)
    | Str(s: string)
    | Arr(items: seq<Value>)
    | Obj(fields: seq<Field>)

  datatype Field = Field(key: string, val: Value)

  /** The keys of a dict, in insertion order. */
  function Keys(fields: seq<Field>): (ks: seq<string>)
    ensures |ks| == |fields|
    ensures forall i :: 0 <= i < |fields| ==> ks[i] == fields[i].key
  {
    seq(|fields|, i requires 0 <= i < |fields| => fields[i].key)
  }

  /** Python's `d.get(key)`: the value stored under the first field with that key. */
  function Lookup(fields: seq<Field>, key: string): (r: Option<Value>)
    ensures r.None? <==> key !in Keys(fields)
    ensures r.Some? ==> Field(key, r.value) in fields
  {
    if |fields| == 0 then None
    else if fields[0].key == key then Some(fields[0].val)
    else
      assert Keys(fields) == [fields[0].key] + Keys(fields[1..]);
      Lookup(fields[1..], key)
  }

  /** A field no earlier field shadows is what `d.get` finds. */
  lemma {:induction false} LookupAt(fields: seq<Field>, i: nat)
    requires i < |fields|
    requires forall j :: 0 <= j < i ==> fields[j].key != fields[i].key
    ensures Lookup(fields, fields[i].key) == Some(fields[i].val)
  {
    if i > 0 {
      assert fields[1..][i - 1] == fields[i];
      LookupAt(fields[1..], i - 1);
    }
  }

  /** Python's `d.get(key, default)`. */
  function Get(fields: seq<Field>, key: string, default: Value): Value {
    Lookup(fields, key).GetOr(default)
  }

  /** Python's `d[key] = v`: an existing key keeps its place, a new key goes last. */
  function Put(fields: seq<Field>, key: string, v: Value): (r: seq<Field>)
    ensures Lookup(r, key) == Some(v)
    ensures forall k :: k != key ==> Lookup(r, k) == Lookup(fields, k)
  {
    if |fields| == 0 then [Field(key, v)]
    else if fields[0].key == key then [Field(key, v)] + fields[1..]
    else [fields[0]] + Put(fields[1..], key, v)
  }

  /** No key appears twice, as in every Python dict. */
  predicate NoDupKeys(fields: seq<Field>) {
    forall i, j :: 0 <= i < j < |fields| ==> fields[i].key != fields[j].key
  }

  /** Assignment keeps a dict free of repeated keys. */
  lemma PutNoDupKeys(fields: seq<Field>, key: string, v: Value)
    requires NoDupKeys(fields)
    ensures NoDupKeys(Put(fields, key, v))
  {
    var r := Put(fields, key, v);
    PutKeys(fields, key, v);
    var ks := Keys(fields);
    forall i, j | 0 <= i < j < |r|
      ensures r[i].key != r[j].key
    {
      assert Keys(r)[i] == r[i].key && Keys(r)[j] == r[j].key;
      if key !in ks && j == |ks| {
        assert Keys(r)[i] == ks[i];
      } else {
        assert Keys(r)[i] == ks[i] && Keys(r)[j] == ks[j];
      }
    }
  }

  /** `d[key] = v` keeps the key order; a new key is appended. */
  lemma PutKeys(fields: seq<Field>, key: string, v: Value)
    ensures key in Keys(fields) ==> Keys(Put(fields, key, v)) == Keys(fields)
    ensures key !in Keys(fields) ==> Keys(Put(fields, key, v)) == Keys(fields) + [key]
  {
    if key in Keys(fields) {
      PutKeysPresent(fields, key, v);
    } else {
      PutKeysAbsent(fields, key, v);
    }
  }

  lemma {:induction false} PutKeysPresent(fields: seq<Field>, key: string, v: Value)
    requires key in Keys(fields)
    ensures Keys(Put(fields, key, v)) == Keys(fields)
  {
    if fields[0].key == key {
      PutKeysAtHead(fields, key, v);
    } else {
      PutKeysStep(fields, key, v);
      PutKeysPresent(fields[1..], key, v);
    }
  }

  lemma {:induction false} PutKeysAbsent(fields: seq<Field>, key: string, v: Value)
    requires key !in Keys(fields)
    ensures Keys(Put(fields, key, v)) == Keys(fields) + [key]
  {
    if |fields| == 0 {
      assert Keys(Put(fields, key, v)) == [key];
    } else {
      assert Keys(fields)[0] == fields[0].key;
      PutKeysStep(fields, key, v);
      PutKeysAbsent(fields[1..], key, v);
      AppendLast([fields[0].key], Keys(fields[1..]), key);
    }
  }

  lemma AppendLast(h: seq<string>, kr: seq<string>, key: string)
    ensures h + (kr + [key]) == (h + kr) + [key]
  {
  }

  lemma PutKeysAtHead(fields: seq<Field>, key: string, v: Value)
    requires |fields| > 0 && fields[0].key == key
    ensures key in Keys(fields) && Keys(Put(fields, key, v)) == Keys(fields)
  {
    var r := Put(fields, key, v);
    assert r == [Field(key, v)] + fields[1..];
    assert Keys(fields)[0] == key;
  }

  /** Past a different first key, assignment works on the rest of the dict. */
  lemma PutKeysStep(fields: seq<Field>, key: string, v: Value)
    requires |fields| > 0 && fields[0].key != key
    ensures Keys(Put(fields, key, v)) == [fields[0].key] + Keys(Put(fields[1..], key, v))
    ensures Keys(fields) == [fields[0].key] + Keys(fields[1..])
    ensures key in Keys(fields) <==> key in Keys(fields[1..])
  {
    assert fields == [fields[0]] + fields[1..];
    KeysCons(fields[0], fields[1..]);
    var rest := Put(fields[1..], key, v);
    assert Put(fields, key, v) == [fields[0]] + rest;
    KeysCons(fields[0], rest);
    InCons(fields[0].key, Keys(fields[1..]), key);
  }

  lemma InCons<T>(a: T, xs: seq<T>, x: T)
    ensures x in [a] + xs <==> x == a || x in xs
  {
    var s := [a] + xs;
    if x in xs {
      var i :| 0 <= i < |xs| && xs[i] == x;
      assert s[i + 1] == x;
    }
    if x in s && x != a {
      var i :| 0 <= i < |s| && s[i] == x;
      assert xs[i - 1] == x;
    }
  }

  lemma KeysCons(f: Field, rest: seq<Field>)
    ensures Keys([f] + rest) == [f.key] + Keys(rest)
  {
    var s := [f] + rest;
    assert forall i :: 0 <= i < |rest| ==> s[i + 1] == rest[i];
  }

  /** An empty dict filled by `d[keys[i]] = vals[i]` for each `i` in order. */
  function Tabulate(keys: seq<string>, vals: seq<Value>): seq<Field>
    requires |keys| == |vals|
    decreases |keys|
  {
    if |keys| == 0 then []
    else Put(Tabulate(keys[..|keys| - 1], vals[..|vals| - 1]), keys[|keys| - 1], vals[|vals| - 1])
  }

  /** The last assignment to a key is the one that stays. */
  lemma {:induction false} TabulateLastWins(keys: seq<string>, vals: seq<Value>, j: nat)
    requires |keys| == |vals| && j < |keys|
    requires forall i :: j < i < |keys| ==> keys[i] != keys[j]
    ensures Lookup(Tabulate(keys, vals), keys[j]) == Some(vals[j])
  {
    var n := |keys|;
    if j < n - 1 {
      var ks := keys[..n - 1];
      var vs := vals[..n - 1];
      assert ks[j] == keys[j] && vs[j] == vals[j];
      TabulateLastWins(ks, vs, j);
    }
  }

  /** The filled dict repeats no key. */
  lemma {:induction false} TabulateNoDupKeys(keys: seq<string>, vals: seq<Value>)
    requires |keys| == |vals|
    ensures NoDupKeys(Tabulate(keys, vals))
  {
    var n := |keys|;
    if n > 0 {
      TabulateNoDupKeys(keys[..n - 1], vals[..n - 1]);
      PutNoDupKeys(Tabulate(keys[..n - 1], vals[..n - 1]), keys[n - 1], vals[n - 1]);
    }
  }

  /** The keys of the filled dict are exactly the keys assigned. */
  lemma {:induction false} TabulateKeys(keys: seq<string>, vals: seq<Value>)
    requires |keys| == |vals|
    ensures forall k :: k in Keys(Tabulate(keys, vals)) <==> k in keys
  {
    var n := |keys|;
    if n > 0 {
      var front := keys[..n - 1];
      var t := Tabulate(front, vals[..n - 1]);
      TabulateKeys(front, vals[..n - 1]);
      assert Tabulate(keys, vals) == Put(t, keys[n - 1], vals[n - 1]);
      PutKeys(t, keys[n - 1], vals[n - 1]);
      forall k
        ensures k in keys <==> k in front || k == keys[n - 1]
      {
        InFrontOrLast(keys, k);
      }
    }
  }

  /** An element of a non-empty sequence is in its front or is its last. */
  lemma InFrontOrLast<T>(xs: seq<T>, x: T)
    requires |xs| > 0
    ensures x in xs <==> x in xs[..|xs| - 1] || x == xs[|xs| - 1]
  {
    if x in xs[..|xs| - 1] {
      var i :| 0 <= i < |xs| - 1 && xs[..|xs| - 1][i] == x;
      assert xs[i] == x;
    }
  }

  /** Python truthiness: `None`, `False`, `0`, `""`, `[]` and `{}` are false. */
  predicate Truthy(v: Value) {
    match v
    case Null => false
    case Bool(b) => b
    case Num(n) => n != 0
    case Str(s) => s != ""
    case Arr(items) => items != []
    case Obj(fields) => fields != []
  }
}
