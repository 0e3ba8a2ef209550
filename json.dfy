/**
 * JSON values as the service receives and stores them, and the Python `dict`
 * operations the core performs on them. A dict is an ordered sequence of
 * key/value entries: Python dicts keep insertion order, and every loop the
 * core runs over one goes through its entries in that order.
 */
module Json {
  import opened Wrappers
  import Strings

  datatype Json =
    | JNull
    | JBool(b: bool)
    | JInt(i: int)
    | JStr(s: string)
    | JArray(items: seq<Json>)
    | JObject(fields: seq<(string, Json)>)

  type Dict = seq<(string, Json)>

  /** Python truthiness: `None`, `False`, `0`, `''`, `[]` and `{}` are false. */
  predicate Truthy(v: Json) {
    match v
    case JNull => false
    case JBool(b) => b
    case JInt(i) => i != 0
    case JStr(s) => s != ""
    case JArray(items) => items != []
    case JObject(fields) => fields != []
  }

  function Keys(d: Dict): (ks: seq<string>)
    ensures |ks| == |d| && forall i :: 0 <= i < |d| ==> ks[i] == d[i].0
  {
    seq(|d|, i requires 0 <= i < |d| => d[i].0)
  }

  /** A Python dict never holds a key twice. */
  predicate DistinctKeys(d: Dict) {
    forall i, j :: 0 <= i < j < |d| ==> d[i].0 != d[j].0
  }

  /** `k in d`. */
  predicate HasKey(d: Dict, k: string) {
    exists i :: 0 <= i < |d| && d[i].0 == k
  }

  /** `d.get(k)`: the value of the first entry with key `k`. */
  function Get(d: Dict, k: string): (r: Option<Json>)
    ensures r.Some? <==> HasKey(d, k)
    ensures r.Some? ==> (k, r.value) in d
    decreases |d|
  {
    if d == [] then None
    else if d[0].0 == k then Some(d[0].1)
    else
      assert forall i :: 0 <= i < |d| - 1 ==> d[1..][i] == d[i + 1];
      Get(d[1..], k)
  }

  /** The value the last entry with key `k` carries: what a loop assigning entry by entry leaves behind. */
  function LastValue(d: Dict, k: string): (r: Option<Json>)
    ensures r.Some? <==> HasKey(d, k)
    ensures r.Some? ==> (k, r.value) in d
    decreases |d|
  {
    if d == [] then None
    else if d[|d| - 1].0 == k then Some(d[|d| - 1].1)
    else
      assert forall i :: 0 <= i < |d| - 1 ==> d[..|d| - 1][i] == d[i];
      LastValue(d[..|d| - 1], k)
  }

  /** `Get` finds the value of the first entry carrying the key. */
  lemma {:induction false} GetIsFirst(d: Dict, k: string, i: nat)
    requires i < |d| && d[i].0 == k
    requires forall j :: 0 <= j < i ==> d[j].0 != k
    ensures Get(d, k) == Some(d[i].1)
    decreases i
  {
    if i > 0 {
      assert forall j :: 0 <= j < i - 1 ==> d[1..][j] == d[j + 1];
      GetIsFirst(d[1..], k, i - 1);
    }
  }

  /** `LastValue` finds the value of the last entry carrying the key. */
  lemma {:induction false} LastValueIsLast(d: Dict, k: string, i: nat)
    requires i < |d| && d[i].0 == k
    requires forall j :: i < j < |d| ==> d[j].0 != k
    ensures LastValue(d, k) == Some(d[i].1)
    decreases |d| - i
  {
    if i < |d| - 1 {
      var init := d[..|d| - 1];
      assert forall j :: 0 <= j < |init| ==> init[j] == d[j];
      LastValueIsLast(init, k, i);
    }
  }

  /** In a dict without repeated keys, an entry is exactly what `Get` finds. */
  lemma {:induction false} GetEntry(d: Dict, k: string, v: Json)
    requires DistinctKeys(d)
    ensures Get(d, k) == Some(v) <==> (k, v) in d
    decreases |d|
  {
    if d != [] && d[0].0 != k {
      GetEntry(d[1..], k, v);
      assert (k, v) in d <==> (k, v) in d[1..] by {
        if (k, v) in d { var i :| 0 <= i < |d| && d[i] == (k, v); assert i != 0; assert d[1..][i - 1] == d[i]; }
      }
    } else if d != [] {
      if (k, v) in d {
        var i :| 0 <= i < |d| && d[i] == (k, v);
        assert i == 0;
      }
    }
  }

  /** In a dict without repeated keys, an entry is exactly what `LastValue` finds. */
  lemma {:induction false} LastValueEntry(d: Dict, k: string, v: Json)
    requires DistinctKeys(d)
    ensures LastValue(d, k) == Some(v) <==> (k, v) in d
    decreases |d|
  {
    var n := |d|;
    if d != [] && d[n - 1].0 != k {
      LastValueEntry(d[..n - 1], k, v);
      assert (k, v) in d <==> (k, v) in d[..n - 1] by {
        if (k, v) in d { var i :| 0 <= i < n && d[i] == (k, v); assert i != n - 1; assert d[..n - 1][i] == d[i]; }
      }
    } else if d != [] {
      if (k, v) in d {
        var i :| 0 <= i < n && d[i] == (k, v);
        assert i == n - 1;
      }
    }
  }

  /** So for a real dict, the first and the last entry for a key are the same entry. */
  lemma LastValueIsGet(d: Dict, k: string)
    requires DistinctKeys(d)
    ensures LastValue(d, k) == Get(d, k)
  {
    match Get(d, k)
    case None =>
    case Some(v) => GetEntry(d, k, v); LastValueEntry(d, k, v);
  }

  /** Unfolding `Get` over an entry put in front. */
  lemma GetCons(x: (string, Json), rest: Dict, k: string)
    ensures Get([x] + rest, k) == if x.0 == k then Some(x.1) else Get(rest, k)
  {
    assert ([x] + rest)[1..] == rest;
  }

  /** Unfolding `Get` over an entry put in front, for every key. */
  lemma GetConsAll(x: (string, Json), rest: Dict)
    ensures forall k :: Get([x] + rest, k) == if x.0 == k then Some(x.1) else Get(rest, k)
  {
    forall k ensures Get([x] + rest, k) == if x.0 == k then Some(x.1) else Get(rest, k) {
      GetCons(x, rest, k);
    }
  }

  /** Unfolding `LastValue` over an entry put at the end. */
  lemma LastValueSnoc(d: Dict, x: (string, Json), k: string)
    ensures LastValue(d + [x], k) == if x.0 == k then Some(x.1) else LastValue(d, k)
  {
    assert (d + [x])[..|d|] == d;
  }

  /**
   * `d[k] = v`: an existing key keeps its position and takes the new value, a
   * new key is appended at the end.
   */
  function Assign(d: Dict, k: string, v: Json): (r: Dict)
    ensures Get(r, k) == Some(v)
    ensures forall k' :: k' != k ==> Get(r, k') == Get(d, k')
    ensures Get(d, k).Some? ==> |r| == |d|
    ensures Get(d, k).None? ==> r == d + [(k, v)]
    ensures |r| >= |d| && forall i :: 0 <= i < |d| ==> r[i].0 == d[i].0
    decreases |d|
  {
    if d == [] then [(k, v)]
    else
      var x, tail := d[0], d[1..];
      assert d == [x] + tail;
      GetConsAll(x, tail);
      if x.0 == k then
        GetConsAll((k, v), tail);
        [(k, v)] + tail
      else
        var rest := Assign(tail, k, v);
        GetConsAll(x, rest);
        assert Get(tail, k).None? ==> [x] + rest == d + [(k, v)] by {
          assert [x] + (tail + [(k, v)]) == ([x] + tail) + [(k, v)];
        }
        [x] + rest
  }

  /** An entry whose key the rest does not hold can go in front without repeating a key. */
  lemma DistinctCons(x: (string, Json), rest: Dict)
    requires DistinctKeys(rest) && !HasKey(rest, x.0)
    ensures DistinctKeys([x] + rest)
  {
    var r := [x] + rest;
    forall i, j | 0 <= i < j < |r| ensures r[i].0 != r[j].0 {
      assert r[j] == rest[j - 1];
      if i > 0 { assert r[i] == rest[i - 1]; }
    }
  }

  /** Assigning a key keeps a dict free of repeated keys. */
  lemma {:induction false} AssignKeepsDistinct(d: Dict, k: string, v: Json)
    requires DistinctKeys(d)
    ensures DistinctKeys(Assign(d, k, v))
    decreases |d|
  {
    if d == [] {
    } else if d[0].0 == k {
      assert DistinctKeys(d[1..]);
      assert !HasKey(d[1..], k);
      DistinctCons((k, v), d[1..]);
    } else {
      var rest := Assign(d[1..], k, v);
      assert DistinctKeys(d[1..]);
      AssignKeepsDistinct(d[1..], k, v);
      assert !HasKey(d[1..], d[0].0);
      assert Get(rest, d[0].0) == Get(d[1..], d[0].0);
      DistinctCons(d[0], rest);
    }
  }

  /** `d.pop(k)`: the entry for `k` goes, every other key keeps its value and its place. */
  function Remove(d: Dict, k: string): (r: Dict)
    ensures Get(r, k).None?
    ensures forall k' :: k' != k ==> Get(r, k') == Get(d, k')
    ensures forall e :: e in r ==> e in d
    decreases |d|
  {
    if d == [] then []
    else
      var rest := Remove(d[1..], k);
      if d[0].0 == k then
        assert forall k' :: k' != k ==> Get(d, k') == Get(d[1..], k');
        rest
      else
        assert forall k' :: Get([d[0]] + rest, k') == if d[0].0 == k' then Some(d[0].1) else Get(rest, k') by {
          forall k' { GetCons(d[0], rest, k'); }
        }
        [d[0]] + rest
  }

  /** Removing a key keeps a dict free of repeated keys. */
  lemma {:induction false} RemoveKeepsDistinct(d: Dict, k: string)
    requires DistinctKeys(d)
    ensures DistinctKeys(Remove(d, k))
    decreases |d|
  {
    if d != [] {
      var rest := Remove(d[1..], k);
      RemoveKeepsDistinct(d[1..], k);
      if d[0].0 != k {
        forall i | 0 <= i < |rest| ensures rest[i].0 != d[0].0 {
          assert rest[i] in d[1..];
        }
        assert Remove(d, k) == [d[0]] + rest;
      }
    }
  }

  /**
   * `d.update(e)`, and the key-by-key assignment loop that does the same: every
   * key of `e` takes the value `e` gives it last, every other key keeps its
   * value, and the keys of `d` keep their positions.
   */
  method Update(d: Dict, e: Dict) returns (r: Dict)
    ensures forall k :: Get(r, k) == if HasKey(e, k) then LastValue(e, k) else Get(d, k)
    ensures |r| >= |d| && forall i :: 0 <= i < |d| ==> r[i].0 == d[i].0
    ensures DistinctKeys(d) ==> DistinctKeys(r)
  {
    r := d;
    var i := 0;
    while i < |e|
      invariant 0 <= i <= |e|
      invariant UpdatedBy(d, e[..i], r)
    {
      UpdateStep(d, e, i, r);
      r := Assign(r, e[i].0, e[i].1);
      i := i + 1;
    }
    assert e[..|e|] == e;
  }

  /** `r` is `d` with the entries of `pre` assigned one by one, in order. */
  ghost predicate UpdatedBy(d: Dict, pre: Dict, r: Dict) {
    && (forall k :: Get(r, k) == if LastValue(pre, k).Some? then LastValue(pre, k) else Get(d, k))
    && |r| >= |d| && (forall j :: 0 <= j < |d| ==> r[j].0 == d[j].0)
    && (DistinctKeys(d) ==> DistinctKeys(r))
  }

  /** One more entry of `e` assigned keeps `UpdatedBy` for the next prefix of `e`. */
  lemma UpdateStep(d: Dict, e: Dict, i: nat, r: Dict)
    requires i < |e| && UpdatedBy(d, e[..i], r)
    ensures UpdatedBy(d, e[..i + 1], Assign(r, e[i].0, e[i].1))
  {
    var r' := Assign(r, e[i].0, e[i].1);
    assert e[..i + 1] == e[..i] + [e[i]];
    forall k ensures Get(r', k) == if LastValue(e[..i + 1], k).Some? then LastValue(e[..i + 1], k) else Get(d, k) {
      LastValueSnoc(e[..i], e[i], k);
    }
    if DistinctKeys(d) {
      AssignKeepsDistinct(r, e[i].0, e[i].1);
    }
  }

  /**
   * The text PostgreSQL's `->>` gives for a scalar JSON value; `null` gives
   * SQL NULL. Arrays and objects, which `->>` renders as JSON text, give no
   * text here either.
   */
  function AsText(v: Json): (r: Option<string>)
    ensures v.JStr? ==> r == Some(v.s)
    ensures v.JNull? ==> r.None?
    ensures r.None? <==> v.JNull? || v.JArray? || v.JObject?
  {
    match v
    case JStr(s) => Some(s)
    case JInt(i) => Some(Strings.IntToString(i))
    case JBool(b) => Some(if b then "true" else "false")
    case _ => None
  }
}
