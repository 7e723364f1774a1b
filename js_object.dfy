/** A JavaScript object with string keys, as its ordered list of entries.
    Assigning an existing key overwrites the value in place; a new key is appended.
    (JavaScript moves integer-like keys to the front; that is not modelled.) */
module JsObject {
  import opened Wrappers
  import Seqs

  type Object<V> = seq<(string, V)>

  /** `Object.keys`. */
  function Keys<V>(o: Object<V>): (ks: seq<string>)
    ensures |ks| == |o|
    ensures forall i :: 0 <= i < |o| ==> ks[i] == o[i].0
  {
    if o == [] then [] else [o[0].0] + Keys(o[1..])
  }

  ghost predicate DistinctKeys<V>(o: Object<V>) {
    Seqs.Distinct(Keys(o))
  }

  /** `o[k]`, or None when `k` is not a key. */
  function Lookup<V>(o: Object<V>, k: string): (r: Option<V>)
    ensures r.Some? <==> k in Keys(o)
  {
    if o == [] then None
    else if o[0].0 == k then Some(o[0].1)
    else Lookup(o[1..], k)
  }

  lemma {:induction false} LookupAt<V>(o: Object<V>, i: nat)
    requires DistinctKeys(o) && i < |o|
    ensures Lookup(o, o[i].0) == Some(o[i].1)
  {
    if i > 0 {
      assert Keys(o[1..]) == Keys(o)[1..];
      LookupAt(o[1..], i - 1);
    }
  }

  /** `o[k] = v`. */
  function Put<V>(o: Object<V>, k: string, v: V): (r: Object<V>)
    ensures Keys(r) == if k in Keys(o) then Keys(o) else Keys(o) + [k]
  {
    if o == [] then [(k, v)]
    else if o[0].0 == k then [(k, v)] + o[1..]
    else
      assert Keys(o) == [o[0].0] + Keys(o[1..]);
      [o[0]] + Put(o[1..], k, v)
  }

  lemma {:induction false} PutLookup<V>(o: Object<V>, k: string, v: V, k': string)
    ensures Lookup(Put(o, k, v), k') == if k' == k then Some(v) else Lookup(o, k')
  {
    if o != [] && o[0].0 != k {
      PutLookup(o[1..], k, v, k');
    }
  }

  lemma PutDistinct<V>(o: Object<V>, k: string, v: V)
    ensures DistinctKeys(o) ==> DistinctKeys(Put(o, k, v))
  {
  }

  /** lodash `zipObject(ks, vs)`: assigns `vs[i]` to `ks[i]` in order, so a repeated key
      keeps its first position and its last value. */
  function ZipObject<V>(ks: seq<string>, vs: seq<V>): (r: Object<V>)
    requires |ks| == |vs|
    ensures DistinctKeys(r)
    ensures |r| <= |ks|
    ensures forall k :: k in Keys(r) <==> k in ks
    ensures Seqs.Distinct(ks) ==> Keys(r) == ks
  {
    if ks == [] then []
    else
      var n := |ks| - 1;
      var prefix := ZipObject(ks[..n], vs[..n]);
      assert ks == ks[..n] + [ks[n]];
      PutDistinct(prefix, ks[n], vs[n]);
      Put(prefix, ks[n], vs[n])
  }

  /** The value `zipObject` keeps for a key: that of its last occurrence. */
  lemma {:induction false} ZipObjectLast<V>(ks: seq<string>, vs: seq<V>, i: nat)
    requires |ks| == |vs| && i < |ks|
    requires forall j :: i < j < |ks| ==> ks[j] != ks[i]
    ensures Lookup(ZipObject(ks, vs), ks[i]) == Some(vs[i])
  {
    ZipObjectLookup(ks, vs, ks[i]);
    LastValueAt(ks, vs, i);
  }

  /** The value of the last occurrence of `k` among the pairs. */
  function LastValue<V>(ks: seq<string>, vs: seq<V>, k: string): Option<V>
    requires |ks| == |vs|
  {
    if ks == [] then None
    else if ks[|ks| - 1] == k then Some(vs[|ks| - 1])
    else LastValue(ks[..|ks| - 1], vs[..|ks| - 1], k)
  }

  lemma {:induction false} LastValueAt<V>(ks: seq<string>, vs: seq<V>, i: nat)
    requires |ks| == |vs| && i < |ks|
    requires forall j :: i < j < |ks| ==> ks[j] != ks[i]
    ensures LastValue(ks, vs, ks[i]) == Some(vs[i])
  {
    var n := |ks| - 1;
    if i < n {
      assert ks[n] != ks[i];
      assert ks[..n][i] == ks[i] && vs[..n][i] == vs[i];
      forall j | i < j < n ensures ks[..n][j] != ks[..n][i] {
        assert ks[..n][j] == ks[j];
      }
      LastValueAt(ks[..n], vs[..n], i);
    }
  }

  /** `zipObject` assigns the last pair after all the others. */
  lemma ZipObjectSnoc<V>(ks: seq<string>, vs: seq<V>)
    requires |ks| == |vs| > 0
    ensures ZipObject(ks, vs) == Put(ZipObject(ks[..|ks| - 1], vs[..|ks| - 1]), ks[|ks| - 1], vs[|ks| - 1])
  {
  }

  /** Looking a key up in `zipObject` finds the value of its last occurrence. */
  lemma {:induction false} ZipObjectLookup<V>(ks: seq<string>, vs: seq<V>, k: string)
    requires |ks| == |vs|
    ensures Lookup(ZipObject(ks, vs), k) == LastValue(ks, vs, k)
  {
    if ks != [] {
      var n := |ks| - 1;
      ZipObjectSnoc(ks, vs);
      PutLookup(ZipObject(ks[..n], vs[..n]), ks[n], vs[n], k);
      ZipObjectLookup(ks[..n], vs[..n], k);
    }
  }

  /** `zipObject` with one value for every key maps each key to that value. */
  lemma ZipObjectConst<V>(ks: seq<string>, vs: seq<V>, v: V, k: string)
    requires |ks| == |vs| && k in ks
    requires forall i :: 0 <= i < |vs| ==> vs[i] == v
    ensures Lookup(ZipObject(ks, vs), k) == Some(v)
  {
    ZipObjectLookup(ks, vs, k);
    LastValueConst(ks, vs, v, k);
  }

  lemma {:induction false} LastValueConst<V>(ks: seq<string>, vs: seq<V>, v: V, k: string)
    requires |ks| == |vs| && k in ks
    requires forall i :: 0 <= i < |vs| ==> vs[i] == v
    ensures LastValue(ks, vs, k) == Some(v)
  {
    var n := |ks| - 1;
    if ks[n] != k {
      var j :| 0 <= j < |ks| && ks[j] == k;
      assert ks[..n][j] == k;
      ConstPrefix(vs, v, n);
      LastValueConst(ks[..n], vs[..n], v, k);
    } else {
      assert vs[n] == v;
    }
  }

  lemma ConstPrefix<V>(vs: seq<V>, v: V, n: nat)
    requires n <= |vs| && forall i :: 0 <= i < |vs| ==> vs[i] == v
    ensures forall i :: 0 <= i < n ==> vs[..n][i] == v
  {
  }

  /** `ks.map(k => o[k])` for keys that are all present. */
  function LookupAll<V>(o: Object<V>, ks: seq<string>): (r: seq<V>)
    requires forall k :: k in ks ==> k in Keys(o)
    ensures |r| == |ks|
    ensures forall i :: 0 <= i < |ks| ==> Lookup(o, ks[i]) == Some(r[i])
  {
    if ks == [] then [] else [Lookup(o, ks[0]).value] + LookupAll(o, ks[1..])
  }

  /** Object spread `{...a, ...b}`: the entries of `b` assigned over `a`. */
  function Assign<V>(a: Object<V>, b: Object<V>): (r: Object<V>)
    ensures forall k :: k in Keys(r) <==> k in Keys(a) || k in Keys(b)
    ensures DistinctKeys(a) ==> DistinctKeys(r)
    decreases b
  {
    if b == [] then a
    else
      assert Keys(b) == [b[0].0] + Keys(b[1..]);
      var a' := Put(a, b[0].0, b[0].1);
      PutDistinct(a, b[0].0, b[0].1);
      Assign(a', b[1..])
  }

  lemma {:induction false} AssignLookup<V>(a: Object<V>, b: Object<V>, k: string)
    requires DistinctKeys(b)
    ensures Lookup(Assign(a, b), k) == if k in Keys(b) then Lookup(b, k) else Lookup(a, k)
    decreases b
  {
    if b != [] {
      assert Keys(b) == [b[0].0] + Keys(b[1..]);
      assert DistinctKeys(b[1..]) by {
        assert Keys(b[1..]) == Keys(b)[1..];
      }
      AssignLookup(Put(a, b[0].0, b[0].1), b[1..], k);
      PutLookup(a, b[0].0, b[0].1, k);
      assert b[0].0 !in Keys(b[1..]);
    }
  }
}
