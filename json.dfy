/**
 * JSON values as Python's `json` module hands them to the two configuration
 * scripts: the value types of RFC 8259, section 3, with objects kept in the
 * insertion order of a Python dict.
 */
module Json {

  datatype Option<+T> = None | Some(value: T)

  /** A parsed JSON value. A number keeps its literal text and is never
      inspected; an object is its list of members in insertion order. */
  datatype Value =
    | Null
    | Bool(b: bool)
    | Num(literal: string)
    | Str(s: string)
    | Arr(items: seq<Value>)
    | Obj(members: Members)

  type Members = seq<(string, Value)>

  /** The member names of an object, in order. */
  function Keys(m: Members): seq<string>
  {
    seq(|m|, i requires 0 <= i < |m| => m[i].0)
  }

  /** Python dicts never hold a key twice. */
  predicate UniqueKeys(m: Members)
  {
    forall i, j :: 0 <= i < j < |m| ==> m[i].0 != m[j].0
  }

  /** Position of the first member named `k`, or `|m|` when there is none. */
  function Find(m: Members, k: string): (i: nat)
    ensures i <= |m|
    ensures i < |m| ==> m[i].0 == k
    ensures forall j :: 0 <= j < i ==> m[j].0 != k
  {
    if m == [] then 0
    else if m[0].0 == k then 0
    else 1 + Find(m[1..], k)
  }

  /** Python's `k in d`. */
  predicate Has(m: Members, k: string): (b: bool)
    ensures b <==> k in Keys(m)
  {
    var i := Find(m, k);
    if i < |m| then
      assert Keys(m)[i] == k;
      true
    else
      assert forall j :: 0 <= j < |m| ==> Keys(m)[j] != k;
      false
  }

  /** Python's `d.get(k)`, with `None` for an absent key. */
  function Get(m: Members, k: string): (r: Option<Value>)
    ensures r.Some? <==> k in Keys(m)
    ensures r.Some? ==> (k, r.value) in m
  {
    var i := Find(m, k);
    if i < |m| then
      assert Keys(m)[i] == k;
      Some(m[i].1)
    else
      assert forall j :: 0 <= j < |m| ==> Keys(m)[j] != k;
      None
  }

  /** Python's `d[k] = v`: an existing member is overwritten where it stands,
      a new one is appended. */
  function Put(m: Members, k: string, v: Value): (r: Members)
    ensures Get(r, k) == Some(v)
    ensures forall k' :: k' != k ==> Get(r, k') == Get(m, k')
    ensures Keys(r) == if Has(m, k) then Keys(m) else Keys(m) + [k]
  {
    var i := Find(m, k);
    if i < |m| then
      var r := m[i := (k, v)];
      assert Keys(r) == Keys(m);
      FindByKeys(r, m);
      r
    else
      var r := m + [(k, v)];
      assert Keys(r) == Keys(m) + [k];
      forall k' | k' != k
        ensures Find(r, k') == (if Find(m, k') < |m| then Find(m, k') else |r|)
      {
        var a := Find(m, k');
        if a < |m| {
          assert r[a].0 == k';
        }
      }
      r
  }

  /** A store keeps the existing member names in order and adds at most `k`. */
  lemma PutKeys(m: Members, k: string, v: Value)
    ensures Keys(m) <= Keys(Put(m, k, v))
    ensures forall x :: x in Keys(Put(m, k, v)) ==> x in Keys(m) || x == k
  {
    var r := Put(m, k, v);
    if !Has(m, k) {
      assert Keys(r) == Keys(m) + [k];
    }
  }

  /** A store under a new key appends the member. */
  lemma PutAbsent(m: Members, k: string, v: Value)
    requires k !in Keys(m)
    ensures Put(m, k, v) == m + [(k, v)]
  {
    assert !Has(m, k);
  }

  /** Being a prefix is transitive. */
  lemma PrefixTrans(a: seq<string>, b: seq<string>, c: seq<string>)
    requires a <= b && b <= c
    ensures a <= c
  {
    assert a == b[..|a|] && b == c[..|b|];
  }

  /** Where a key sits depends only on the member names. */
  lemma FindByKeys(m1: Members, m2: Members)
    requires Keys(m1) == Keys(m2)
    ensures forall k :: Find(m1, k) == Find(m2, k)
  {
    assert |m1| == |Keys(m1)| == |m2|;
    assert forall j :: 0 <= j < |m1| ==> Keys(m1)[j] == m1[j].0 && Keys(m2)[j] == m2[j].0;
    assert forall j :: 0 <= j < |m1| ==> m1[j].0 == m2[j].0;
  }

  /** Storing the value a key already holds changes nothing. */
  lemma PutUnchanged(m: Members, k: string, v: Value)
    requires Get(m, k) == Some(v)
    ensures Put(m, k, v) == m
  {
    var i := Find(m, k);
    assert m[i] == (k, v);
  }

  /** A second store under the same key overrides the first in place. */
  lemma PutTwice(m: Members, k: string, a: Value, b: Value)
    ensures Put(Put(m, k, a), k, b) == Put(m, k, b)
  {
    var m1 := Put(m, k, a);
    if Has(m, k) {
      FindByKeys(m1, m);
    } else {
      assert Find(m1, k) == |m| by {
        assert m1[|m|].0 == k;
      }
    }
  }

  /** A store keeps the keys of a dict unique. */
  lemma PutKeepsUnique(m: Members, k: string, v: Value)
    requires UniqueKeys(m)
    ensures UniqueKeys(Put(m, k, v))
  {
    var r := Put(m, k, v);
    forall i, j | 0 <= i < j < |r| ensures r[i].0 != r[j].0 {
      assert Keys(r)[i] == r[i].0 && Keys(r)[j] == r[j].0;
      if !Has(m, k) && j == |m| {
        assert Keys(m)[i] == m[i].0;
      } else {
        assert Keys(m)[i] == m[i].0 && Keys(m)[j] == m[j].0;
      }
    }
  }

  /** Python's chained subscript `v[p0][p1]...`, with `None` where a step
      meets a missing key or a value that is not an object. */
  function Lookup(v: Value, path: seq<string>): Option<Value>
    decreases |path|
  {
    if path == [] then Some(v)
    else if !v.Obj? then None
    else
      match Get(v.members, path[0])
      case None => None
      case Some(child) => Lookup(child, path[1..])
  }

  /** Two steps down through objects. */
  lemma LookupTwo(m: Members, a: string, inner: Members, b: string, x: Value)
    requires Get(m, a) == Some(Obj(inner))
    requires Get(inner, b) == Some(x)
    ensures Lookup(Obj(m), [a, b]) == Some(x)
  {
    assert [a, b][1..] == [b];
    assert Lookup(Obj(inner), [b]) == Some(x);
  }

  /** Three steps down through objects. */
  lemma LookupThree(m: Members, a: string, mid: Members, b: string, inner: Members, c: string, x: Value)
    requires Get(m, a) == Some(Obj(mid))
    requires Get(mid, b) == Some(Obj(inner))
    requires Get(inner, c) == Some(x)
    ensures Lookup(Obj(m), [a, b, c]) == Some(x)
  {
    assert [a, b, c][1..] == [b, c];
    LookupTwo(mid, b, inner, c, x);
  }

  /** The member `k` is absent or holds an object. */
  predicate ObjectOrAbsent(m: Members, k: string)
  {
    Get(m, k).Some? ==> Get(m, k).value.Obj?
  }

  /** The members of the object under `k`, or none when the key is absent:
      what `d[k]` holds after `if k not in d: d[k] = {}`. */
  function ObjectAt(m: Members, k: string): (r: Members)
    requires ObjectOrAbsent(m, k)
    ensures Get(if Has(m, k) then m else Put(m, k, Obj([])), k) == Some(Obj(r))
  {
    if Has(m, k) then Get(m, k).value.members else []
  }
}
