/**
 JavaScript plain objects as insertion-ordered lists of own properties.

 Assigning to a property that already exists keeps its position and replaces its
 value; assigning to a new property appends it.  `Object.keys` and `Object.values`
 enumerate in that order, and the object spread `{...a, ...b}` assigns the properties
 of `b` onto a copy of `a` one by one.
 */
module Objects {

  import opened Wrappers

  type Obj<V> = seq<(string, V)>

  /** No property name occurs twice, as in every object JavaScript builds. */
  predicate DistinctKeys<V>(o: Obj<V>)
  {
    forall i, j :: 0 <= i < j < |o| ==> o[i].0 != o[j].0
  }

  function Keys<V>(o: Obj<V>): (r: seq<string>)
    ensures |r| == |o|
    ensures forall i :: 0 <= i < |o| ==> r[i] == o[i].0
  {
    seq(|o|, i requires 0 <= i < |o| => o[i].0)
  }

  function Values<V>(o: Obj<V>): (r: seq<V>)
    ensures |r| == |o|
    ensures forall i :: 0 <= i < |o| ==> r[i] == o[i].1
  {
    seq(|o|, i requires 0 <= i < |o| => o[i].1)
  }

  predicate HasKey<V>(o: Obj<V>, k: string)
  {
    exists i :: 0 <= i < |o| && o[i].0 == k
  }

  /** Position of the property named `k`, if the object has one. */
  function IndexOfKey<V>(o: Obj<V>, k: string): (r: Option<nat>)
    ensures r.None? ==> forall j :: 0 <= j < |o| ==> o[j].0 != k
    ensures r.Some? ==> r.value < |o| && o[r.value].0 == k
    ensures r.Some? ==> forall j :: 0 <= j < r.value ==> o[j].0 != k
  {
    if |o| == 0 then None
    else if o[0].0 == k then Some(0)
    else match IndexOfKey(o[1..], k)
      case None => None
      case Some(i) => Some(i + 1)
  }

  /** The position of a name depends only on the names, and is the first one that matches. */
  lemma {:induction false} IndexOfKeyIs<V>(o: Obj<V>, k: string, i: nat)
    requires i < |o| && o[i].0 == k
    requires forall j :: 0 <= j < i ==> o[j].0 != k
    ensures IndexOfKey(o, k) == Some(i)
  {
    var r := IndexOfKey(o, k);
    assert r.Some?;
    assert o[r.value].0 == k;
  }

  lemma {:induction false} IndexOfKeySameKeys<V>(a: Obj<V>, b: Obj<V>, k: string)
    requires Keys(a) == Keys(b)
    ensures IndexOfKey(a, k) == IndexOfKey(b, k)
  {
    assert forall j :: 0 <= j < |a| ==> a[j].0 == Keys(a)[j] == b[j].0;
    match IndexOfKey(a, k)
    case None =>
    case Some(i) => IndexOfKeyIs(b, k, i);
  }

  lemma {:induction false} IndexOfKeyAppend<V>(o: Obj<V>, p: (string, V), k: string)
    requires p.0 != k
    ensures IndexOfKey(o + [p], k) == IndexOfKey(o, k)
  {
    match IndexOfKey(o, k)
    case None =>
    case Some(i) => IndexOfKeyIs(o + [p], k, i);
  }

  /** Property read `o[k]`, with `None` for `undefined`. */
  function Get<V>(o: Obj<V>, k: string): (r: Option<V>)
    ensures r.None? <==> !HasKey(o, k)
    ensures r.Some? ==> exists i :: 0 <= i < |o| && o[i] == (k, r.value)
  {
    match IndexOfKey(o, k)
    case None => None
    case Some(i) => assert o[i] == (k, o[i].1); Some(o[i].1)
  }

  /** The value of the LAST pair named `k`: what a sequence of assignments leaves behind. */
  function LastWith<V>(ps: seq<(string, V)>, k: string): Option<V>
  {
    if |ps| == 0 then None
    else if ps[|ps| - 1].0 == k then Some(ps[|ps| - 1].1)
    else LastWith(ps[..|ps| - 1], k)
  }

  /** The last value a sequence of assignments gives a name comes from the later part when
      the later part assigns it at all. */
  lemma {:induction false} LastWithAppend<V>(a: seq<(string, V)>, b: seq<(string, V)>, k: string)
    ensures LastWith(a + b, k) == if LastWith(b, k).Some? then LastWith(b, k) else LastWith(a, k)
    decreases |b|
  {
    if |b| == 0 {
      assert a + b == a;
    } else {
      assert (a + b)[..|a + b| - 1] == a + b[..|b| - 1];
      assert (a + b)[|a + b| - 1] == b[|b| - 1];
      LastWithAppend(a, b[..|b| - 1], k);
    }
  }

  /** A name no pair assigns has no value. */
  lemma {:induction false} LastWithAbsent<V>(ps: seq<(string, V)>, k: string)
    requires forall i :: 0 <= i < |ps| ==> ps[i].0 != k
    ensures LastWith(ps, k).None?
    decreases |ps|
  {
    if |ps| > 0 {
      LastWithAbsent(ps[..|ps| - 1], k);
    }
  }

  /** Property assignment `o[k] = v`: an existing property keeps its place, a new one goes last. */
  function Put<V>(o: Obj<V>, k: string, v: V): (r: Obj<V>)
    ensures Get(r, k) == Some(v)
    ensures forall k' :: k' != k ==> Get(r, k') == Get(o, k')
    ensures HasKey(o, k) ==> Keys(r) == Keys(o)
    ensures !HasKey(o, k) ==> r == o + [(k, v)]
    ensures DistinctKeys(o) ==> DistinctKeys(r)
    ensures forall i :: 0 <= i < |r| ==> r[i] in o || r[i] == (k, v)
  {
    match IndexOfKey(o, k)
    case Some(i) =>
      var r := o[i := (k, v)];
      assert Keys(r) == Keys(o);
      PutExistingReads(o, k, v, i);
      r
    case None =>
      var r := o + [(k, v)];
      PutNewReads(o, k, v);
      r
  }

  lemma {:induction false} PutExistingReads<V>(o: Obj<V>, k: string, v: V, i: nat)
    requires IndexOfKey(o, k) == Some(i)
    ensures Get(o[i := (k, v)], k) == Some(v)
    ensures forall k' :: k' != k ==> Get(o[i := (k, v)], k') == Get(o, k')
  {
    var r := o[i := (k, v)];
    assert Keys(r) == Keys(o);
    IndexOfKeySameKeys(r, o, k);
    forall k' | k' != k ensures Get(r, k') == Get(o, k') {
      IndexOfKeySameKeys(r, o, k');
    }
  }

  lemma {:induction false} PutNewReads<V>(o: Obj<V>, k: string, v: V)
    requires IndexOfKey(o, k) == None
    ensures Get(o + [(k, v)], k) == Some(v)
    ensures forall k' :: k' != k ==> Get(o + [(k, v)], k') == Get(o, k')
    ensures DistinctKeys(o) ==> DistinctKeys(o + [(k, v)])
  {
    var r := o + [(k, v)];
    IndexOfKeyIs(r, k, |o|);
    forall k' | k' != k ensures Get(r, k') == Get(o, k') {
      IndexOfKeyAppend(o, (k, v), k');
    }
  }

  /** The spread `{...a, ...ps}`: each pair of `ps` assigned in order onto `a`.
      A name in `ps` takes its last value there; every other name keeps its value in `a`. */
  function Spread<V>(a: Obj<V>, ps: seq<(string, V)>): (r: Obj<V>)
    ensures forall k :: Get(r, k) == (if LastWith(ps, k).Some? then LastWith(ps, k) else Get(a, k))
    ensures DistinctKeys(a) ==> DistinctKeys(r)
    ensures forall i :: 0 <= i < |r| ==> r[i] in a || r[i] in ps
  {
    if |ps| == 0 then a
    else
      var last := ps[|ps| - 1];
      Put(Spread(a, ps[..|ps| - 1]), last.0, last.1)
  }

  /** An object built by assigning `ps` in order onto `{}`. */
  function FromPairs<V>(ps: seq<(string, V)>): (r: Obj<V>)
    ensures DistinctKeys(r)
    ensures forall k :: Get(r, k) == LastWith(ps, k)
    ensures forall i :: 0 <= i < |r| ==> r[i] in ps
  {
    Spread([], ps)
  }

  /** Assigning pairs with distinct names onto `{}` rebuilds exactly those pairs, in order. */
  lemma {:induction false} FromDistinctPairs<V>(ps: seq<(string, V)>)
    requires DistinctKeys(ps)
    ensures FromPairs(ps) == ps
    decreases |ps|
  {
    if |ps| > 0 {
      var init := ps[..|ps| - 1];
      var last := ps[|ps| - 1];
      assert DistinctKeys(init);
      FromDistinctPairs(init);
      forall i | 0 <= i < |init| ensures init[i].0 != last.0 {
        assert init[i] == ps[i];
      }
      assert init + [last] == ps;
    }
  }
}
