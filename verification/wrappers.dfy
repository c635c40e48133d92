/** Optional values and results shared by every module of the model. */
module Wrappers {

  /** A value that may be absent: JavaScript's `undefined` / `null` where the source tests for it. */
  datatype Option<+T> = None | Some(value: T) {
    function GetOr(default: T): T
    {
      match this
      case Some(v) => v
      case None => default
    }
  }

  /** The outcome of an operation that can fail with an error of type `E`. */
  datatype Result<+T, +E> = Ok(value: T) | Err(error: E)

  /** The present values, in order: `map` to an optional value, then `filter(Boolean)`. */
  function Somes<T>(xs: seq<Option<T>>): (r: seq<T>)
    ensures |r| <= |xs|
    ensures forall i :: 0 <= i < |r| ==> Some(r[i]) in xs
    ensures (forall i :: 0 <= i < |xs| ==> xs[i].Some?) ==> |r| == |xs|
  {
    if |xs| == 0 then []
    else
      var rest := Somes(xs[1..]);
      assert forall i :: 0 <= i < |rest| ==> Some(rest[i]) in xs by {
        forall i | 0 <= i < |rest| ensures Some(rest[i]) in xs {
          var j :| 0 <= j < |xs[1..]| && xs[1..][j] == Some(rest[i]);
          assert xs[j + 1] == Some(rest[i]);
        }
      }
      match xs[0]
      case None => rest
      case Some(x) => [x] + rest
  }

  /** Dropping the absent values of two parts is dropping them from each part in turn. */
  lemma {:induction false} SomesAppend<T>(xs: seq<Option<T>>, ys: seq<Option<T>>)
    ensures Somes(xs + ys) == Somes(xs) + Somes(ys)
    decreases |xs|
  {
    if |xs| == 0 {
      assert xs + ys == ys;
    } else {
      assert (xs + ys)[0] == xs[0] && (xs + ys)[1..] == xs[1..] + ys;
      SomesAppend(xs[1..], ys);
      match xs[0]
      case None =>
      case Some(x) =>
        assert [x] + (Somes(xs[1..]) + Somes(ys)) == ([x] + Somes(xs[1..])) + Somes(ys);
    }
  }

  /** When every value is present, nothing is dropped. */
  lemma {:induction false} SomesAll<T>(xs: seq<Option<T>>, ys: seq<T>)
    requires |xs| == |ys|
    requires forall i :: 0 <= i < |xs| ==> xs[i] == Some(ys[i])
    ensures Somes(xs) == ys
    decreases |xs|
  {
    if |xs| > 0 {
      SomesAll(xs[1..], ys[1..]);
      assert ys == [ys[0]] + ys[1..];
    }
  }
}
