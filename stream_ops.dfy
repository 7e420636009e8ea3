/** Java's `stream.map(f).filter(Objects::nonNull).collect(toList())` where `f` may
    throw: elements are taken in order, `null` results are dropped, and the first
    exception ends the whole pipeline. */
module StreamOps {
  import opened Wrappers

  /** `xs.stream().map(f).filter(nonNull).collect(toList())`: `Ok(None)` is a `null`
      result and `Err` an exception thrown by `f`. */
  function MapFilter<T, U, E>(xs: seq<T>, f: T -> Result<Option<U>, E>): (r: Result<seq<U>, E>)
    ensures r.Ok? ==> |r.value| <= |xs|
  {
    if xs == [] then Ok([])
    else
      match f(xs[0])
      case Err(e) => Err(e)
      case Ok(o) =>
        match MapFilter(xs[1..], f)
        case Err(e) => Err(e)
        case Ok(rest) => Ok(if o.Some? then [o.value] + rest else rest)
  }

  /** A step that never yields `null`: `Ok(x)` becomes the item `x`. */
  function AsItem<U, E>(r: Result<U, E>): Result<Option<U>, E> {
    match r
    case Ok(x) => Ok(Some(x))
    case Err(e) => Err(e)
  }

  /** The pipeline completes exactly when no element throws. */
  lemma {:induction false} MapFilterOkIff<T, U, E>(xs: seq<T>, f: T -> Result<Option<U>, E>)
    ensures MapFilter(xs, f).Ok? <==> forall k :: 0 <= k < |xs| ==> f(xs[k]).Ok?
    decreases |xs|
  {
    if xs != [] {
      MapFilterOkIff(xs[1..], f);
      assert forall k :: 1 <= k < |xs| ==> xs[k] == xs[1..][k - 1];
    }
  }

  /** When the pipeline throws, the exception is the one of the first element
      that throws. */
  lemma {:induction false} MapFilterFirstError<T, U, E>(xs: seq<T>, f: T -> Result<Option<U>, E>)
    requires MapFilter(xs, f).Err?
    ensures exists k :: 0 <= k < |xs| && f(xs[k]) == Err(MapFilter(xs, f).error)
                        && forall j :: 0 <= j < k ==> f(xs[j]).Ok?
    decreases |xs|
  {
    if f(xs[0]).Err? {
      assert f(xs[0]) == Err(MapFilter(xs, f).error);
    } else {
      MapFilterFirstError(xs[1..], f);
      var k :| 0 <= k < |xs[1..]| && f(xs[1..][k]) == Err(MapFilter(xs[1..], f).error)
                && forall j :: 0 <= j < k ==> f(xs[1..][j]).Ok?;
      assert f(xs[k + 1]) == Err(MapFilter(xs, f).error);
      assert forall j :: 1 <= j < k + 1 ==> xs[j] == xs[1..][j - 1];
    }
  }

  /** When no element yields `null` or throws, the pipeline is a plain `map`: one
      item per element, in order. */
  lemma {:induction false} MapFilterKeepsAll<T, U, E>(xs: seq<T>, f: T -> Result<Option<U>, E>)
    requires forall k :: 0 <= k < |xs| ==> f(xs[k]).Ok? && f(xs[k]).value.Some?
    ensures MapFilter(xs, f).Ok? && |MapFilter(xs, f).value| == |xs|
    ensures forall k :: 0 <= k < |xs| ==> MapFilter(xs, f).value[k] == f(xs[k]).value.value
    decreases |xs|
  {
    if xs != [] {
      assert forall k :: 1 <= k < |xs| ==> xs[k] == xs[1..][k - 1];
      MapFilterKeepsAll(xs[1..], f);
    }
  }

  /** The pipeline over a concatenation: the first part's exception wins, then
      the second part's; otherwise the items of both parts, in order. */
  lemma {:induction false} MapFilterAppend<T, U, E>(xs: seq<T>, ys: seq<T>, f: T -> Result<Option<U>, E>)
    ensures MapFilter(xs + ys, f) ==
      match MapFilter(xs, f)
      case Err(e) => Err(e)
      case Ok(a) =>
        match MapFilter(ys, f)
        case Err(e) => Err(e)
        case Ok(b) => Ok(a + b)
    decreases |xs|
  {
    if xs == [] {
      assert xs + ys == ys;
      if MapFilter(ys, f).Ok? {
        assert [] + MapFilter(ys, f).value == MapFilter(ys, f).value;
      }
    } else {
      assert (xs + ys)[0] == xs[0];
      assert (xs + ys)[1..] == xs[1..] + ys;
      MapFilterAppend(xs[1..], ys, f);
      if f(xs[0]).Ok? && f(xs[0]).value.Some? && MapFilter(xs[1..], f).Ok? && MapFilter(ys, f).Ok? {
        var x, a, b := f(xs[0]).value.value, MapFilter(xs[1..], f).value, MapFilter(ys, f).value;
        assert [x] + (a + b) == ([x] + a) + b;
      }
    }
  }

  /** An element whose step yields `null` leaves no trace: removing it changes
      nothing. */
  lemma MapFilterDropped<T, U, E>(xs: seq<T>, x: T, ys: seq<T>, f: T -> Result<Option<U>, E>)
    requires f(x) == Ok(None)
    ensures MapFilter(xs + [x] + ys, f) == MapFilter(xs + ys, f)
  {
    MapFilterAppend(xs, [x] + ys, f);
    MapFilterAppend(xs, ys, f);
    assert xs + [x] + ys == xs + ([x] + ys);
    assert ([x] + ys)[1..] == ys;
  }

  /** The items are exactly the non-`null` results of the elements, when no
      element throws. */
  lemma {:induction false} MapFilterMembers<T, U, E>(xs: seq<T>, f: T -> Result<Option<U>, E>)
    requires MapFilter(xs, f).Ok?
    ensures forall u :: u in MapFilter(xs, f).value <==> exists k :: 0 <= k < |xs| && f(xs[k]) == Ok(Some(u))
    decreases |xs|
  {
    if xs != [] {
      MapFilterMembers(xs[1..], f);
      assert forall k :: 1 <= k < |xs| ==> xs[k] == xs[1..][k - 1];
      forall u | exists k :: 0 <= k < |xs| && f(xs[k]) == Ok(Some(u))
        ensures u in MapFilter(xs, f).value
      {
        var k :| 0 <= k < |xs| && f(xs[k]) == Ok(Some(u));
        if k > 0 {
          assert f(xs[1..][k - 1]) == Ok(Some(u));
        }
      }
    }
  }
}
