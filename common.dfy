/** Small building blocks shared by every module of the storefront model. */
module Common {

  /** JavaScript's `T | null` / `T | undefined`. */
  datatype Option<T> = None | Some(value: T) {

    /** `x ?? default`, and `x || default` when every present value is truthy. */
    function GetOr(default: T): T {
      match this
      case Some(v) => v
      case None => default
    }
  }

  /** What a failing asynchronous call rejects with: an `Error` (which has a
      message) or some other thrown value. */
  datatype Fault = ErrorThrown(message: string) | OtherThrown

  /** `error instanceof Error ? error.message : "An unknown error occurred"`,
      the message both server actions report. */
  function FaultMessage(f: Fault): string {
    match f
    case ErrorThrown(m) => m
    case OtherThrown => "An unknown error occurred"
  }

  /** `xs.filter(keep)`: the elements that pass, in their order. */
  function Filter<T>(xs: seq<T>, keep: T -> bool): (r: seq<T>)
    ensures |r| <= |xs|
    ensures forall x | x in r :: x in xs && keep(x)
    ensures forall x | x in xs && keep(x) :: x in r
    decreases |xs|
  {
    if |xs| == 0 then []
    else if keep(xs[0]) then [xs[0]] + Filter(xs[1..], keep)
    else
      assert forall x | x in xs && x != xs[0] :: x in xs[1..];
      Filter(xs[1..], keep)
  }

  /** `a` is `b` with some elements left out and the rest in the same order. */
  ghost predicate IsSublist<T>(a: seq<T>, b: seq<T>)
    decreases |b|
  {
    if |a| == 0 then true
    else if |b| == 0 then false
    else (a[0] == b[0] && IsSublist(a[1..], b[1..])) || IsSublist(a, b[1..])
  }

  /** Filtering keeps the order: its result is a sublist of the input. */
  lemma {:induction false} FilterSublist<T>(xs: seq<T>, keep: T -> bool)
    ensures IsSublist(Filter(xs, keep), xs)
    decreases |xs|
  {
    if |xs| > 0 {
      FilterSublist(xs[1..], keep);
      if keep(xs[0]) {
        assert Filter(xs, keep)[1..] == Filter(xs[1..], keep);
      }
    }
  }

  /** Two filters in a row are one filter with both tests. */
  lemma {:induction false} FilterFilter<T>(xs: seq<T>, f: T -> bool, g: T -> bool)
    ensures Filter(Filter(xs, f), g) == Filter(xs, x => f(x) && g(x))
    decreases |xs|
  {
    if |xs| > 0 {
      FilterFilter(xs[1..], f, g);
      if f(xs[0]) {
        assert Filter(xs, f)[1..] == Filter(xs[1..], f);
      }
    }
  }

  /** A filter that keeps everything is the identity. */
  lemma {:induction false} FilterAll<T>(xs: seq<T>, keep: T -> bool)
    requires forall x | x in xs :: keep(x)
    ensures Filter(xs, keep) == xs
    decreases |xs|
  {
    if |xs| > 0 {
      assert forall x | x in xs[1..] :: x in xs;
      FilterAll(xs[1..], keep);
    }
  }

  /** Leaving elements out twice is leaving elements out once. */
  lemma {:induction false} SublistTrans<T>(a: seq<T>, b: seq<T>, c: seq<T>)
    requires IsSublist(a, b) && IsSublist(b, c)
    ensures IsSublist(a, c)
    decreases |c|, |b|
  {
    if |a| > 0 && |c| > 0 {
      if |b| > 0 && b[0] == c[0] && IsSublist(b[1..], c[1..]) {
        if a[0] == b[0] && IsSublist(a[1..], b[1..]) {
          SublistTrans(a[1..], b[1..], c[1..]);
        } else {
          SublistTrans(a, b[1..], c[1..]);
        }
      } else {
        SublistTrans(a, b, c[1..]);
      }
    }
  }
}
