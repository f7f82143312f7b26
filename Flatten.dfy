/**
 * Concatenating what each element of a sequence contributes, in order: the shape of Python's
 * `for x in xs: out.extend(f(x))` and of `[y for x in xs for y in f(x)]`.
 */
module Flatten {
  import opened Options

  /** The contributions of the first k elements of `xs`, one after the other. */
  function FlatTo<T, U>(xs: seq<T>, f: T -> seq<U>, k: nat): seq<U>
    requires k <= |xs|
  {
    if k == 0 then [] else FlatTo(xs, f, k - 1) + f(xs[k - 1])
  }

  function Flat<T, U>(xs: seq<T>, f: T -> seq<U>): seq<U> {
    FlatTo(xs, f, |xs|)
  }

  lemma {:induction false} FlatToPrefix<T, U>(xs: seq<T>, ys: seq<T>, f: T -> seq<U>, k: nat)
    requires k <= |xs|
    ensures FlatTo(xs + ys, f, k) == FlatTo(xs, f, k)
  {
    if k > 0 {
      FlatToPrefix(xs, ys, f, k - 1);
      assert (xs + ys)[k - 1] == xs[k - 1];
    }
  }

  lemma {:induction false} FlatToAppend<T, U>(xs: seq<T>, ys: seq<T>, f: T -> seq<U>, j: nat)
    requires j <= |ys|
    ensures FlatTo(xs + ys, f, |xs| + j) == Flat(xs, f) + FlatTo(ys, f, j)
  {
    if j == 0 {
      FlatToPrefix(xs, ys, f, |xs|);
    } else {
      var a, b, c := Flat(xs, f), FlatTo(ys, f, j - 1), f(ys[j - 1]);
      assert (xs + ys)[|xs| + j - 1] == ys[j - 1];
      calc {
        FlatTo(xs + ys, f, |xs| + j);
        FlatTo(xs + ys, f, |xs| + j - 1) + c;
        { FlatToAppend(xs, ys, f, j - 1); }
        (a + b) + c;
        a + (b + c);
      }
    }
  }

  /** Two runs of elements, one after the other, contribute the two runs' contributions in order. */
  lemma FlatAppend<T, U>(xs: seq<T>, ys: seq<T>, f: T -> seq<U>)
    ensures Flat(xs + ys, f) == Flat(xs, f) + Flat(ys, f)
  {
    FlatToAppend(xs, ys, f, |ys|);
  }

  /** One more element contributes its own part at the end. */
  lemma FlatSnoc<T, U>(xs: seq<T>, x: T, f: T -> seq<U>)
    ensures Flat(xs + [x], f) == Flat(xs, f) + f(x)
  {
    FlatToPrefix(xs, [x], f, |xs|);
    assert (xs + [x])[|xs|] == x;
  }

  /** A value is contributed by the first k elements exactly when one of them contributes it. */
  lemma {:induction false} FlatToMember<T, U>(xs: seq<T>, f: T -> seq<U>, k: nat, u: U)
    requires k <= |xs|
    ensures u in FlatTo(xs, f, k) <==> exists i :: 0 <= i < k && u in f(xs[i])
  {
    if k > 0 {
      FlatToMember(xs, f, k - 1, u);
      if u in f(xs[k - 1]) {
        assert exists i :: 0 <= i < k && u in f(xs[i]);
      }
    }
  }

  lemma FlatMember<T, U>(xs: seq<T>, f: T -> seq<U>, u: U)
    ensures u in Flat(xs, f) <==> exists i :: 0 <= i < |xs| && u in f(xs[i])
  {
    FlatToMember(xs, f, |xs|, u);
  }

  /** Every contributed value has property p when every element's contribution has it. */
  lemma {:induction false} FlatToAll<T, U>(xs: seq<T>, f: T -> seq<U>, k: nat, p: U -> bool)
    requires k <= |xs|
    requires forall i, c :: 0 <= i < k && 0 <= c < |f(xs[i])| ==> p(f(xs[i])[c])
    ensures forall c :: 0 <= c < |FlatTo(xs, f, k)| ==> p(FlatTo(xs, f, k)[c])
  {
    if k > 0 {
      FlatToAll(xs, f, k - 1, p);
      var a, b := FlatTo(xs, f, k - 1), f(xs[k - 1]);
      forall c | 0 <= c < |a + b|
        ensures p((a + b)[c])
      {
        if c >= |a| {
          assert (a + b)[c] == b[c - |a|];
        }
      }
    }
  }

  /** Nothing is contributed by the first k elements only when none of them contributes anything. */
  lemma {:induction false} FlatToEmpty<T, U>(xs: seq<T>, f: T -> seq<U>, k: nat, j: nat)
    requires j < k <= |xs| && |FlatTo(xs, f, k)| == 0
    ensures |f(xs[j])| == 0
  {
    if j < k - 1 {
      FlatToEmpty(xs, f, k - 1, j);
    }
  }

  /** The first contributed value comes from the first element that contributes anything. */
  lemma {:induction false} FlatToFirst<T, U>(xs: seq<T>, f: T -> seq<U>, k: nat) returns (i: nat)
    requires k <= |xs| && |FlatTo(xs, f, k)| > 0
    ensures i < k && |f(xs[i])| > 0 && FlatTo(xs, f, k)[0] == f(xs[i])[0]
    ensures forall j :: 0 <= j < i ==> |f(xs[j])| == 0
  {
    var a, b := FlatTo(xs, f, k - 1), f(xs[k - 1]);
    if |a| > 0 {
      i := FlatToFirst(xs, f, k - 1);
      assert (a + b)[0] == a[0];
    } else {
      i := k - 1;
      forall j | 0 <= j < i
        ensures |f(xs[j])| == 0
      {
        FlatToEmpty(xs, f, k - 1, j);
      }
      assert (a + b)[0] == b[0];
    }
  }

  /**
   * The same loop when f(x) may raise instead (None): the rows of the first k elements, or
   * None once one of them has raised, since nothing in the loop catches it.
   */
  function FlatAllTo<T, U>(xs: seq<T>, f: T -> Option<seq<U>>, k: nat): Option<seq<U>>
    requires k <= |xs|
  {
    if k == 0 then Some([])
    else
      match FlatAllTo(xs, f, k - 1)
      case None => None
      case Some(a) =>
        match f(xs[k - 1])
        case None => None
        case Some(b) => Some(a + b)
  }

  function FlatAll<T, U>(xs: seq<T>, f: T -> Option<seq<U>>): Option<seq<U>> {
    FlatAllTo(xs, f, |xs|)
  }

  /** The loop raises exactly when one of its elements raises. */
  lemma {:induction false} FlatAllToNone<T, U>(xs: seq<T>, f: T -> Option<seq<U>>, k: nat)
    requires k <= |xs|
    ensures FlatAllTo(xs, f, k).None? <==> exists i :: 0 <= i < k && f(xs[i]).None?
  {
    if k > 0 {
      FlatAllToNone(xs, f, k - 1);
      if f(xs[k - 1]).None? {
        assert exists i :: 0 <= i < k && f(xs[i]).None?;
      }
    }
  }

  /** When the loop does not raise, a value is in its result exactly when some element contributes it. */
  lemma {:induction false} FlatAllToMember<T, U>(xs: seq<T>, f: T -> Option<seq<U>>, k: nat, u: U)
    requires k <= |xs| && FlatAllTo(xs, f, k).Some?
    ensures u in FlatAllTo(xs, f, k).value <==> exists i :: 0 <= i < k && f(xs[i]).Some? && u in f(xs[i]).value
  {
    if k > 0 {
      FlatAllToMember(xs, f, k - 1, u);
      if u in f(xs[k - 1]).value {
        assert exists i :: 0 <= i < k && f(xs[i]).Some? && u in f(xs[i]).value;
      }
    }
  }

  /** Once an element has raised, the loop's outcome stays None. */
  lemma {:induction false} FlatAllToStaysRaised<T, U>(xs: seq<T>, f: T -> Option<seq<U>>, k: nat, n: nat)
    requires k <= n <= |xs| && FlatAllTo(xs, f, k).None?
    ensures FlatAllTo(xs, f, n).None?
  {
    if k < n {
      FlatAllToStaysRaised(xs, f, k, n - 1);
    }
  }

  /** One more element that does not raise adds its rows at the end. */
  lemma FlatAllToStep<T, U>(xs: seq<T>, f: T -> Option<seq<U>>, k: nat, a: seq<U>, b: seq<U>)
    requires k < |xs| && FlatAllTo(xs, f, k) == Some(a) && f(xs[k]) == Some(b)
    ensures FlatAllTo(xs, f, k + 1) == Some(a + b)
  {
  }

  /** One element that raises makes the whole loop raise. */
  lemma FlatAllRaised<T, U>(xs: seq<T>, f: T -> Option<seq<U>>, k: nat)
    requires k < |xs| && f(xs[k]).None?
    ensures FlatAll(xs, f).None?
  {
    FlatAllToStaysRaised(xs, f, k + 1, |xs|);
  }
}
