/** Machines that consume a sequence one element at a time and emit output as they go. */
module Transducers {

  /** The state after `ts`. */
  function FoldState<R, T, S>(step: (R, T) -> (R, seq<S>), r: R, ts: seq<T>): R {
    if ts == [] then r else step(FoldState(step, r, ts[..|ts| - 1]), ts[|ts| - 1]).0
  }

  /** The output for `ts`. */
  function FoldOut<R, T, S>(step: (R, T) -> (R, seq<S>), r: R, ts: seq<T>): seq<S> {
    if ts == [] then []
    else FoldOut(step, r, ts[..|ts| - 1]) + step(FoldState(step, r, ts[..|ts| - 1]), ts[|ts| - 1]).1
  }

  lemma FoldExtends<R, T, S>(step: (R, T) -> (R, seq<S>), r: R, ts: seq<T>, i: nat)
    requires i < |ts|
    ensures FoldState(step, r, ts[..i + 1]) == step(FoldState(step, r, ts[..i]), ts[i]).0
    ensures FoldOut(step, r, ts[..i + 1]) == FoldOut(step, r, ts[..i]) + step(FoldState(step, r, ts[..i]), ts[i]).1
  {
    assert ts[..i + 1][..i] == ts[..i];
  }

  lemma {:induction false} FoldConcat<R, T, S>(step: (R, T) -> (R, seq<S>), r: R, a: seq<T>, b: seq<T>)
    ensures FoldState(step, r, a + b) == FoldState(step, FoldState(step, r, a), b)
    ensures FoldOut(step, r, a + b) == FoldOut(step, r, a) + FoldOut(step, FoldState(step, r, a), b)
    decreases |b|
  {
    if b == [] {
      assert a + b == a;
    } else {
      assert (a + b)[..|a + b| - 1] == a + b[..|b| - 1];
      FoldConcat(step, r, a, b[..|b| - 1]);
    }
  }

  lemma FoldOne<R, T, S>(step: (R, T) -> (R, seq<S>), r: R, t: T)
    ensures FoldState(step, r, [t]) == step(r, t).0 && FoldOut(step, r, [t]) == step(r, t).1
    ensures FoldState(step, r, []) == r && FoldOut(step, r, []) == []
  {
    var none: seq<T> := [];
    assert [t][..0] == none;
    assert FoldState(step, r, none) == r && FoldOut(step, r, none) == [];
  }

  /** Reading elements that produce nothing and then one more. */
  lemma FoldThen<R, T, S>(step: (R, T) -> (R, seq<S>), r: R, quiet: seq<T>, mid: R, t: T)
    requires FoldState(step, r, quiet) == mid && FoldOut(step, r, quiet) == []
    ensures FoldState(step, r, quiet + [t]) == step(mid, t).0 && FoldOut(step, r, quiet + [t]) == step(mid, t).1
  {
    FoldConcat(step, r, quiet, [t]);
    FoldOne(step, mid, t);
  }

  function Image<L, O>(f: L -> O, ls: seq<L>): (r: seq<O>)
    ensures |r| == |ls| && forall i :: 0 <= i < |ls| ==> r[i] == f(ls[i])
  {
    seq(|ls|, i requires 0 <= i < |ls| => f(ls[i]))
  }

  lemma ReadsOneMore<T, R, O>(read: (R, T) -> (R, seq<O>), r: R, out: seq<T>, more: seq<T>, done: seq<O>, o: O)
    requires FoldOut(read, r, out) == done && FoldOut(read, FoldState(read, r, out), more) == [o]
    ensures FoldOut(read, r, out + more) == done + [o]
    ensures FoldState(read, r, out + more) == FoldState(read, FoldState(read, r, out), more)
  {
    FoldConcat(read, r, out, more);
  }

  /** One input: the relation survives, and the reader gets exactly the input's meaning from its output. */
  predicate Follows<W, L, T, R, O(==)>(
    write: (W, L) -> (W, seq<T>), read: (R, T) -> (R, seq<O>), meaning: L -> O, agree: (W, R) -> bool, w: W, r: R, l: L)
  {
    agree(w, r) ==>
      agree(write(w, l).0, FoldState(read, r, write(w, l).1)) && FoldOut(read, r, write(w, l).1) == [meaning(l)]
  }

  lemma FoldNone<R, T, S>(step: (R, T) -> (R, seq<S>), r: R)
    ensures FoldState(step, r, []) == r && FoldOut(step, r, []) == []
  {
  }

  /** If the reader follows the writer on every single input, it does so on whole sequences. */
  lemma {:induction false} ReaderFollowsWriter<W(!new), L(!new), T, R(!new), O>(
    write: (W, L) -> (W, seq<T>), read: (R, T) -> (R, seq<O>), meaning: L -> O, agree: (W, R) -> bool,
    w: W, r: R, ls: seq<L>)
    requires agree(w, r)
    requires forall v, q, l :: Follows(write, read, meaning, agree, v, q, l)
    ensures agree(FoldState(write, w, ls), FoldState(read, r, FoldOut(write, w, ls)))
    ensures FoldOut(read, r, FoldOut(write, w, ls)) == Image(meaning, ls)
    decreases |ls|
  {
    if ls == [] {
      FoldNone(read, r);
    } else {
      var n := |ls| - 1;
      ReaderFollowsWriter(write, read, meaning, agree, w, r, ls[..n]);
      var v, out := FoldState(write, w, ls[..n]), FoldOut(write, w, ls[..n]);
      assert Follows(write, read, meaning, agree, v, FoldState(read, r, out), ls[n]);
      ReadsOneMore(read, r, out, write(v, ls[n]).1, Image(meaning, ls[..n]), meaning(ls[n]));
      assert Image(meaning, ls) == Image(meaning, ls[..n]) + [meaning(ls[n])];
    }
  }
}
