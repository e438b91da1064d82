/**
 * Shapes of rank-D tensors: the per-axis maximum that the binary dispatcher
 * uses as the output shape, the element count of a shape, and the two
 * relations between shapes that broadcasting is about.
 */
module Shapes {

  /** `usize::max` on two dimension sizes. */
  function Max(a: nat, b: nat): nat
  {
    if a >= b then a else b
  }

  /**
   * The output shape of the out-of-place path: at every axis, the larger of
   * the two input dimension sizes.
   */
  function BroadcastShape(lhs: seq<nat>, rhs: seq<nat>): (out: seq<nat>)
    requires |lhs| == |rhs|
    ensures |out| == |lhs|
    ensures forall i :: 0 <= i < |out| ==> lhs[i] <= out[i] && rhs[i] <= out[i]
    ensures forall i :: 0 <= i < |out| ==> out[i] == lhs[i] || out[i] == rhs[i]
  {
    seq(|lhs|, i requires 0 <= i < |lhs| => Max(lhs[i], rhs[i]))
  }

  /** Number of elements of a shape: the product of its dimensions (1 for rank 0). */
  function NumElements(dims: seq<nat>): (n: nat)
    ensures n == 0 <==> exists i :: 0 <= i < |dims| && dims[i] == 0
  {
    if |dims| == 0 then 1
    else
      var rest := NumElements(dims[1..]);
      assert (exists i :: 0 <= i < |dims[1..]| && dims[1..][i] == 0) <==>
             (exists i :: 1 <= i < |dims| && dims[i] == 0) by {
        if exists i :: 1 <= i < |dims| && dims[i] == 0 {
          var i :| 1 <= i < |dims| && dims[i] == 0;
          assert dims[1..][i - 1] == 0;
        }
      }
      dims[0] * rest
  }

  /** `big` is at least as large as `small` along every axis. */
  predicate Dominates(big: seq<nat>, small: seq<nat>)
    requires |big| == |small|
  {
    forall i :: 0 <= i < |big| ==> small[i] <= big[i]
  }

  /** Standard broadcasting compatibility: per axis, equal sizes or one of them is 1. */
  predicate Compatible(lhs: seq<nat>, rhs: seq<nat>)
    requires |lhs| == |rhs|
  {
    forall i :: 0 <= i < |lhs| ==> lhs[i] == rhs[i] || lhs[i] == 1 || rhs[i] == 1
  }

  /** The per-axis maximum does not depend on the order of the operands. */
  lemma BroadcastCommutes(lhs: seq<nat>, rhs: seq<nat>)
    requires |lhs| == |rhs|
    ensures BroadcastShape(lhs, rhs) == BroadcastShape(rhs, lhs)
  {
  }

  /**
   * A tensor can host the result against another exactly when its shape
   * already is the broadcast shape: dominance and "broadcasting against the
   * other operand leaves my shape unchanged" are the same condition.
   */
  lemma DominatesIffBroadcastIsSelf(big: seq<nat>, small: seq<nat>)
    requires |big| == |small|
    ensures Dominates(big, small) <==> BroadcastShape(big, small) == big
  {
    var out := BroadcastShape(big, small);
    if out == big {
      forall i | 0 <= i < |big|
        ensures small[i] <= big[i]
      {
        assert out[i] == Max(big[i], small[i]);
      }
    }
    if Dominates(big, small) {
      forall i | 0 <= i < |big|
        ensures out[i] == big[i]
      {
        assert out[i] == Max(big[i], small[i]);
      }
    }
  }

  /**
   * For compatible shapes without empty axes the per-axis maximum is the
   * usual broadcast rule: a size-1 axis takes the other operand's size,
   * otherwise the sizes agree.
   */
  lemma BroadcastOfCompatible(lhs: seq<nat>, rhs: seq<nat>)
    requires |lhs| == |rhs| && Compatible(lhs, rhs)
    requires forall i :: 0 <= i < |lhs| ==> lhs[i] > 0 && rhs[i] > 0
    ensures forall i :: 0 <= i < |lhs| ==>
      BroadcastShape(lhs, rhs)[i] == (if lhs[i] == 1 then rhs[i] else lhs[i])
  {
    forall i | 0 <= i < |lhs|
      ensures BroadcastShape(lhs, rhs)[i] == (if lhs[i] == 1 then rhs[i] else lhs[i])
    {
      assert BroadcastShape(lhs, rhs)[i] == Max(lhs[i], rhs[i]);
    }
  }

  /**
   * An empty axis is not broadcast: against a size-1 axis the per-axis
   * maximum keeps 1, where the broadcasting rule gives 0.
   */
  lemma EmptyAxisKeepsOne()
    ensures Compatible([1], [0])
    ensures BroadcastShape([1], [0]) == [1]
  {
    assert BroadcastShape([1], [0])[0] == Max(1, 0);
  }

  /** Growing a shape along any axes never decreases its element count. */
  lemma {:induction false} NumElementsMonotone(big: seq<nat>, small: seq<nat>)
    requires |big| == |small| && Dominates(big, small)
    ensures NumElements(small) <= NumElements(big)
  {
    if |big| > 0 {
      NumElementsMonotone(big[1..], small[1..]);
      var s, b := NumElements(small[1..]), NumElements(big[1..]);
      assert small[0] * s <= small[0] * b by {
        MulLeftMonotone(small[0], s, b);
      }
      assert small[0] * b <= big[0] * b by {
        MulLeftMonotone(b, small[0], big[0]);
      }
    }
  }

  lemma MulLeftMonotone(k: nat, x: nat, y: nat)
    requires x <= y
    ensures k * x <= k * y && x * k <= y * k
  {
  }

  /** The out-of-place output holds at least as many elements as either input. */
  lemma BroadcastCoversInputs(lhs: seq<nat>, rhs: seq<nat>)
    requires |lhs| == |rhs|
    ensures NumElements(lhs) <= NumElements(BroadcastShape(lhs, rhs))
    ensures NumElements(rhs) <= NumElements(BroadcastShape(lhs, rhs))
  {
    NumElementsMonotone(BroadcastShape(lhs, rhs), lhs);
    NumElementsMonotone(BroadcastShape(lhs, rhs), rhs);
  }

}
