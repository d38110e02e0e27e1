/** Small generic helpers. */
module Wrappers {
  datatype Option<+T> = None | Some(value: T)
  datatype Result<+T, +E> = Success(value: T) | Failure(error: E)

  lemma SubsetSize<T>(a: set<T>, b: set<T>)
    requires a <= b
    ensures |a| <= |b| && (|a| == |b| ==> a == b)
  {
    assert b == a + (b - a);
  }

  /** `picked` are the elements at the positions `at`, in their order. */
  ghost predicate Picks<T>(all: seq<T>, at: seq<nat>, picked: seq<T>) {
    && |at| == |picked|
    && (forall k :: 0 <= k < |at| ==> at[k] < |all| && picked[k] == all[at[k]])
    && (forall j, k :: 0 <= j < k < |at| ==> at[j] < at[k])
  }

  lemma PicksPrepend<T>(x: T, all: seq<T>, at: seq<nat>, picked: seq<T>, keep: bool) returns (at': seq<nat>)
    requires Picks(all, at, picked)
    ensures Picks([x] + all, at', (if keep then [x] else []) + picked)
    ensures forall i :: i in at' <==> (i == 0 && keep) || (i > 0 && i - 1 in at)
  {
    var moved := seq(|at|, k requires 0 <= k < |at| => at[k] + 1);
    assert forall i :: i in moved <==> i > 0 && i - 1 in at by {
      forall i | i in at ensures i + 1 in moved {
        var k :| 0 <= k < |at| && at[k] == i;
        assert moved[k] == i + 1;
      }
    }
    at' := (if keep then [0] else []) + moved;
  }

  lemma PicksAppend<T>(all: seq<T>, x: T, at: seq<nat>, picked: seq<T>, keep: bool) returns (at': seq<nat>)
    requires Picks(all, at, picked)
    ensures Picks(all + [x], at', picked + (if keep then [x] else []))
    ensures forall i :: i in at' <==> i in at || (i == |all| && keep)
  {
    at' := at + (if keep then [|all|] else []);
  }
}
