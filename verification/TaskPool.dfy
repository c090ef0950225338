/** The pool of RPC tasks (rpc_task_helper): a stack of free indices, the last of which are reserved. */
module TaskPool {
  import opened Options

  const MAX_OUTSTANDING_RPC_TASKS: nat := 65536
  const RESERVED_TASKS: nat := 1000

  ghost predicate NoDuplicates(s: seq<nat>) {
    forall i, j :: 0 <= i < j < |s| ==> s[i] != s[j]
  }

  /**
    Free indices and those handed out to regular and to reserved callers are the whole range, each
    once; what is free or in reserved hands never falls below the reserve.
   */
  ghost predicate Partitioned(free: seq<nat>, regular: set<nat>, reserved: set<nat>) {
    && NoDuplicates(free)
    && (forall x :: x in free ==> x !in regular && x !in reserved) && regular !! reserved
    && (forall x: nat :: x < MAX_OUTSTANDING_RPC_TASKS <==> x in free || x in regular || x in reserved)
    && RESERVED_TASKS <= |free| + |reserved|
  }

  /** A reserved caller finds the pool empty only if at least that many reserved tasks are out. */
  lemma EmptyMeansReserveInUse(free: seq<nat>, regular: set<nat>, reserved: set<nat>)
    requires Partitioned(free, regular, reserved) && |free| <= 0
    ensures RESERVED_TASKS <= |reserved|
    ensures forall x: nat :: x < MAX_OUTSTANDING_RPC_TASKS <==> x in regular || x in reserved
  {
  }

  lemma PopKeeps(free: seq<nat>, regular: set<nat>, reserved: set<nat>, useReserved: bool)
    requires Partitioned(free, regular, reserved)
    requires (if useReserved then 0 else RESERVED_TASKS) < |free|
    ensures var i, rest := free[|free| - 1], free[..|free| - 1];
            && i < MAX_OUTSTANDING_RPC_TASKS && i !in regular && i !in reserved
            && Partitioned(rest, if useReserved then regular else regular + {i},
                           if useReserved then reserved + {i} else reserved)
  {
    var i, rest := free[|free| - 1], free[..|free| - 1];
    assert i in free && i !in rest;
    forall x: nat ensures x in free <==> x in rest || x == i {
      assert free == rest + [i];
    }
  }

  lemma PushKeeps(free: seq<nat>, regular: set<nat>, reserved: set<nat>, i: nat)
    requires Partitioned(free, regular, reserved) && i in regular + reserved
    ensures Partitioned(free + [i], regular - {i}, reserved - {i})
  {
    assert i !in free;
    forall x: nat ensures x in free + [i] <==> x in free || x == i {}
    if i in reserved {
      assert |reserved - {i}| == |reserved| - 1;
    } else {
      assert reserved - {i} == reserved;
    }
  }

  class RpcTaskHelper {
    var freeTaskIndex: seq<nat>
    ghost var regular: set<nat>
    ghost var reserved: set<nat>

    ghost predicate Valid()
      reads this
    {
      Partitioned(freeTaskIndex, regular, reserved)
    }

    constructor ()
      ensures Valid() && regular == {} && reserved == {} && |freeTaskIndex| == MAX_OUTSTANDING_RPC_TASKS
    {
      var free: seq<nat> := [];
      var i: nat := 0;
      while i < MAX_OUTSTANDING_RPC_TASKS
        invariant i <= MAX_OUTSTANDING_RPC_TASKS && |free| == i
        invariant forall k :: 0 <= k < i ==> free[k] == k
      {
        free := free + [i];
        i := i + 1;
      }
      forall x: nat ensures x in free <==> x < MAX_OUTSTANDING_RPC_TASKS {
        if x < MAX_OUTSTANDING_RPC_TASKS { assert free[x] == x; }
      }
      freeTaskIndex, regular, reserved := free, {}, {};
    }

    /** get_free_idx(): an index nobody else has, or None where the caller would have to wait. */
    method GetFreeIdx(useReserved: bool) returns (r: Option<nat>)
      requires Valid()
      modifies this
      ensures Valid()
      ensures r.None? <==> |old(freeTaskIndex)| <= if useReserved then 0 else RESERVED_TASKS
      ensures r.None? && useReserved ==> RESERVED_TASKS <= |reserved|
      ensures r.None? ==> unchanged(this)
      ensures r.Some? ==>
                && r.value < MAX_OUTSTANDING_RPC_TASKS
                && r.value !in old(regular) && r.value !in old(reserved)
                && freeTaskIndex == old(freeTaskIndex)[..|old(freeTaskIndex)| - 1]
                && regular == (if useReserved then old(regular) else old(regular) + {r.value})
                && reserved == (if useReserved then old(reserved) + {r.value} else old(reserved))
    {
      hide Partitioned;
      var spareCount := if useReserved then 0 else RESERVED_TASKS;
      if |freeTaskIndex| <= spareCount {
        if useReserved { EmptyMeansReserveInUse(freeTaskIndex, regular, reserved); }
        return None;
      }
      PopKeeps(freeTaskIndex, regular, reserved, useReserved);
      var i := freeTaskIndex[|freeTaskIndex| - 1];
      freeTaskIndex := freeTaskIndex[..|freeTaskIndex| - 1];
      if useReserved {
        reserved := reserved + {i};
      } else {
        regular := regular + {i};
      }
      return Some(i);
    }

    /** release_free_index() */
    method ReleaseFreeIndex(i: nat)
      requires Valid() && i in regular + reserved
      modifies this
      ensures Valid() && freeTaskIndex == old(freeTaskIndex) + [i]
      ensures regular == old(regular) - {i} && reserved == old(reserved) - {i}
    {
      hide Partitioned;
      PushKeeps(freeTaskIndex, regular, reserved, i);
      freeTaskIndex := freeTaskIndex + [i];
      regular, reserved := regular - {i}, reserved - {i};
    }
  }
}
