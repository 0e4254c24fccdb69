/** The stamped disjoint-set successor structure of the reachability prepass (gear_optimizer/frontier/
    producer_kernels.py), and the per-thread workspace whose epochs keep it fresh (producer_reducer.py). */
module Successors {

  ghost predicate AllRemoved(stamps: seq<int>, epoch: int, start: int, end: int)
    requires 0 <= start && end <= |stamps|
  {
    forall j :: start <= j < end ==> stamps[j] == epoch
  }

  /** One epoch over the indices up to n: the successor of a removed index passes removed ones only, and n is live. */
  ghost predicate Valid(next: seq<int>, stamps: seq<int>, epoch: int, n: nat) {
    n < |next| && n < |stamps| && stamps[n] != epoch
    && forall i :: 0 <= i < n && stamps[i] == epoch ==> i < next[i] <= n && AllRemoved(stamps, epoch, i, next[i])
  }

  /** The least live index at or after another. */
  ghost predicate IsFirstLive(stamps: seq<int>, epoch: int, n: nat, index: int, root: int) {
    0 <= index <= root <= n < |stamps| && AllRemoved(stamps, epoch, index, root) && stamps[root] != epoch
  }

  lemma FirstLiveIsUnique(stamps: seq<int>, epoch: int, n: nat, index: int, root: int, root': int)
    requires IsFirstLive(stamps, epoch, n, index, root) && IsFirstLive(stamps, epoch, n, index, root')
    ensures root == root'
  {
  }

  /** Path compression leads every index passed straight to the root. */
  method Find(next: array<int>, stamps: array<int>, epoch: int, ghost n: nat, index: int) returns (root: int)
    requires next != stamps && Valid(next[..], stamps[..], epoch, n) && 0 <= index <= n
    modifies next
    ensures Valid(next[..], stamps[..], epoch, n)
    ensures IsFirstLive(stamps[..], epoch, n, index, root)
  {
    root := index;
    while stamps[root] == epoch
      invariant index <= root <= n && AllRemoved(stamps[..], epoch, index, root)
      decreases n - root
    {
      root := next[root];
    }
    var cursor := index;
    while stamps[cursor] == epoch
      invariant index <= cursor <= root && Valid(next[..], stamps[..], epoch, n)
      decreases root - cursor
    {
      var following := next[cursor];
      next[cursor] := root;
      cursor := following;
    }
  }

  method Remove(next: array<int>, stamps: array<int>, epoch: int, ghost n: nat, index: int) returns (following: int)
    requires next != stamps && Valid(next[..], stamps[..], epoch, n) && 0 <= index < n && stamps[index] != epoch
    modifies next, stamps
    ensures Valid(next[..], stamps[..], epoch, n) && stamps[..] == old(stamps[..])[index := epoch]
    ensures IsFirstLive(stamps[..], epoch, n, index + 1, following)
  {
    following := Find(next, stamps, epoch, n, index + 1);
    next[index] := following;
    stamps[index] := epoch;
  }

  /** The epochs of a workspace; the values under a stamp are never read before that stamp is written. */
  class Workspace {
    const perfect: array<int>
    const late: array<int>
    const perfectStamps: array<int>
    const lateStamps: array<int>
    var epoch: int

    /** Every stamp is zero or an epoch handed out since the last reset. */
    ghost predicate Valid()
      reads this, perfectStamps, lateStamps
    {
      && 0 <= epoch
      && (forall i :: 0 <= i < perfectStamps.Length ==> perfectStamps[i] <= epoch)
      && (forall i :: 0 <= i < lateStamps.Length ==> lateStamps[i] <= epoch)
    }

    constructor (capacity: nat)
      ensures Valid() && epoch == 0
      ensures perfect.Length == capacity && late.Length == capacity
      ensures perfectStamps.Length == capacity && lateStamps.Length == capacity
      ensures fresh(perfect) && fresh(late) && fresh(perfectStamps) && fresh(lateStamps)
      ensures perfect != late && perfect != perfectStamps && perfect != lateStamps
      ensures late != perfectStamps && late != lateStamps && perfectStamps != lateStamps
    {
      perfect := new int[capacity];
      late := new int[capacity];
      perfectStamps := new int[capacity](_ => 0);
      lateStamps := new int[capacity](_ => 0);
      epoch := 0;
    }

    /** The first of `count` epochs no stamp holds, none past the reset limit. */
    method ReserveEpochs(count: nat) returns (first: int)
      requires Valid() && count <= EPOCH_LIMIT && perfectStamps != lateStamps
      modifies this`epoch, perfectStamps, lateStamps
      ensures Valid() && 1 <= first && epoch == first + count - 1
      ensures old(epoch) <= EPOCH_LIMIT ==> epoch <= EPOCH_LIMIT
      ensures forall i :: 0 <= i < perfectStamps.Length ==> perfectStamps[i] < first
      ensures forall i :: 0 <= i < lateStamps.Length ==> lateStamps[i] < first
    {
      if epoch + count > EPOCH_LIMIT {
        forall i | 0 <= i < perfectStamps.Length { perfectStamps[i] := 0; }
        forall i | 0 <= i < lateStamps.Length { lateStamps[i] := 0; }
        epoch := 0;
      }
      first := epoch + 1;
      epoch := epoch + count;
    }
  }

  const EPOCH_LIMIT: int := 0x4000_0000

  lemma FreshEpoch(next: seq<int>, stamps: seq<int>, epoch: int, n: nat)
    requires n < |next| && n < |stamps| && forall i :: 0 <= i < |stamps| ==> stamps[i] < epoch
    ensures Valid(next, stamps, epoch, n)
  {
  }
}
