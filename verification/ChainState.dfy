/**
 daemon/internal/chain/state.go: the in-memory tail of one chain behind a mutex.

 Two things about the mutex are proof obligations here that the Go code would only meet by
 blocking or panicking: `Lock` is called only when the caller does not already hold the mutex,
 and `Unlock` only when it is held. `unlocks` counts the releases.
 */
module ChainState {
  import opened Receipts

  /** What the next allocation will hand out. */
  datatype ChainView = ChainView(nextSeq: nat, prev: Option<Hash>)

  /** The view that agrees with a stored chain. */
  function TailView(c: Chain): ChainView {
    ChainView(|c| + 1, TailHash(c))
  }

  function Advanced(sequence: nat, newHash: Hash): ChainView {
    ChainView(sequence + 1, Some(newHash))
  }

  /** What LoadFromStore builds: it looks at the highest-sequence receipt only. */
  function LoadedView(c: Chain): ChainView {
    if c == [] then TailView([]) else Advanced(c[|c| - 1].sequence, HashOf(c[|c| - 1]))
  }

  lemma LoadedIsTail(c: Chain, id: string)
    requires Linked(c, id)
    ensures LoadedView(c) == TailView(c)
  {
    if c != [] {
      LinkedAt(c, id, |c| - 1);
    }
  }

  /** Committing the receipt that was just appended makes the view agree with the longer chain. */
  lemma AdvancedIsTail(c: Chain, id: string, r: Receipt)
    requires Continues(c, id, r)
    ensures Advanced(r.sequence, HashOf(r)) == TailView(c + [r])
  {
  }

  /** One reservation seen from outside: the chain view, the mutex, and the shared sync.Once. */
  datatype Slot = Slot(view: ChainView, locked: bool, released: bool, unlocks: nat)

  datatype ReleaseOp = CommitOp(newHash: Hash) | RollbackOp

  /** What Commit and Rollback do; both go through the same Once. */
  function Release(s: Slot, sequence: nat, op: ReleaseOp): Slot {
    if s.released then s
    else match op
      case CommitOp(h) => Slot(Advanced(sequence, h), false, true, s.unlocks + 1)
      case RollbackOp => s.(locked := false, released := true, unlocks := s.unlocks + 1)
  }

  function ReleaseAll(s: Slot, sequence: nat, ops: seq<ReleaseOp>): Slot
    decreases |ops|
  {
    if ops == [] then s else ReleaseAll(Release(s, sequence, ops[0]), sequence, ops[1..])
  }

  /**
   Whatever mixture of Commit and (deferred) Rollback calls follows an allocation, the first one
   decides and the mutex is released exactly once.
   */
  lemma {:induction false} FirstReleaseWins(s: Slot, sequence: nat, ops: seq<ReleaseOp>)
    requires !s.released && ops != []
    ensures ReleaseAll(s, sequence, ops) == Release(s, sequence, ops[0])
    ensures ReleaseAll(s, sequence, ops).unlocks == s.unlocks + 1 && !ReleaseAll(s, sequence, ops).locked
  {
    ReleasedIsFinal(Release(s, sequence, ops[0]), sequence, ops[1..]);
  }

  lemma {:induction false} ReleasedIsFinal(s: Slot, sequence: nat, ops: seq<ReleaseOp>)
    requires s.released
    ensures ReleaseAll(s, sequence, ops) == s
    decreases |ops|
  {
    if ops != [] {
      ReleasedIsFinal(s, sequence, ops[1..]);
    }
  }

  /** sync.Once, as far as `Do` is used here. */
  class Once {
    var done: bool

    constructor ()
      ensures !done
    {
      done := false;
    }
  }

  class State {
    const chainId: string
    var nextSeq: nat
    var prevHash: Option<Hash>
    var locked: bool
    ghost var unlocks: nat

    /** Resumes from a stored tail; `found` is false for a chain without receipts. */
    constructor NewFromTail(chainId: string, tailSeq: nat, tailHash: Option<Hash>, found: bool)
      requires found ==> tailHash.Some?
      ensures this.chainId == chainId && !locked && unlocks == 0
      ensures View() == if found then Advanced(tailSeq, tailHash.value) else TailView([])
    {
      this.chainId := chainId;
      locked, unlocks := false, 0;
      if found {
        nextSeq, prevHash := tailSeq + 1, tailHash;
      } else {
        nextSeq, prevHash := 1, None;
      }
    }

    function View(): ChainView
      reads this
    {
      ChainView(nextSeq, prevHash)
    }

    method Lock()
      requires !locked
      modifies this`locked
      ensures locked
    {
      locked := true;
    }

    method Unlock()
      requires locked
      modifies this`locked, this`unlocks
      ensures !locked && unlocks == old(unlocks) + 1
    {
      locked := false;
      unlocks := unlocks + 1;
    }

    method NextSeq() returns (n: nat)
      requires !locked
      modifies this`locked, this`unlocks
      ensures n == nextSeq && !locked && unlocks == old(unlocks) + 1
    {
      Lock();
      n := nextSeq;
      Unlock();
    }

    method Allocate() returns (a: Allocation)
      requires !locked
      modifies this`locked
      ensures locked && a.state == this && fresh(a.release) && a.Open()
      ensures ChainView(a.sequence, a.prevHash) == View()
    {
      Lock();
      var once := new Once();
      a := Allocation(this, nextSeq, prevHash, once);
    }

    method AllocatePair() returns (p: PairAlloc)
      requires !locked
      modifies this`locked
      ensures locked && p.state == this && fresh(p.release) && p.Open()
      ensures ChainView(p.firstSeq, p.firstPrev) == View()
    {
      Lock();
      var once := new Once();
      p := PairAlloc(this, nextSeq, prevHash, once);
    }
  }

  /** A reservation of one slot. A value: copies share the State and the Once. */
  datatype Allocation = Allocation(state: State, sequence: nat, prevHash: Option<Hash>, release: Once)
  {
    ghost predicate Open()
      reads state, release
    {
      !release.done && state.locked
    }

    ghost function Outside(): Slot
      reads state, release
    {
      Slot(state.View(), state.locked, release.done, state.unlocks)
    }

    method Commit(newHash: Hash)
      requires release.done || state.locked
      modifies state, release
      ensures Outside() == Release(old(Outside()), sequence, CommitOp(newHash))
    {
      if !release.done {
        state.nextSeq := sequence + 1;
        state.prevHash := Some(newHash);
        state.Unlock();
        release.done := true;
      }
    }

    method Rollback()
      requires release.done || state.locked
      modifies state, release
      ensures Outside() == Release(old(Outside()), sequence, RollbackOp)
    {
      if !release.done {
        state.Unlock();
        release.done := true;
      }
    }
  }

  /** A reservation of two consecutive slots under one acquisition of the mutex. */
  datatype PairAlloc = PairAlloc(state: State, firstSeq: nat, firstPrev: Option<Hash>, release: Once)
  {
    ghost predicate Open()
      reads state, release
    {
      !release.done && state.locked
    }

    ghost function Outside(): Slot
      reads state, release
    {
      Slot(state.View(), state.locked, release.done, state.unlocks)
    }

    /**
     Advances past the first slot and keeps the mutex: the second allocation shares the Once, so
     its Commit or Rollback is what releases, and the pair's own deferred Rollback is a no-op then.
     */
    method CommitFirst(firstHash: Hash) returns (second: Allocation)
      requires Open()
      modifies state
      ensures second == Allocation(state, firstSeq + 1, Some(firstHash), release) && second.Open()
      ensures Outside() == old(Outside()).(view := Advanced(firstSeq, firstHash))
    {
      state.nextSeq := firstSeq + 1;
      state.prevHash := Some(firstHash);
      second := Allocation(state, firstSeq + 1, Some(firstHash), release);
    }

    method Rollback()
      requires release.done || state.locked
      modifies state, release
      ensures Outside() == Release(old(Outside()), firstSeq, RollbackOp)
    {
      if !release.done {
        state.Unlock();
        release.done := true;
      }
    }
  }
}
