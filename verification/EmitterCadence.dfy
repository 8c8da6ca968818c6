/**
 When the checkpoint emitter marks a head, and when it gives one up: what each call does, told from
 the calls made before it and not from the emitter's own counters.
 */
module EmitterCadence {
  import opened Receipts
  import opened EmitterMachine
  import opened EmitterTheorems

  /** How often the chain has been observed since it was last flushed, `n` times before `steps`. */
  function ObservedSince(steps: seq<Step>, chain: string, n: nat): nat
    decreases |steps|
  {
    if steps == [] then n
    else
      var s := steps[0];
      ObservedSince(steps[1..], chain,
                    if s.FlushCall? && s.chain == chain then 0
                    else if s.ObserveCall? && s.chain == chain then n + 1
                    else n)
  }

  lemma CountStep(e: Emitter, s: Step, chain: string, n: nat)
    requires Enabled(e, s) && e.cadence >= 1 && Get(e.counts, chain) == n % e.cadence
    ensures var m := if s.FlushCall? && s.chain == chain then 0
                     else if s.ObserveCall? && s.chain == chain then n + 1 else n;
            Get(Next(e, s).counts, chain) == m % e.cadence && Next(e, s).cadence == e.cadence
  {
    if s.ObserveCall? {
      NextCount(n, e.cadence);
    } else if !s.FlushCall? {
      NoMark(e, s);
    }
  }

  lemma NextCount(n: nat, k: nat)
    requires k >= 1
    ensures (n + 1) % k == if n % k + 1 < k then n % k + 1 else 0
  {
    var q, r := n / k, n % k;
    if r + 1 < k {
      RemainderIs(n + 1, k, q, r + 1);
    } else {
      assert (q + 1) * k == q * k + k;
      RemainderIs(n + 1, k, q + 1, 0);
    }
  }

  lemma RemainderIs(m: nat, k: nat, q: nat, r: nat)
    requires k >= 1 && r < k && m == q * k + r
    ensures m % k == r
  {
    var d := m / k - q;
    assert m == (m / k) * k + m % k;
    assert d * k == (m / k) * k - q * k;
    if d >= 1 {
      Scaled(d, k);
      assert false;
    } else if d <= -1 {
      Scaled(-d, k);
      assert false;
    }
  }

  lemma Scaled(d: int, k: nat)
    requires d >= 1
    ensures d * k >= k && (-d) * k == -(d * k)
  {
  }

  lemma {:induction false} CountIs(e: Emitter, steps: seq<Step>, e': Emitter, chain: string, n: nat)
    requires Runs(e, steps, e') && e.cadence >= 1 && Get(e.counts, chain) == n % e.cadence
    ensures Get(e'.counts, chain) == ObservedSince(steps, chain, n) % e.cadence && e'.cadence == e.cadence
    decreases |steps|
  {
    if steps != [] {
      var s := steps[0];
      CountStep(e, s, chain, n);
      CountIs(Next(e, s), steps[1..], e', chain,
              if s.FlushCall? && s.chain == chain then 0
              else if s.ObserveCall? && s.chain == chain then n + 1 else n);
    }
  }

  /** The sequence number lies beyond every head of the chain that was marked before. */
  ghost predicate IsNew(e: Emitter, chain: string, sequence: nat) {
    sequence > 0 && forall i :: 0 <= i < |e.marked| && e.marked[i].Head? && e.marked[i].chain == chain ==>
                      e.marked[i].sequence < sequence
  }

  lemma NewIff(e: Emitter, chain: string, sequence: nat)
    requires MarksIncrease(e)
    ensures IsNew(e, chain, sequence) <==> sequence > Get(e.lastSeq, chain)
  {
    if Get(e.lastSeq, chain) > 0 {
      assert HasMark(e.marked, chain, Get(e.lastSeq, chain));
    }
  }

  /**
   An Observe call marks its head exactly if it completes a round of `cadence` observations of the chain since its
   last flush, a cadence of 0 counting as 1, and the head is new; otherwise it marks nothing.
   */
  lemma ObserveMarksIff(cadence: nat, depth: nat, steps: seq<Step>, e: Emitter, s: Step)
    requires Reached(cadence, depth, steps, e) && Enabled(e, s) && s.ObserveCall?
    ensures var n := ObservedSince(steps, s.chain, 0) + 1;
            var k := if cadence == 0 then 1 else cadence;
            Next(e, s).marked == if n % k == 0 && IsNew(e, s.chain, s.sequence)
                                 then e.marked + [Head(s.chain, s.sequence, s.hash)] else e.marked
  {
    ReachedInv(cadence, depth, steps, e);
    NewIff(e, s.chain, s.sequence);
    CountIs(NewEmitter(cadence, depth), steps, e, s.chain, 0);
    NextCount(ObservedSince(steps, s.chain, 0), e.cadence);
  }

  /** A Flush marks its head exactly if it is new, whatever the cadence. */
  lemma FlushMarksIff(cadence: nat, depth: nat, steps: seq<Step>, e: Emitter, s: Step)
    requires Reached(cadence, depth, steps, e) && Enabled(e, s) && s.FlushCall?
    ensures Next(e, s).marked == if IsNew(e, s.chain, s.sequence)
                                 then e.marked + [Head(s.chain, s.sequence, s.hash)] else e.marked
  {
    ReachedInv(cadence, depth, steps, e);
    NewIff(e, s.chain, s.sequence);
  }

  /** Only an Observe call drops its head, when the emitter is closed or the queue is full; a depth of 0 counts as 1. */
  lemma DropIff(cadence: nat, depth: nat, steps: seq<Step>, e: Emitter, s: Step)
    requires Reached(cadence, depth, steps, e) && Enabled(e, s)
    ensures Next(e, s).dropped != e.dropped <==>
              (s.CheckClosed? && e.closed) ||
              (s.TrySend? && |e.queue| >= if depth == 0 then 1 else depth)
    ensures Next(e, s).dropped != e.dropped ==> Next(e, s).dropped == e.dropped + [e.calls[s.id].job]
  {
    DepthPositive(NewEmitter(cadence, depth), steps, e);
    DropEffect(e, s);
  }

  lemma DropEffect(e: Emitter, s: Step)
    requires Enabled(e, s)
    ensures Next(e, s).dropped ==
              if (s.CheckClosed? && e.closed) || (s.TrySend? && |e.queue| >= e.depth)
              then e.dropped + [e.calls[s.id].job] else e.dropped
  {
    match s
    case Finish(ok) => FinishEffect(e, ok);
    case FlushInline(id, ok) => assert Next(e, s).dropped == e.dropped;
    case _ =>
  }
}
