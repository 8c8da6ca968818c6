/**
 End to end: what the checkpoint log of a run says about the chains of that run, and therefore
 what `verify --against-anchor` reports about an intact, a truncated or an altered store.
 */
module AnchoredRun {
  import opened Receipts
  import opened AnchorReader
  import P = PipelineMachine
  import PI = PipelineInvariant
  import M = EmitterMachine
  import T = EmitterTheorems
  import opened DaemonRun

  /** The lines a sink holds for the written heads, signed with the daemon's key. */
  function LogLines(written: seq<M.Job>, key: PublicKey): seq<Line> {
    seq(|written|, i requires 0 <= i < |written| => LineOf(written[i], key))
  }

  function LineOf(j: M.Job, key: PublicKey): Line {
    if j.Head? then SignedHead(Checkpoint(j.chain, j.sequence, j.hash), key, true) else Blank
  }

  /** The lines a run wrote are good for the key it signed with, and for another key if none is about the chain. */
  lemma {:induction false} LogLinesOkIff(written: seq<M.Job>, signer: PublicKey, k: string, key: PublicKey)
    ensures LinesOk(LogLines(written, signer), k, key) <==> key == signer || Collect(LogLines(written, signer), k) == []
    decreases |written|
  {
    if written != [] {
      var n := |written| - 1;
      LogLinesPrefix(written, signer, n);
      LogLinesOkIff(written[..n], signer, k, key);
      LinesOkNext(LogLines(written, signer), k, key);
    }
  }

  lemma LogLinesPrefix(written: seq<M.Job>, key: PublicKey, n: nat)
    requires n <= |written|
    ensures LogLines(written, key)[..n] == LogLines(written[..n], key)
  {
  }

  /** A checkpoint read from the log is a head that was written. */
  lemma ReadIsWritten(written: seq<M.Job>, key: PublicKey, k: string, cp: Checkpoint)
    ensures cp in Collect(LogLines(written, key), k) <==>
            cp.chain == k && M.Head(cp.chain, cp.sequence, cp.hash) in written
  {
    var lines := LogLines(written, key);
    CollectMembers(lines, k, cp);
    if HasHead(lines, cp) {
      var i :| 0 <= i < |lines| && lines[i].SignedHead? && lines[i].cp == cp;
      assert written[i] == M.Head(cp.chain, cp.sequence, cp.hash);
    }
    if M.Head(cp.chain, cp.sequence, cp.hash) in written {
      var i :| 0 <= i < |written| && written[i] == M.Head(cp.chain, cp.sequence, cp.hash);
      assert lines[i].cp == cp;
    }
  }

  lemma {:induction false} LogIncreases(written: seq<M.Job>, key: PublicKey, k: string)
    requires T.Increasing(written)
    ensures StrictlyIncreasing(Collect(LogLines(written, key), k))
    decreases |written|
  {
    if written != [] {
      var n := |written| - 1;
      var lines := LogLines(written, key);
      assert T.Increasing(written[..n]);
      LogIncreases(written[..n], key, k);
      LogLinesPrefix(written, key, n);
      var before := Collect(lines[..n], k);
      forall i | 0 <= i < |before| && written[n].Head? && written[n].chain == k
        ensures before[i].sequence < written[n].sequence
      {
        ReadIsWritten(written[..n], key, k, before[i]);
      }
    }
  }

  // ---------- every checkpoint is genuine ----------

  ghost predicate GenuineLines(lines: seq<Line>, st: Store, k: string) {
    forall cp :: cp in Collect(lines, k) ==> Genuine(st, M.Head(cp.chain, cp.sequence, cp.hash))
  }

  lemma WrittenIsMarked(e: M.Emitter, j: M.Job)
    requires M.Inv(e) && j.Head? && j in e.written
    ensures j in e.marked
  {
    T.KnownIsMarked(e, j);
  }

  lemma WrittenLinesAreGenuine(d: Daemon, k: string)
    requires Inv(d)
    ensures GenuineLines(LogLines(d.e.written, d.w.signer), d.w.store, k)
  {
    forall cp | cp in Collect(LogLines(d.e.written, d.w.signer), k)
      ensures Genuine(d.w.store, M.Head(cp.chain, cp.sequence, cp.hash))
    {
      ReadIsWritten(d.e.written, d.w.signer, k, cp);
      WrittenIsMarked(d.e, M.Head(cp.chain, cp.sequence, cp.hash));
    }
  }

  lemma GenuineConcat(l1: seq<Line>, l2: seq<Line>, st: Store, k: string)
    requires GenuineLines(l1, st, k) && GenuineLines(l2, st, k)
    ensures GenuineLines(l1 + l2, st, k)
  {
    CollectConcat(l1, l2, k);
  }

  lemma GenuineLatestAnchorsAPrefix(lines: seq<Line>, st: Store, k: string, key: PublicKey)
    requires GenuineLines(lines, st, k) && Read(lines, k, key).Ok? && Read(lines, k, key).value.Some?
    ensures var n := Read(lines, k, key).value.value.sequence;
            1 <= n <= |ChainAt(st, k)| && Anchors(Read(lines, k, key), ChainAt(st, k)[..n])
  {
    var all := Collect(lines, k);
    var cp := all[|all| - 1];
    assert cp in all;
    CollectMembers(lines, k, cp);
    assert Genuine(st, M.Head(cp.chain, cp.sequence, cp.hash));
  }

  /**
   At every moment of every run, crashed or not, with any drops and faults and any overlap: an
   untouched store is never reported truncated and never reported with a wrong head hash. It can
   only fail because the log is unreadable, silent, or behind.
   */
  lemma UntouchedStoreIsNeverAccused(root: string, signer: PublicKey, st: Store, cadence: nat, depth: nat,
                                     steps: seq<Step>, d: Daemon, earlier: seq<Line>, k: string)
    requires Reached(root, signer, st, cadence, depth, steps, d) && GenuineLines(earlier, d.w.store, k)
    ensures var r := Read(earlier + LogLines(d.e.written, d.w.signer), k, d.w.signer);
            var c := ChainAt(d.w.store, k);
            && !CheckChain(r, c).truncated
            && (r.Ok? && r.value.Some? ==> (CheckChain(r, c).ok <==> r.value.value.sequence == |c|))
  {
    ReachedInv(root, signer, st, cadence, depth, steps, d);
    var lines := earlier + LogLines(d.e.written, d.w.signer);
    var r, c := Read(lines, k, d.w.signer), ChainAt(d.w.store, k);
    WrittenLinesAreGenuine(d, k);
    GenuineConcat(earlier, LogLines(d.e.written, d.w.signer), d.w.store, k);
    assert PI.ChainOk(d.w, k);
    if r.Ok? && r.value.Some? {
      GenuineLatestAnchorsAPrefix(lines, d.w.store, k, d.w.signer);
      StaleAnchorAccusesNobody(r, c, k, r.value.value.sequence);
    }
  }

  // ---------- a clean run anchors every chain ----------

  /** A run in which Observe calls for one chain never overlap. */
  ghost predicate SerialRuns(d: Daemon, steps: seq<Step>, d': Daemon)
    decreases |steps|
  {
    if steps == [] then d == d'
    else
      && Enabled(d, steps[0])
      && (steps[0].Observe? ==> T.Serial(d.e, ObserveStep(d.w.pcs[steps[0].actor].live, steps[0].actor)))
      && SerialRuns(Next(d, steps[0]), steps[1..], d')
  }

  lemma SerialStepOrdered(d: Daemon, s: Step)
    requires Inv(d) && T.Ordered(d.e) && Enabled(d, s)
    requires s.Observe? ==> T.Serial(d.e, ObserveStep(d.w.pcs[s.actor].live, s.actor))
    ensures T.Ordered(Next(d, s).e)
  {
    match s
    case Observe(a) => T.OrderedStep(d.e, ObserveStep(d.w.pcs[a].live, a));
    case Emitter(t) => T.OrderedStep(d.e, t);
    case Flush(k, id) => T.OrderedStep(d.e, FlushStep(d.w.store, k, id));
    case _ =>
  }

  lemma {:induction false} SerialRunOrdered(d: Daemon, steps: seq<Step>, d': Daemon)
    requires Inv(d) && T.Ordered(d.e) && SerialRuns(d, steps, d')
    ensures Inv(d') && T.Ordered(d'.e) && Runs(d, steps, d')
    decreases |steps|
  {
    if steps != [] {
      StepInv(d, steps[0]);
      SerialStepOrdered(d, steps[0]);
      SerialRunOrdered(Next(d, steps[0]), steps[1..], d');
    }
  }

  /** The whole shutdown sequence is over and nothing was dropped, skipped or failed. */
  ghost predicate CleanEnd(d: Daemon) {
    d.phase.Closing? && !d.abandoned && d.skipped == {} && d.e.worker.Exited? && d.e.dropped == [] && d.e.failed == []
  }

  /** After Close nothing is queued and nothing is in hand. */
  lemma ClosedIsEmpty(d: Daemon)
    requires Inv(d) && d.phase.Closing? && d.e.worker.Exited?
    ensures d.e.queue == [] && M.Current(d.e.worker) == []
    ensures forall id, j: M.Job :: !M.Holds(d.e, id, j)
  {
    assert d.e.sent == d.e.handled + [] + d.e.queue;
    assert |d.e.handled| == |d.e.sent|;
  }

  function HeadOf(c: Chain, k: string): M.Job
    requires c != []
  {
    M.Head(k, |c|, HashOf(c[|c| - 1]))
  }

  /** A genuine head at the length of the chain is the head of the chain. */
  lemma GenuineAtEnd(st: Store, k: string, j: M.Job)
    requires Genuine(st, j) && j.chain == k && j.sequence >= |ChainAt(st, k)|
    ensures ChainAt(st, k) != [] && j == HeadOf(ChainAt(st, k), k)
  {
  }

  lemma FlushedIsMarked(d: Daemon, k: string)
    requires AllGenuine(d) && M.MarksIncrease(d.e) && ChainAt(d.w.store, k) != []
    requires M.Get(d.e.lastSeq, k) >= |ChainAt(d.w.store, k)|
    ensures HeadOf(ChainAt(d.w.store, k), k) in d.e.marked
  {
    assert M.HasMark(d.e.marked, k, M.Get(d.e.lastSeq, k));
    var i :| 0 <= i < |d.e.marked| && d.e.marked[i].Head? && d.e.marked[i].chain == k &&
      d.e.marked[i].sequence == M.Get(d.e.lastSeq, k);
    GenuineAtEnd(d.w.store, k, d.e.marked[i]);
    assert d.e.marked[i] in d.e.marked;
  }

  /** The head of a flushed chain is in the log. */
  lemma HeadIsWritten(d: Daemon, k: string)
    requires Inv(d) && CleanEnd(d) && k in d.w.installed && ChainAt(d.w.store, k) != []
    ensures HeadOf(ChainAt(d.w.store, k), k) in d.e.written
  {
    ClosedIsEmpty(d);
    T.NothingLost(d.e, k);
    FlushedIsMarked(d, k);
  }

  /** The last of the increasing genuine checkpoints is the head once the head is among them. */
  lemma LatestIsHead(st: Store, k: string, all: seq<Checkpoint>, cp: Checkpoint)
    requires StrictlyIncreasing(all) && cp in all
    requires forall x :: x in all ==> x.chain == k && Genuine(st, M.Head(x.chain, x.sequence, x.hash))
    requires ChainAt(st, k) != [] && M.Head(k, cp.sequence, cp.hash) == HeadOf(ChainAt(st, k), k)
    ensures LastOf(all).Some?
    ensures M.Head(k, LastOf(all).value.sequence, LastOf(all).value.hash) == HeadOf(ChainAt(st, k), k)
  {
    var last := all[|all| - 1];
    assert last in all;
    var i :| 0 <= i < |all| && all[i] == cp;
    assert cp.sequence <= last.sequence;
    GenuineAtEnd(st, k, M.Head(last.chain, last.sequence, last.hash));
  }

  lemma CleanLogIncreases(d: Daemon, k: string)
    requires T.Ordered(d.e) && d.e.worker.Exited?
    ensures StrictlyIncreasing(Collect(LogLines(d.e.written, d.w.signer), k))
  {
    assert T.Stream(d.e) == d.e.written + [];
    assert d.e.written + [] == d.e.written;
    LogIncreases(d.e.written, d.w.signer, k);
  }

  /** The log of a clean run alone is in order and holds the head of every chain the run opened. */
  lemma OwnLogHoldsHead(d: Daemon, k: string)
    requires Inv(d) && T.Ordered(d.e) && CleanEnd(d)
    requires k in d.w.installed && ChainAt(d.w.store, k) != []
    ensures var own := Collect(LogLines(d.e.written, d.w.signer), k);
            StrictlyIncreasing(own) && HeadCheckpoint(ChainAt(d.w.store, k), k) in own
  {
    CleanLogIncreases(d, k);
    HeadIsWritten(d, k);
    ReadIsWritten(d.e.written, d.w.signer, k, HeadCheckpoint(ChainAt(d.w.store, k), k));
  }

  lemma SerialReachedInv(root: string, signer: PublicKey, st: Store, cadence: nat, depth: nat, steps: seq<Step>,
                         d: Daemon)
    requires PT.StoreOk(st) && SerialRuns(Started(root, signer, st, cadence, depth), steps, d)
    ensures Inv(d) && T.Ordered(d.e)
  {
    StartedInv(root, signer, st, cadence, depth);
    SerialRunOrdered(Started(root, signer, st, cadence, depth), steps, d);
  }

  function HeadCheckpoint(c: Chain, k: string): Checkpoint
    requires c != []
  {
    Checkpoint(k, |c|, HashOf(c[|c| - 1]))
  }

  /**
   When an intact chain passes the check: exactly when its genuine checkpoints in the log are all signed
   with the published key and strictly increase, and its head is among them.
   */
  lemma PassesIff(lines: seq<Line>, st: Store, k: string, key: PublicKey)
    requires GenuineLines(lines, st, k)
    requires Linked(ChainAt(st, k), k) && ChainAt(st, k) != []
    ensures var c := ChainAt(st, k);
            CheckChain(Read(lines, k, key), c).ok <==>
              LinesOk(lines, k, key) && StrictlyIncreasing(Collect(lines, k)) &&
                HeadCheckpoint(c, k) in Collect(lines, k)
  {
    var c, all, r := ChainAt(st, k), Collect(lines, k), Read(lines, k, key);
    var head := HeadCheckpoint(c, k);
    LinkedAt(c, k, |c| - 1);
    if LinesOk(lines, k, key) && StrictlyIncreasing(all) && head in all {
      forall x | x in all ensures x.chain == k {
        CollectMembers(lines, k, x);
      }
      LatestIsHead(st, k, all, head);
    }
    if CheckChain(r, c).ok {
      var latest := LastOf(all).value;
      assert latest in all;
      CollectMembers(lines, k, latest);
      assert latest == head;
    }
  }

  /** What decides about the log of a run behind earlier lines, checked against the key `key`. */
  ghost predicate LogPasses(earlier: seq<Line>, d: Daemon, k: string, key: PublicKey)
    requires ChainAt(d.w.store, k) != []
  {
    var own := LogLines(d.e.written, d.w.signer);
    && LinesOk(earlier, k, key) && (key == d.w.signer || Collect(own, k) == [])
    && StrictlyIncreasing(Collect(earlier + own, k))
    && HeadCheckpoint(ChainAt(d.w.store, k), k) in Collect(earlier + own, k)
  }

  lemma LogPassesIff(d: Daemon, earlier: seq<Line>, k: string, key: PublicKey)
    requires Inv(d) && Linked(ChainAt(d.w.store, k), k) && ChainAt(d.w.store, k) != []
    requires GenuineLines(earlier, d.w.store, k)
    ensures CheckChain(Read(earlier + LogLines(d.e.written, d.w.signer), k, key), ChainAt(d.w.store, k)).ok <==>
              LogPasses(earlier, d, k, key)
  {
    var own := LogLines(d.e.written, d.w.signer);
    WrittenLinesAreGenuine(d, k);
    GenuineConcat(earlier, own, d.w.store, k);
    LogLinesOkIff(d.e.written, d.w.signer, k, key);
    LinesOkConcat(earlier, own, k, key);
    PassesIff(earlier + own, d.w.store, k, key);
  }

  /**
   At every moment of every run, whatever was dropped, failed, skipped or overlapped, whoever signed the
   earlier lines, and whichever key has been published by the time of the check.
   */
  lemma IntactPassesIff(root: string, signer: PublicKey, st: Store, cadence: nat, depth: nat,
                        steps: seq<Step>, d: Daemon, earlier: seq<Line>, k: string, key: PublicKey)
    requires Reached(root, signer, st, cadence, depth, steps, d) && ChainAt(d.w.store, k) != []
    requires GenuineLines(earlier, d.w.store, k)
    ensures CheckChain(Read(earlier + LogLines(d.e.written, d.w.signer), k, key), ChainAt(d.w.store, k)).ok <==>
              LogPasses(earlier, d, k, key)
  {
    ReachedInv(root, signer, st, cadence, depth, steps, d);
    assert PI.ChainOk(d.w, k);
    LogPassesIff(d, earlier, k, key);
  }
}
