/**
 The anchor log over restarts. A new emitter does not know what earlier ones have written, and at
 shutdown it flushes every opened chain, so a chain that got no new receipt can be anchored twice at
 the same head; the readers then reject the log although nobody tampered with anything.
 */
module AnchoredRestart {
  import opened Receipts
  import opened AnchorReader
  import P = PipelineMachine
  import PI = PipelineInvariant
  import PS = PipelineSteps
  import PT = PipelineTheorems
  import M = EmitterMachine
  import T = EmitterTheorems
  import opened DaemonRun
  import opened AnchoredRun
  import L = Lifecycle

  // ---------- a run marks nothing behind the store it started from ----------

  /**
   A marked head is beyond the end of the starting store, or, once flushing has begun, at it: nothing was
   added then.
   */
  ghost predicate MarkOk(d: Daemon, st: Store, j: M.Job) {
    && j.Head? && j.sequence >= |ChainAt(st, j.chain)|
    && (j.sequence == |ChainAt(st, j.chain)| ==>
          (d.phase.Flushing? || d.phase.Closing?) && ChainAt(d.w.store, j.chain) == ChainAt(st, j.chain))
  }

  /** Frames are new to the starting store, and so are the heads that are marked, but for unchanged chains. */
  ghost predicate Ahead(d: Daemon, st: Store) {
    && L.Keeps(d, st)
    && (forall a :: a in d.w.pcs ==> P.NewName(st, a))
    && (forall i :: 0 <= i < |d.e.marked| ==> MarkOk(d, st, d.e.marked[i]))
  }

  /** A step that marks nothing keeps the marks in order, if it leaves the store alone from the flushes on. */
  lemma MarksStay(d: Daemon, d': Daemon, st: Store)
    requires Ahead(d, st) && d'.e.marked == d.e.marked
    requires d.phase.Flushing? || d.phase.Closing? ==>
             (d'.phase.Flushing? || d'.phase.Closing?) && d'.w.store == d.w.store
    ensures forall i :: 0 <= i < |d'.e.marked| ==> MarkOk(d', st, d'.e.marked[i])
  {
    forall i | 0 <= i < |d'.e.marked| ensures MarkOk(d', st, d'.e.marked[i]) {
      assert MarkOk(d, st, d.e.marked[i]);
    }
  }

  lemma NewNameEarlier(st: Store, now: Store, a: P.Actor)
    requires P.NewName(now, a) && forall k :: ChainAt(st, k) <= ChainAt(now, k)
    ensures P.NewName(st, a)
  {
    forall k, i | k in st && 0 <= i < |st[k]| ensures st[k][i].kind != Live(a) && st[k][i].kind != EventsDropped(a) {
      assert ChainAt(st, k) <= ChainAt(now, k);
      assert now[k][i] == st[k][i];
    }
  }

  lemma WorkAhead(d: Daemon, s: Step, st: Store)
    requires Inv(d) && Ahead(d, st) && Enabled(d, s) && s.Work?
    ensures Ahead(Next(d, s), st)
  {
    L.StepKeeps(d, s, st);
    MarksStay(d, Next(d, s), st);
    forall a | a in Next(d, s).w.pcs ensures P.NewName(st, a) {
      if a !in d.w.pcs {
        OnlyArrivalsAreNew(d.w, s.s, a);
        forall k ensures ChainAt(st, k) <= ChainAt(d.w.store, k) {
          KeptIsPrefix(d, st, k);
        }
        NewNameEarlier(st, d.w.store, a);
      }
    }
  }

  lemma OnlyArrivalsAreNew(w: P.World, s: P.Step, a: P.Actor)
    requires P.Enabled(w, s) && a !in w.pcs && a in P.Next(w, s).pcs
    ensures P.NewName(w.store, a)
  {
    if s.Go? {
      PT.GoMovesOwn(w, s.actor, s.choice);
    }
  }

  /** The receipt of a frame that is new to the starting store lies beyond its end. */
  lemma NewReceiptIsBeyond(st: Store, k: string, c: Chain, r: Receipt, a: P.Actor)
    requires P.NewName(st, a) && ChainAt(st, k) <= c
    requires 1 <= r.sequence <= |c| && c[r.sequence - 1] == r && r.kind == Live(a)
    ensures r.sequence > |ChainAt(st, k)|
  {
    assert forall i :: 0 <= i < |ChainAt(st, k)| ==> c[i] == ChainAt(st, k)[i] && c[i].kind != Live(a);
  }

  lemma MarkAhead(d: Daemon, d': Daemon, t: M.Step, st: Store)
    requires Ahead(d, st) && L.Keeps(d', st) && M.IsMark(t) && M.Enabled(d.e, t)
    requires d'.w == d.w && d'.phase == d.phase && d'.e == M.Next(d.e, t) && MarkOk(d, st, M.JobOf(t))
    ensures Ahead(d', st)
  {
    M.MarkEffect(d.e, t);
    forall i | 0 <= i < |d'.e.marked| ensures MarkOk(d', st, d'.e.marked[i]) {
      if i < |d.e.marked| {
        assert MarkOk(d, st, d.e.marked[i]);
      }
    }
  }

  lemma ObservedIsBeyond(d: Daemon, st: Store, a: P.Actor)
    requires PI.Inv(d.w) && L.Keeps(d, st) && a in d.w.pcs && d.w.pcs[a].Observe? && P.NewName(st, a)
    ensures d.w.pcs[a].live.sequence > |ChainAt(st, d.w.pcs[a].live.chain)|
  {
    ObserveHead(d.w, a, a);
    var live, k := d.w.pcs[a].live, P.KeyOf(d.w, a);
    KeptIsPrefix(d, st, k);
    NewReceiptIsBeyond(st, k, ChainAt(d.w.store, k), live, a);
  }

  lemma KeptIsPrefix(d: Daemon, st: Store, k: string)
    requires L.Keeps(d, st)
    ensures ChainAt(st, k) <= ChainAt(d.w.store, k)
  {
    assert L.Kept(d, ChainAt(st, k), k);
  }

  lemma ObserveAhead(d: Daemon, s: Step, st: Store)
    requires Inv(d) && Ahead(d, st) && Enabled(d, s) && s.Observe?
    ensures Ahead(Next(d, s), st)
  {
    ObservedIsBeyond(d, st, s.actor);
    L.StepKeeps(d, s, st);
    MarkAhead(d, Next(d, s), ObserveStep(d.w.pcs[s.actor].live, s.actor), st);
  }

  lemma FlushAhead(d: Daemon, s: Step, st: Store)
    requires Inv(d) && Ahead(d, st) && Enabled(d, s) && s.Flush?
    ensures Ahead(Next(d, s), st)
  {
    assert PI.ChainOk(d.w, s.chain);
    FlushHead(d.w, s.chain, s.call);
    KeptIsPrefix(d, st, s.chain);
    assert MarkOk(d, st, M.JobOf(FlushStep(d.w.store, s.chain, s.call)));
    L.StepKeeps(d, s, st);
    MarkAhead(d, Next(d, s), FlushStep(d.w.store, s.chain, s.call), st);
  }

  lemma StepAhead(d: Daemon, s: Step, st: Store)
    requires Inv(d) && Ahead(d, st) && Enabled(d, s)
    ensures Ahead(Next(d, s), st)
  {
    match s
    case Work(_) => WorkAhead(d, s, st);
    case Observe(_) => ObserveAhead(d, s, st);
    case Flush(_, _) => FlushAhead(d, s, st);
    case Emitter(t) =>
      L.StepKeeps(d, s, st);
      InternalKeeps(d.e, t);
      MarksStay(d, Next(d, s), st);
    case ObserveReturned(a) =>
      L.StepKeeps(d, s, st);
      PT.GoMovesOwn(d.w, a, P.Choice(true, 0));
      MarksStay(d, Next(d, s), st);
    case _ =>
      L.StepKeeps(d, s, st);
      MarksStay(d, Next(d, s), st);
  }

  lemma {:induction false} RunAhead(d: Daemon, steps: seq<Step>, d': Daemon, st: Store)
    requires Inv(d) && Ahead(d, st) && Runs(d, steps, d')
    ensures Ahead(d', st) && Inv(d')
    decreases |steps|
  {
    if steps != [] {
      StepInv(d, steps[0]);
      StepAhead(d, steps[0], st);
      RunAhead(Next(d, steps[0]), steps[1..], d', st);
    }
  }

  lemma ReachedAhead(root: string, signer: PublicKey, st: Store, cadence: nat, depth: nat, steps: seq<Step>, d: Daemon)
    requires Reached(root, signer, st, cadence, depth, steps, d)
    ensures Ahead(d, st) && Inv(d)
  {
    StartedInv(root, signer, st, cadence, depth);
    StartedAhead(root, signer, st, cadence, depth);
    RunAhead(Started(root, signer, st, cadence, depth), steps, d, st);
  }

  lemma StartedAhead(root: string, signer: PublicKey, st: Store, cadence: nat, depth: nat)
    ensures Ahead(Started(root, signer, st, cadence, depth), st)
  {
  }

  // ---------- the log over a restart ----------

  /** The lines hold a checkpoint of chain `k` at length `n`. */
  ghost predicate HeldAt(lines: seq<Line>, k: string, n: nat) {
    exists i :: 0 <= i < |Collect(lines, k)| && Collect(lines, k)[i].sequence == n
  }

  /** The chain was anchored at the length it had at startup, before the run and again in it. */
  ghost predicate AnchoredTwice(earlier: seq<Line>, d: Daemon, st: Store, k: string) {
    HeldAt(earlier, k, |ChainAt(st, k)|) && HeldAt(LogLines(d.e.written, d.w.signer), k, |ChainAt(st, k)|)
  }

  lemma OwnLinesAhead(d: Daemon, st: Store, k: string)
    requires Ahead(d, st) && Inv(d)
    ensures forall cp :: cp in Collect(LogLines(d.e.written, d.w.signer), k) ==> cp.sequence >= |ChainAt(st, k)|
  {
    forall cp | cp in Collect(LogLines(d.e.written, d.w.signer), k) ensures cp.sequence >= |ChainAt(st, k)| {
      OwnLineIsMarked(d, st, k, cp);
    }
  }

  lemma OwnLineIsMarked(d: Daemon, st: Store, k: string, cp: Checkpoint)
    requires Ahead(d, st) && Inv(d) && cp in Collect(LogLines(d.e.written, d.w.signer), k)
    ensures cp.chain == k && MarkOk(d, st, M.Head(cp.chain, cp.sequence, cp.hash))
  {
    var j := M.Head(cp.chain, cp.sequence, cp.hash);
    ReadIsWritten(d.e.written, d.w.signer, k, cp);
    WrittenIsMarked(d.e, j);
    var i :| 0 <= i < |d.e.marked| && d.e.marked[i] == j;
    assert MarkOk(d, st, d.e.marked[i]);
  }

  lemma EarlierLinesBehind(earlier: seq<Line>, st: Store, k: string)
    requires GenuineLines(earlier, st, k)
    ensures forall cp :: cp in Collect(earlier, k) ==> cp.chain == k && cp.sequence <= |ChainAt(st, k)|
  {
    forall cp | cp in Collect(earlier, k) ensures cp.chain == k && cp.sequence <= |ChainAt(st, k)| {
      CollectMembers(earlier, k, cp);
      assert Genuine(st, M.Head(cp.chain, cp.sequence, cp.hash));
    }
  }

  lemma LogIncreasesIff(d: Daemon, st: Store, earlier: seq<Line>, k: string)
    requires Ahead(d, st) && Inv(d) && GenuineLines(earlier, st, k)
    ensures var own := LogLines(d.e.written, d.w.signer);
            StrictlyIncreasing(Collect(earlier + own, k)) <==>
              StrictlyIncreasing(Collect(earlier, k)) && StrictlyIncreasing(Collect(own, k)) &&
                !AnchoredTwice(earlier, d, st, k)
  {
    var own := LogLines(d.e.written, d.w.signer);
    ConcatIncreasesIff(earlier, own, k);
    OwnLinesAhead(d, st, k);
    EarlierLinesBehind(earlier, st, k);
    if StrictlyIncreasing(Collect(earlier, k)) && StrictlyIncreasing(Collect(own, k)) {
      JoinIff(Collect(earlier, k), Collect(own, k), |ChainAt(st, k)|);
    }
  }

  lemma JoinIff(a: seq<Checkpoint>, b: seq<Checkpoint>, n: nat)
    requires StrictlyIncreasing(a) && StrictlyIncreasing(b)
    requires forall cp :: cp in a ==> cp.sequence <= n
    requires forall cp :: cp in b ==> cp.sequence >= n
    ensures (a != [] && b != [] ==> LastOf(a).value.sequence < b[0].sequence) <==>
              !((exists i :: 0 <= i < |a| && a[i].sequence == n) && (exists i :: 0 <= i < |b| && b[i].sequence == n))
  {
    if a != [] && b != [] {
      assert a[|a| - 1] in a && b[0] in b;
    }
  }

  /**
   The log of a run, behind the log of everything before it: it is in order exactly when both parts
   are and the chain was not anchored twice at its length at startup.
   */
  lemma RestartedLogIncreasesIff(root: string, signer: PublicKey, st: Store, cadence: nat, depth: nat,
                                 steps: seq<Step>, d: Daemon, earlier: seq<Line>, k: string)
    requires Reached(root, signer, st, cadence, depth, steps, d) && GenuineLines(earlier, st, k)
    ensures var own := LogLines(d.e.written, d.w.signer);
            StrictlyIncreasing(Collect(earlier + own, k)) <==>
              StrictlyIncreasing(Collect(earlier, k)) && StrictlyIncreasing(Collect(own, k)) &&
                !AnchoredTwice(earlier, d, st, k)
  {
    ReachedAhead(root, signer, st, cadence, depth, steps, d);
    LogIncreasesIff(d, st, earlier, k);
  }

  // ---------- clean runs ----------

  /** `d` is the end of a clean run that opened `k`; `earlier` is a good log of the store it started from. */
  ghost predicate CleanRun(root: string, signer: PublicKey, st: Store, cadence: nat, depth: nat,
                           steps: seq<Step>, d: Daemon, earlier: seq<Line>, k: string) {
    && PT.StoreOk(st) && SerialRuns(Started(root, signer, st, cadence, depth), steps, d) && CleanEnd(d)
    && k in d.w.installed && ChainAt(d.w.store, k) != []
    && GenuineLines(earlier, st, k) && LinesOk(earlier, k, d.w.signer) && StrictlyIncreasing(Collect(earlier, k))
  }

  ghost function WholeLog(earlier: seq<Line>, d: Daemon, k: string): Result<Option<Checkpoint>> {
    Read(earlier + LogLines(d.e.written, d.w.signer), k, d.w.signer)
  }

  lemma GenuineLater(earlier: seq<Line>, st: Store, now: Store, k: string)
    requires GenuineLines(earlier, st, k) && ChainAt(st, k) <= ChainAt(now, k)
    ensures GenuineLines(earlier, now, k)
  {
    forall cp | cp in Collect(earlier, k) ensures Genuine(now, M.Head(cp.chain, cp.sequence, cp.hash)) {
      CollectMembers(earlier, k, cp);
      GenuineStable(st, now, M.Head(cp.chain, cp.sequence, cp.hash));
    }
  }

  lemma CleanRunFacts(root: string, signer: PublicKey, st: Store, cadence: nat, depth: nat,
                      steps: seq<Step>, d: Daemon, earlier: seq<Line>, k: string)
    requires CleanRun(root, signer, st, cadence, depth, steps, d, earlier, k)
    ensures Inv(d) && T.Ordered(d.e) && Ahead(d, st) && Linked(ChainAt(d.w.store, k), k)
    ensures GenuineLines(earlier, d.w.store, k)
  {
    var start := Started(root, signer, st, cadence, depth);
    SerialReachedInv(root, signer, st, cadence, depth, steps, d);
    StartedInv(root, signer, st, cadence, depth);
    SerialRunOrdered(start, steps, d);
    ReachedAhead(root, signer, st, cadence, depth, steps, d);
    assert PI.ChainOk(d.w, k);
    KeptIsPrefix(d, st, k);
    GenuineLater(earlier, st, d.w.store, k);
  }

  /** The chain was anchored at its head before the run and got no receipt in it. */
  ghost predicate FlushedAgain(earlier: seq<Line>, d: Daemon, st: Store, k: string) {
    HeldAt(earlier, k, |ChainAt(st, k)|) && ChainAt(d.w.store, k) == ChainAt(st, k)
  }

  /** In a clean run that is what it takes to be anchored twice. */
  lemma AnchoredTwiceIff(d: Daemon, st: Store, earlier: seq<Line>, k: string)
    requires Inv(d) && T.Ordered(d.e) && Ahead(d, st) && CleanEnd(d) && k in d.w.installed
    requires ChainAt(d.w.store, k) != []
    ensures AnchoredTwice(earlier, d, st, k) <==> FlushedAgain(earlier, d, st, k)
  {
    if AnchoredTwice(earlier, d, st, k) {
      AnchoredAtStartMeansIdle(d, st, k);
    }
    if FlushedAgain(earlier, d, st, k) {
      OwnLogHoldsHead(d, k);
      HeldHead(LogLines(d.e.written, d.w.signer), k, ChainAt(d.w.store, k));
    }
  }

  lemma AnchoredAtStartMeansIdle(d: Daemon, st: Store, k: string)
    requires Inv(d) && Ahead(d, st) && HeldAt(LogLines(d.e.written, d.w.signer), k, |ChainAt(st, k)|)
    ensures ChainAt(d.w.store, k) == ChainAt(st, k)
  {
    var own := Collect(LogLines(d.e.written, d.w.signer), k);
    var i :| 0 <= i < |own| && own[i].sequence == |ChainAt(st, k)|;
    OwnLineIsMarked(d, st, k, own[i]);
  }

  lemma HeldHead(lines: seq<Line>, k: string, c: Chain)
    requires c != [] && HeadCheckpoint(c, k) in Collect(lines, k)
    ensures HeldAt(lines, k, |c|)
  {
    var i :| 0 <= i < |Collect(lines, k)| && Collect(lines, k)[i] == HeadCheckpoint(c, k);
    assert Collect(lines, k)[i].sequence == |c|;
  }

  /**
   After a clean run the intact chain passes exactly unless it was anchored at its head before the run
   and got no receipt in it.
   */
  lemma CleanRunPassesIff(root: string, signer: PublicKey, st: Store, cadence: nat, depth: nat,
                          steps: seq<Step>, d: Daemon, earlier: seq<Line>, k: string)
    requires CleanRun(root, signer, st, cadence, depth, steps, d, earlier, k)
    ensures CheckChain(WholeLog(earlier, d, k), ChainAt(d.w.store, k)).ok <==> !FlushedAgain(earlier, d, st, k)
    ensures Linked(ChainAt(d.w.store, k), k)
  {
    CleanRunFacts(root, signer, st, cadence, depth, steps, d, earlier, k);
    CleanLogPassesIff(d, st, earlier, k);
    AnchoredTwiceIff(d, st, earlier, k);
  }

  lemma CleanLogPassesIff(d: Daemon, st: Store, earlier: seq<Line>, k: string)
    requires Inv(d) && T.Ordered(d.e) && Ahead(d, st) && CleanEnd(d) && k in d.w.installed
    requires Linked(ChainAt(d.w.store, k), k) && ChainAt(d.w.store, k) != []
    requires GenuineLines(earlier, st, k) && GenuineLines(earlier, d.w.store, k)
    requires LinesOk(earlier, k, d.w.signer) && StrictlyIncreasing(Collect(earlier, k))
    ensures CheckChain(WholeLog(earlier, d, k), ChainAt(d.w.store, k)).ok <==> !AnchoredTwice(earlier, d, st, k)
  {
    var own := LogLines(d.e.written, d.w.signer);
    LogPassesIff(d, earlier, k, d.w.signer);
    LogIncreasesIff(d, st, earlier, k);
    OwnLogHoldsHead(d, k);
    CollectConcat(earlier, own, k);
  }

  /** A passing check of a linked chain means that its head is anchored. */
  lemma PassingAnchors(r: Result<Option<Checkpoint>>, c: Chain, k: string)
    requires Linked(c, k) && CheckChain(r, c).ok
    ensures Anchors(r, c)
  {
    if c != [] {
      LinkedAt(c, k, |c| - 1);
    }
  }

  /**
   Truncation detection. After a run in which calls for one chain did not overlap, nothing was
   dropped, skipped or failed, and after flush and close, for every chain the run opened, unless it was
   anchored at its head before the run and got no receipt in it, and every j: removing the last j
   receipts is reported truncated when j >= 1, and the intact chain passes.
   */
  lemma TruncationDetection(root: string, signer: PublicKey, st: Store, cadence: nat, depth: nat,
                            steps: seq<Step>, d: Daemon, earlier: seq<Line>, k: string, j: nat)
    requires CleanRun(root, signer, st, cadence, depth, steps, d, earlier, k)
    requires !FlushedAgain(earlier, d, st, k) && j <= |ChainAt(d.w.store, k)|
    ensures var c := ChainAt(d.w.store, k);
            var r := WholeLog(earlier, d, k);
            && (CheckChain(r, c[..|c| - j]).ok <==> j == 0)
            && (CheckChain(r, c[..|c| - j]).truncated <==> j >= 1)
  {
    CleanRunPassesIff(root, signer, st, cadence, depth, steps, d, earlier, k);
    PassingAnchors(WholeLog(earlier, d, k), ChainAt(d.w.store, k), k);
    TruncationIsReported(WholeLog(earlier, d, k), ChainAt(d.w.store, k), k, j);
  }

  /** And no other well-linked chain passes under that anchor, wherever it was altered. */
  lemma AlterationDetection(root: string, signer: PublicKey, st: Store, cadence: nat, depth: nat,
                            steps: seq<Step>, d: Daemon, earlier: seq<Line>, k: string, other: Chain)
    requires CleanRun(root, signer, st, cadence, depth, steps, d, earlier, k)
    requires !FlushedAgain(earlier, d, st, k) && Linked(other, k)
    ensures CheckChain(WholeLog(earlier, d, k), other).ok <==> other == ChainAt(d.w.store, k)
  {
    CleanRunPassesIff(root, signer, st, cadence, depth, steps, d, earlier, k);
    PassingAnchors(WholeLog(earlier, d, k), ChainAt(d.w.store, k), k);
    OnlyTheAnchoredChainPasses(WholeLog(earlier, d, k), ChainAt(d.w.store, k), k, other);
  }
  // ---------- an idle restart is enough ----------

  lemma SerialCons(d: Daemon, s: Step, rest: seq<Step>, d': Daemon)
    requires Enabled(d, s) && !s.Observe? && SerialRuns(Next(d, s), rest, d')
    ensures SerialRuns(d, [s] + rest, d')
  {
    assert ([s] + rest)[1..] == rest;
  }

  /** What matters of a daemon that is shutting down without having received a frame. */
  ghost predicate Idle(d: Daemon, phase: Phase, root: string, st: Store) {
    && d.phase == phase && d.w.store == st && d.w.installed.Keys == {root}
    && d.skipped == {} && !d.abandoned && d.e.dropped == [] && d.e.failed == []
  }

  /** The one flush of such a shutdown: its head is marked and handed to the worker, */
  lemma FlushIsSent(d: Daemon, root: string, st: Store) returns (steps: seq<Step>, d': Daemon)
    requires Idle(d, Flushing, root, st) && d.e == M.NewEmitter(1, 1) && ChainAt(st, root) != []
    requires ChainAt(st, root)[|ChainAt(st, root)| - 1].sequence == |ChainAt(st, root)|
    ensures SerialRuns(d, steps, d') && Idle(d', Flushing, root, st) && d'.w == d.w && root in d'.flushed
    ensures d'.e == M.NewEmitter(1, 1).(counts := d'.e.counts, lastSeq := d'.e.lastSeq, marked := d'.e.marked,
                      calls := map[0 := M.FlushWaiting(0, HeadOf(ChainAt(st, root), root))],
                      queue := [HeadOf(ChainAt(st, root), root)], sent := [HeadOf(ChainAt(st, root), root)])
  {
    var j := HeadOf(ChainAt(st, root), root);
    var d1 := Next(d, Flush(root, 0));
    assert d1.e.calls == map[0 := M.FlushSending(j)] && d1.e.queue == [] && d1.e.sent == [];
    d' := Next(d1, Emitter(M.FlushSend(0)));
    assert [] + [j] == [j];
    assert SerialRuns(d', [], d');
    SerialCons(d1, Emitter(M.FlushSend(0)), [], d');
    SerialCons(d, Flush(root, 0), [Emitter(M.FlushSend(0))] + [], d');
    steps := [Flush(root, 0)] + ([Emitter(M.FlushSend(0))] + []);
  }

  /** written, and the call returns. */
  lemma FlushIsWritten(d: Daemon, root: string, st: Store, j: M.Job) returns (steps: seq<Step>, d': Daemon)
    requires Idle(d, Flushing, root, st) && root in d.flushed && j.Head?
    requires d.e.worker.Waiting? && d.e.queue == [j] && d.e.written == [] && d.e.handled == [] && !d.e.closed &&
             d.e.stopAt.None?
    requires d.e.calls == map[0 := M.FlushWaiting(0, j)]
    ensures SerialRuns(d, steps, d') && Idle(d', Flushing, root, st) && d'.w == d.w && root in d'.flushed && Quiet(d'.e)
    ensures d'.e.written == [j] && d'.e.worker.Waiting? && d'.e.queue == [] && !d'.e.closed && d'.e.stopAt.None?
  {
    var take, finish, back := Emitter(M.Take), Emitter(M.Finish(true)), Emitter(M.FlushReturn(0));
    var d2 := WorkerWrites(d, j);
    d' := Next(d2, back);
    assert SerialRuns(d', [], d');
    SerialCons(d2, back, [], d');
    SerialCons(Next(d, take), finish, [back] + [], d');
    SerialCons(d, take, [finish] + ([back] + []), d');
    steps := [take] + ([finish] + ([back] + []));
  }

  lemma WorkerWrites(d: Daemon, j: M.Job) returns (d': Daemon)
    requires d.e.worker.Waiting? && d.e.queue == [j] && d.e.written == [] && d.e.handled == [] && j.Head?
    ensures Enabled(d, Emitter(M.Take)) && Enabled(Next(d, Emitter(M.Take)), Emitter(M.Finish(true)))
    ensures d' == Next(Next(d, Emitter(M.Take)), Emitter(M.Finish(true)))
    ensures d' == d.(e := d.e.(queue := [], worker := M.Waiting, handled := [j], written := [j]))
  {
    var d1 := Next(d, Emitter(M.Take));
    assert d1.e.worker == M.Running(j) && d1.e.queue == [];
    d' := Next(d1, Emitter(M.Finish(true)));
    assert [] + [j] == [j];
  }

  lemma FlushHappens(d: Daemon, root: string, st: Store) returns (steps: seq<Step>, d': Daemon)
    requires Idle(d, Flushing, root, st) && d.e == M.NewEmitter(1, 1) && ChainAt(st, root) != []
    requires ChainAt(st, root)[|ChainAt(st, root)| - 1].sequence == |ChainAt(st, root)|
    ensures SerialRuns(d, steps, d') && Idle(d', Flushing, root, st) && d'.w == d.w && root in d'.flushed && Quiet(d'.e)
    ensures d'.e.written == [HeadOf(ChainAt(st, root), root)] && d'.e.worker.Waiting? && d'.e.queue == [] &&
            !d'.e.closed && d'.e.stopAt.None?
  {
    var s1, d1 := FlushIsSent(d, root, st);
    var s2;
    s2, d' := FlushIsWritten(d1, root, st, HeadOf(ChainAt(st, root), root));
    SerialThen(d, s1, d1, s2, d');
    steps := s1 + s2;
  }

  /** The rest of the shutdown: Close signals, the worker drains nothing and exits. */
  lemma CloseHappens(d: Daemon, root: string, st: Store) returns (steps: seq<Step>, d': Daemon)
    requires Idle(d, Flushing, root, st) && root in d.flushed && Quiet(d.e)
    requires d.e.worker.Waiting? && d.e.queue == [] && !d.e.closed && d.e.stopAt.None?
    ensures SerialRuns(d, steps, d') && Idle(d', Closing, root, st) && d'.w == d.w
    ensures d'.e.written == d.e.written && d'.e.worker.Exited?
  {
    var d1 := Next(d, FlushesDone);
    assert d1 == d.(phase := Closing);
    var more;
    more, d' := WorkerExits(d1);
    SerialCons(d, FlushesDone, more, d');
    steps := [FlushesDone] + more;
  }

  lemma WorkerExits(d: Daemon) returns (steps: seq<Step>, d': Daemon)
    requires d.phase.Closing? && d.e.worker.Waiting? && d.e.queue == [] && !d.e.closed && d.e.stopAt.None?
    ensures SerialRuns(d, steps, d')
    ensures d' == d.(e := d.e.(closed := true, stopAt := Some(|d.e.sent|), worker := M.Exited))
  {
    var d2 := Next(d, Emitter(M.SetClosed));
    assert d2 == d.(e := d.e.(closed := true));
    var d3 := Next(d2, Emitter(M.Stop));
    assert d3 == d.(e := d.e.(closed := true, stopAt := Some(|d.e.sent|)));
    var s, d5 := Drains(d3);
    d' := d5;
    SerialCons(d2, Emitter(M.Stop), s, d');
    SerialCons(d, Emitter(M.SetClosed), [Emitter(M.Stop)] + s, d');
    steps := [Emitter(M.SetClosed)] + ([Emitter(M.Stop)] + s);
  }

  lemma Drains(d: Daemon) returns (steps: seq<Step>, d': Daemon)
    requires d.phase.Closing? && d.e.worker.Waiting? && d.e.queue == [] && d.e.stopAt.Some?
    ensures SerialRuns(d, steps, d') && d' == d.(e := d.e.(worker := M.Exited))
  {
    var d1 := Next(d, Emitter(M.NoticeStop));
    assert d1 == d.(e := d.e.(worker := M.Draining));
    d' := Next(d1, Emitter(M.Exit));
    assert SerialRuns(d', [], d');
    SerialCons(d1, Emitter(M.Exit), [], d');
    SerialCons(d, Emitter(M.NoticeStop), [Emitter(M.Exit)] + [], d');
    steps := [Emitter(M.NoticeStop)] + ([Emitter(M.Exit)] + []);
  }

  lemma {:induction false} SerialThen(d: Daemon, s1: seq<Step>, d1: Daemon, s2: seq<Step>, d2: Daemon)
    requires SerialRuns(d, s1, d1) && SerialRuns(d1, s2, d2)
    ensures SerialRuns(d, s1 + s2, d2)
    decreases |s1|
  {
    if s1 == [] {
      assert s1 + s2 == s2;
    } else {
      SerialThen(Next(d, s1[0]), s1[1..], d1, s2, d2);
      assert (s1 + s2)[1..] == s1[1..] + s2;
    }
  }

  /** A clean run that receives no frame and whose terminator missed its deadline. */
  lemma IdleRun(root: string, signer: PublicKey, st: Store) returns (steps: seq<Step>, d: Daemon)
    requires PT.StoreOk(st) && ChainAt(st, root) != []
    ensures SerialRuns(Started(root, signer, st, 1, 1), steps, d) && CleanEnd(d) && d.w.store == st &&
            d.w.signer == signer
    ensures root in d.w.installed && d.e.written == [HeadOf(ChainAt(st, root), root)]
  {
    var d0 := Started(root, signer, st, 1, 1);
    LinkedAt(ChainAt(st, root), root, |ChainAt(st, root)| - 1);
    var d1 := Next(d0, HandlersDone);
    var d2 := Next(d1, TerminatorsDone);
    var s3, d3 := FlushHappens(d2, root, st);
    var s4;
    s4, d := CloseHappens(d3, root, st);
    SerialThen(d2, s3, d3, s4, d);
    SerialCons(d1, TerminatorsDone, s3 + s4, d);
    SerialCons(d0, HandlersDone, [TerminatorsDone] + (s3 + s4), d);
    steps := [HandlersDone] + ([TerminatorsDone] + (s3 + s4));
  }

  lemma OneLine(j: M.Job, key: PublicKey, k: string)
    requires j.Head? && j.chain == k
    ensures Collect(LogLines([j], key), k) == [Checkpoint(k, j.sequence, j.hash)]
  {
    var lines := LogLines([j], key);
    assert lines == [LineOf(j, key)] && lines[..0] == [];
    assert Collect(lines[..0], k) == [];
  }

  /**
   The exception is real, and no fault is needed for it: the same run twice on one store. Its log
   passes the check after the first run and is rejected after the second, with the store untouched.
   */
  lemma IdleRestartIsRejected(root: string, signer: PublicKey, st: Store) returns (steps: seq<Step>, d: Daemon)
    requires PT.StoreOk(st) && ChainAt(st, root) != []
    ensures d.w.store == st
    ensures CleanRun(root, signer, st, 1, 1, steps, d, [], root) &&
            CheckChain(WholeLog([], d, root), ChainAt(st, root)).ok
    ensures CleanRun(root, signer, st, 1, 1, steps, d, LogLines(d.e.written, signer), root)
    ensures !CheckChain(WholeLog(LogLines(d.e.written, signer), d, root), ChainAt(st, root)).ok
  {
    steps, d := IdleRun(root, signer, st);
    var c, own := ChainAt(st, root), LogLines(d.e.written, signer);
    OneLine(HeadOf(c, root), signer, root);
    LogLinesOkIff(d.e.written, signer, root, signer);
    LinkedAt(c, root, |c| - 1);
    assert GenuineLines(own, st, root);
    assert Collect([], root) == [];
    CleanRunPassesIff(root, signer, st, 1, 1, steps, d, [], root);
    CleanRunPassesIff(root, signer, st, 1, 1, steps, d, own, root);
    assert Collect(own, root)[0].sequence == |c|;
    assert FlushedAgain(own, d, st, root);
  }
}
