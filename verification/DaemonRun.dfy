/**
 One run of the daemon: the pipeline machine and the checkpoint emitter side by side, then the
 shutdown order of `Run` in daemon/daemon.go. A run may crash at any step.

 Serving ends only when every call has returned (the listener waits for its handlers); then come
 the terminators, one flush per open chain, and the emitter's Close. A failing listener skips both
 and a failing terminator skips the flushes: `Run` returns, and the deferred Close still happens.
 */
module DaemonRun {
  import opened Receipts
  import opened ChainState
  import P = PipelineMachine
  import PI = PipelineInvariant
  import PS = PipelineSteps
  import PT = PipelineTheorems
  import M = EmitterMachine
  import T = EmitterTheorems

  datatype Phase = Serving | Terminating | Flushing | Closing

  /**
   `flushed` and `skipped` are history: the chains whose final flush has begun, and those whose tail
   could not be read for it. `abandoned` says that an error cut the shutdown sequence short.
   */
  datatype Daemon = Daemon(phase: Phase, w: P.World, e: M.Emitter, flushed: set<string>, skipped: set<string>,
                           abandoned: bool)

  function Started(root: string, signer: PublicKey, st: Store, cadence: nat, depth: nat): Daemon {
    Daemon(Serving, P.Initial(root, signer, st), M.NewEmitter(cadence, depth), {}, {}, false)
  }

  datatype Step =
    | Work(s: P.Step)
    | Observe(actor: P.Actor)
    | ObserveReturned(actor: P.Actor)
    | Emitter(t: M.Step)
    | HandlersDone
    | Terminate(chain: string, id: nat)
    | TerminatorsDone
    | Flush(chain: string, call: nat)
    | SkipFlush(chain: string)
    | FlushesDone
    | Abandon

  predicate AllDone(w: P.World) {
    forall a | a in w.pcs :: w.pcs[a].Done?
  }

  /** No emitter call is in progress. */
  predicate Quiet(e: M.Emitter) {
    forall id | id in e.calls :: e.calls[id].Returned?
  }

  /** The tail of a chain that may get a terminator: some receipts, the last one not terminal. */
  predicate Open(c: Chain) {
    c != [] && !c[|c| - 1].terminal
  }

  /** The emitter steps that are not begun by the pipeline or the shutdown sequence itself. */
  predicate Internal(t: M.Step) {
    !M.IsMark(t) && !t.FlushAllCall?
  }

  ghost predicate Enabled(d: Daemon, s: Step) {
    match s
    case Work(p) =>
      d.phase.Serving? && P.Enabled(d.w, p) && (p.Go? ==> !d.w.pcs[p.actor].Observe?)
    case Observe(a) => a in d.w.pcs && d.w.pcs[a].Observe? && a !in d.e.calls
    case ObserveReturned(a) =>
      a in d.w.pcs && d.w.pcs[a].Observe? && P.CanGo(d.w, a, P.Choice(true, 0)) &&
      a in d.e.calls && d.e.calls[a].Returned?
    case Emitter(t) => Internal(t) && (M.IsClose(t) ==> d.phase.Closing?) && M.Enabled(d.e, t)
    case HandlersDone => d.phase.Serving? && AllDone(d.w)
    case Terminate(k, _) =>
      d.phase.Terminating? && k in d.w.installed && d.w.installed[k] in d.w.heap &&
      d.w.heap[d.w.installed[k]].view.nextSeq != 1 && Open(ChainAt(d.w.store, k))
    case TerminatorsDone => d.phase.Terminating?
    case Flush(k, id) =>
      d.phase.Flushing? && k in d.w.installed && ChainAt(d.w.store, k) != [] &&
      id !in d.e.calls && Quiet(d.e)
    case SkipFlush(k) => d.phase.Flushing? && k in d.w.installed && Quiet(d.e)
    case FlushesDone =>
      d.phase.Flushing? && Quiet(d.e) &&
      (forall k | k in d.w.installed :: ChainAt(d.w.store, k) != [] ==> k in d.flushed || k in d.skipped)
    case Abandon => (d.phase.Serving? && AllDone(d.w)) || d.phase.Terminating?
  }

  /** The terminal receipt emitTerminatorForChain signs, in the slot it allocates. */
  function Terminator(w: P.World, k: string, id: nat): Receipt
    requires k in w.installed && w.installed[k] in w.heap
  {
    var view := w.heap[w.installed[k]].view;
    Receipt(id, k, view.nextSeq, view.prev, ChainInterrupted, true, None, w.signer)
  }

  function TerminateNext(w: P.World, k: string, id: nat): P.World
    requires k in w.installed && w.installed[k] in w.heap
  {
    var r, ref := Terminator(w, k, id), w.installed[k];
    w.(store := P.Append(w.store, k, r),
       heap := w.heap[ref := w.heap[ref].(view := Advanced(r.sequence, HashOf(r)))])
  }

  function ObserveStep(live: Receipt, id: nat): M.Step {
    M.ObserveCall(id, live.chain, live.sequence, HashOf(live))
  }

  /** FlushCheckpoints hands over the stored tail of the chain. */
  function FlushStep(st: Store, k: string, id: nat): M.Step
    requires ChainAt(st, k) != []
  {
    var c := ChainAt(st, k);
    M.FlushCall(id, k, c[|c| - 1].sequence, HashOf(c[|c| - 1]))
  }

  ghost function Next(d: Daemon, s: Step): Daemon
    requires Enabled(d, s)
  {
    match s
    case Work(p) => d.(w := P.Next(d.w, p))
    case Observe(a) => d.(e := M.Next(d.e, ObserveStep(d.w.pcs[a].live, a)))
    case ObserveReturned(a) => d.(w := P.GoNext(d.w, a, P.Choice(true, 0)))
    case Emitter(t) => d.(e := M.Next(d.e, t))
    case HandlersDone => d.(phase := Terminating)
    case Terminate(k, id) => d.(w := TerminateNext(d.w, k, id))
    case TerminatorsDone => d.(phase := Flushing)
    case Flush(k, id) => d.(e := M.Next(d.e, FlushStep(d.w.store, k, id)), flushed := d.flushed + {k})
    case SkipFlush(k) => d.(skipped := d.skipped + {k})
    case FlushesDone => d.(phase := Closing)
    case Abandon => d.(phase := Closing, abandoned := true)
  }

  ghost predicate Runs(d: Daemon, steps: seq<Step>, d': Daemon)
    decreases |steps|
  {
    if steps == [] then d == d'
    else Enabled(d, steps[0]) && Runs(Next(d, steps[0]), steps[1..], d')
  }

  // ---------- invariant ----------

  /** A head that describes a stored receipt. */
  ghost predicate Genuine(st: Store, j: M.Job) {
    j.Head? && j.hash.receipt.sequence == j.sequence &&
    1 <= j.sequence <= |ChainAt(st, j.chain)| && ChainAt(st, j.chain)[j.sequence - 1] == j.hash.receipt
  }

  ghost predicate AllGenuine(d: Daemon) {
    forall i :: 0 <= i < |d.e.marked| ==> Genuine(d.w.store, d.e.marked[i])
  }

  /** Until the flushes begin only Observe calls are in progress, each for a frame that is being handled. */
  ghost predicate CallsOk(d: Daemon) {
    forall id :: id in d.e.calls ==> id in d.w.pcs && (d.w.pcs[id].Observe? || d.e.calls[id].Returned?)
  }

  ghost predicate PhaseOk(d: Daemon) {
    && (!d.phase.Serving? ==> AllDone(d.w))
    && (d.e.closed || d.e.stopAt.Some? ==> d.phase.Closing?)
    && (d.phase.Closing? ==> Quiet(d.e) && (d.e.stopAt.Some? ==> d.e.stopAt.value == |d.e.sent|))
    && (d.phase.Serving? || d.phase.Terminating? ==> d.flushed == {} && CallsOk(d))
    && (forall k :: k in d.flushed ==> |ChainAt(d.w.store, k)| <= M.Get(d.e.lastSeq, k))
    && (d.phase.Closing? && !d.abandoned ==>
          forall k :: k in d.w.installed && ChainAt(d.w.store, k) != [] ==> k in d.flushed || k in d.skipped)
  }

  ghost predicate Inv(d: Daemon) {
    PI.Inv(d.w) && M.Inv(d.e) && AllGenuine(d) && PhaseOk(d)
  }

  lemma StartedInv(root: string, signer: PublicKey, st: Store, cadence: nat, depth: nat)
    requires PT.StoreOk(st)
    ensures Inv(Started(root, signer, st, cadence, depth))
  {
    PT.InitialInv(root, signer, st);
    M.NewInv(cadence, depth);
  }

  // ---------- the store side ----------

  lemma GenuineStable(st: Store, st': Store, j: M.Job)
    requires Genuine(st, j) && ChainAt(st, j.chain) <= ChainAt(st', j.chain)
    ensures Genuine(st', j)
  {
  }

  lemma AllGenuineStable(d: Daemon, d': Daemon)
    requires AllGenuine(d) && d'.e.marked == d.e.marked
    requires forall k :: ChainAt(d.w.store, k) <= ChainAt(d'.w.store, k)
    ensures AllGenuine(d')
  {
    forall i | 0 <= i < |d'.e.marked| ensures Genuine(d'.w.store, d'.e.marked[i]) {
      GenuineStable(d.w.store, d'.w.store, d.e.marked[i]);
    }
  }

  /** Actors that have returned keep what they were promised when the chain grows. */
  lemma DoneStable(w: P.World, w': P.World, a: P.Actor)
    requires a in w.pcs && a in w.frames && w.pcs[a].Done? && PI.ActorOk(w, a)
    requires w'.pcs == w.pcs && w'.frames == w.frames && w'.root == w.root
    requires forall k :: ChainAt(w.store, k) <= ChainAt(w'.store, k)
    ensures PI.ActorOk(w', a)
  {
    var k := P.KeyOf(w, a);
    assert ChainAt(w.store, k) <= ChainAt(w'.store, k);
  }

  lemma TerminatorContinues(w: P.World, k: string, id: nat)
    requires PI.Inv(w) && AllDone(w) && k in w.installed
    ensures w.installed[k] in w.heap && Continues(ChainAt(w.store, k), k, Terminator(w, k, id))
    ensures w.heap[w.installed[k]].holder == None && w.heap[w.installed[k]].chain == k
    ensures TerminateNext(w, k, id).heap[w.installed[k]].view == TailView(ChainAt(w.store, k) + [Terminator(w, k, id)])
  {
    assert PI.ChainOk(w, k);
  }

  lemma TerminateChains(w: P.World, k: string, id: nat)
    requires PI.Inv(w) && AllDone(w) && k in w.installed && w.installed[k] in w.heap
    ensures PI.ChainsOk(TerminateNext(w, k, id))
  {
    var w' := TerminateNext(w, k, id);
    TerminatorContinues(w, k, id);
    forall j ensures PI.ChainOk(w', j) {
      PS.AppendAt(w.store, k, Terminator(w, k, id), j);
      assert PI.ChainOk(w, j);
      if j == k {
        LinkedAppend(ChainAt(w.store, k), k, Terminator(w, k, id));
      }
    }
  }

  lemma TerminateReceipts(w: P.World, k: string, id: nat)
    requires PI.Inv(w) && AllDone(w) && k in w.installed && w.installed[k] in w.heap
    ensures PI.Accounted(TerminateNext(w, k, id)) && PI.DelegationsOk(TerminateNext(w, k, id).store)
    ensures PI.FirstLinksOk(TerminateNext(w, k, id))
  {
    var w', r := TerminateNext(w, k, id), Terminator(w, k, id);
    forall a, j, i | a in w'.pcs && a in w'.frames && j in w'.store && 0 <= i < |w'.store[j]|
      ensures PI.ReceiptAccounted(w', a, j, w'.store[j][i])
    {
      PS.AppendAt(w.store, k, r, j);
      if j != k || i < |ChainAt(w.store, k)| {
        assert PI.ReceiptAccounted(w, a, j, w.store[j][i]);
      }
    }
    var st: Store := w'.store;
    forall j: string, i: int | j in st && 0 <= i < |st[j]| && st[j][i].delegation.Some?
      ensures i == 0 && PI.NamesStored(st, j, st[j][i].delegation.value)
    {
      PS.AppendAt(w.store, k, r, j);
      assert st[j][i] == w.store[j][i];
      PS.NamesStoredStable(w.store, k, r, j, st[j][i].delegation.value);
    }
    forall j | j in w'.firstSeen
      ensures ChainAt(w'.store, j) != [] &&
              PI.LinkOk(w', P.Backlink(ChainAt(w'.store, j)[0].delegation, Some(w'.firstSeen[j])))
    {
      PS.AppendAt(w.store, k, r, j);
      PS.AppendAt(w.store, k, r, w.root);
    }
  }

  lemma TerminateGrows(w: P.World, k: string, id: nat)
    requires k in w.installed && w.installed[k] in w.heap
    ensures forall j :: ChainAt(w.store, j) <= ChainAt(TerminateNext(w, k, id).store, j)
    ensures forall j :: j != k ==> ChainAt(TerminateNext(w, k, id).store, j) == ChainAt(w.store, j)
  {
    forall j ensures ChainAt(TerminateNext(w, k, id).store, j) ==
                       if j == k then ChainAt(w.store, k) + [Terminator(w, k, id)] else ChainAt(w.store, j) {
      PS.AppendAt(w.store, k, Terminator(w, k, id), j);
    }
  }

  lemma TerminateInv(w: P.World, k: string, id: nat)
    requires PI.Inv(w) && AllDone(w) && k in w.installed && w.installed[k] in w.heap
    ensures PI.Inv(TerminateNext(w, k, id))
  {
    var w' := TerminateNext(w, k, id);
    TerminateChains(w, k, id);
    TerminateReceipts(w, k, id);
    TerminateGrows(w, k, id);
    forall a | a in w'.pcs ensures a in w'.frames && PI.ActorOk(w', a) {
      assert PI.ActorOk(w, a);
      DoneStable(w, w', a);
    }
  }

  // ---------- the emitter side ----------

  /** Only a call that starts marks, and what it marks is the head it was given. */
  lemma MarkGenuine(d: Daemon, t: M.Step)
    requires AllGenuine(d) && M.IsMark(t) && M.Enabled(d.e, t) && Genuine(d.w.store, M.JobOf(t))
    ensures AllGenuine(d.(e := M.Next(d.e, t)))
  {
    M.MarkEffect(d.e, t);
  }

  lemma MarkRaises(e: M.Emitter, t: M.Step)
    requires M.IsMark(t) && M.Enabled(e, t)
    ensures forall k :: M.Get(e.lastSeq, k) <= M.Get(M.Next(e, t).lastSeq, k)
    ensures t.FlushCall? ==> M.Get(M.Next(e, t).lastSeq, t.chain) >= t.sequence
    ensures M.Next(e, t).closed == e.closed && M.Next(e, t).stopAt == e.stopAt && M.Next(e, t).sent == e.sent
  {
    M.MarkEffect(e, t);
  }

  lemma InternalKeeps(e: M.Emitter, t: M.Step)
    requires M.Enabled(e, t) && Internal(t)
    ensures M.Next(e, t).marked == e.marked && M.Next(e, t).lastSeq == e.lastSeq
    ensures Quiet(e) ==> Quiet(M.Next(e, t)) && M.Next(e, t).sent == e.sent
    ensures !M.IsClose(t) ==> M.Next(e, t).closed == e.closed && M.Next(e, t).stopAt == e.stopAt
    ensures M.IsClose(t) ==> (M.Next(e, t).stopAt == e.stopAt || M.Next(e, t).stopAt == Some(|e.sent|))
  {
    M.NoMark(e, t);
  }

  /** The steps of a call end in Returned, and no call comes into being. */
  lemma InternalCalls(e: M.Emitter, t: M.Step)
    requires M.Enabled(e, t) && Internal(t)
    ensures M.Next(e, t).calls.Keys == e.calls.Keys
    ensures forall id :: id in e.calls && e.calls[id].Returned? ==> M.Next(e, t).calls[id].Returned?
  {
    if M.IsHand(t) {
      M.HandHolds(e, t);
    } else {
      M.NoCall(e, t);
    }
  }

  // ---------- every step keeps the invariant ----------

  lemma WorkCalls(d: Daemon, s: Step)
    requires CallsOk(d) && Enabled(d, s) && s.Work?
    ensures CallsOk(Next(d, s))
  {
    PT.StepMovesOne(d.w, s.s);
  }

  lemma WorkInv(d: Daemon, s: Step)
    requires Inv(d) && Enabled(d, s) && s.Work?
    ensures Inv(Next(d, s))
  {
    var d' := Next(d, s);
    PS.StepInv(d.w, s.s);
    PT.StepGrows(d.w, s.s);
    AllGenuineStable(d, d');
    WorkCalls(d, s);
    assert d'.phase.Serving? && d'.e == d.e && d'.flushed == d.flushed;
  }

  /** The head of a receipt that has just been committed. */
  lemma ObserveHead(w: P.World, a: P.Actor, id: nat)
    requires PI.Inv(w) && a in w.pcs && w.pcs[a].Observe?
    ensures a in w.frames
    ensures var live := w.pcs[a].live; var k := P.KeyOf(w, a);
            live.chain == k && live.kind == Live(a) && 1 <= live.sequence <= |ChainAt(w.store, k)| &&
            ChainAt(w.store, k)[live.sequence - 1] == live && Genuine(w.store, M.JobOf(ObserveStep(live, id)))
  {
    assert PI.ActorOk(w, a) && PI.ChainOk(w, P.KeyOf(w, a));
    ObservedHead(w, a, id);
  }

  lemma ObservedHead(w: P.World, a: P.Actor, id: nat)
    requires a in w.pcs && a in w.frames && w.pcs[a].Observe? && PI.ActorOk(w, a) && PI.ChainOk(w, P.KeyOf(w, a))
    ensures var live := w.pcs[a].live; var k := P.KeyOf(w, a);
            live.chain == k && live.kind == Live(a) && 1 <= live.sequence <= |ChainAt(w.store, k)| &&
            ChainAt(w.store, k)[live.sequence - 1] == live && Genuine(w.store, M.JobOf(ObserveStep(live, id)))
  {
    var live, k := w.pcs[a].live, P.KeyOf(w, a);
    LinkedAt(ChainAt(w.store, k), k, live.sequence - 1);
  }

  lemma ObserveInv(d: Daemon, s: Step)
    requires Inv(d) && Enabled(d, s) && s.Observe?
    ensures Inv(Next(d, s))
  {
    var t := ObserveStep(d.w.pcs[s.actor].live, s.actor);
    ObserveHead(d.w, s.actor, s.actor);
    T.StepInv(d.e, t);
    MarkGenuine(d, t);
    ObservePhase(d, s);
  }

  lemma ObservePhase(d: Daemon, s: Step)
    requires PhaseOk(d) && Enabled(d, s) && s.Observe?
    ensures PhaseOk(Next(d, s))
  {
    var t := ObserveStep(d.w.pcs[s.actor].live, s.actor);
    M.MarkEffect(d.e, t);
    MarkRaises(d.e, t);
  }

  lemma ObserveReturnedInv(d: Daemon, s: Step)
    requires Inv(d) && Enabled(d, s) && s.ObserveReturned?
    ensures Inv(Next(d, s))
  {
    var p := P.Go(s.actor, P.Choice(true, 0));
    PS.StepInv(d.w, p);
    AllGenuineStable(d, Next(d, s));
  }

  lemma EmitterInv(d: Daemon, s: Step)
    requires Inv(d) && Enabled(d, s) && s.Emitter?
    ensures Inv(Next(d, s))
  {
    T.StepInv(d.e, s.t);
    InternalKeeps(d.e, s.t);
    InternalCalls(d.e, s.t);
  }

  lemma TerminatePhaseInv(d: Daemon, s: Step)
    requires Inv(d) && Enabled(d, s) && s.Terminate?
    ensures Inv(Next(d, s))
  {
    TerminateInv(d.w, s.chain, s.id);
    TerminateGrows(d.w, s.chain, s.id);
    AllGenuineStable(d, Next(d, s));
  }

  /** The head FlushCheckpoints reads from the store is a stored receipt, at the length of the chain. */
  lemma FlushHead(w: P.World, k: string, id: nat)
    requires PI.ChainOk(w, k) && ChainAt(w.store, k) != []
    ensures var t := FlushStep(w.store, k, id);
            M.IsMark(t) && t.chain == k && t.sequence == |ChainAt(w.store, k)| && Genuine(w.store, M.JobOf(t))
  {
    LinkedAt(ChainAt(w.store, k), k, |ChainAt(w.store, k)| - 1);
  }

  lemma FlushPhase(d: Daemon, s: Step)
    requires PhaseOk(d) && PI.ChainsOk(d.w) && Enabled(d, s) && s.Flush?
    ensures PhaseOk(Next(d, s))
  {
    assert PI.ChainOk(d.w, s.chain);
    FlushHead(d.w, s.chain, s.call);
    MarkRaises(d.e, FlushStep(d.w.store, s.chain, s.call));
  }

  lemma FlushInv(d: Daemon, s: Step)
    requires Inv(d) && Enabled(d, s) && s.Flush?
    ensures Inv(Next(d, s))
  {
    var t := FlushStep(d.w.store, s.chain, s.call);
    assert PI.ChainOk(d.w, s.chain);
    FlushHead(d.w, s.chain, s.call);
    T.StepInv(d.e, t);
    MarkGenuine(d, t);
    FlushPhase(d, s);
  }

  lemma StepInv(d: Daemon, s: Step)
    requires Inv(d) && Enabled(d, s)
    ensures Inv(Next(d, s))
  {
    match s
    case Work(_) => WorkInv(d, s);
    case Observe(_) => ObserveInv(d, s);
    case ObserveReturned(_) => ObserveReturnedInv(d, s);
    case Emitter(_) => EmitterInv(d, s);
    case HandlersDone =>
    case Terminate(_, _) => TerminatePhaseInv(d, s);
    case TerminatorsDone =>
    case Flush(_, _) => FlushInv(d, s);
    case SkipFlush(_) =>
    case FlushesDone =>
    case Abandon => AbandonInv(d);
  }

  /** When all frames have been handled, no emitter call is in progress. */
  lemma AbandonInv(d: Daemon)
    requires Inv(d) && Enabled(d, Abandon)
    ensures Inv(Next(d, Abandon))
  {
    assert Quiet(d.e);
  }

  lemma {:induction false} RunInv(d: Daemon, steps: seq<Step>, d': Daemon)
    requires Inv(d) && Runs(d, steps, d')
    ensures Inv(d')
    decreases |steps|
  {
    if steps != [] {
      StepInv(d, steps[0]);
      RunInv(Next(d, steps[0]), steps[1..], d');
    }
  }

  ghost predicate Reached(root: string, signer: PublicKey, st: Store, cadence: nat, depth: nat, steps: seq<Step>,
                          d: Daemon) {
    PT.StoreOk(st) && Runs(Started(root, signer, st, cadence, depth), steps, d)
  }

  lemma ReachedInv(root: string, signer: PublicKey, st: Store, cadence: nat, depth: nat, steps: seq<Step>, d: Daemon)
    requires Reached(root, signer, st, cadence, depth, steps, d)
    ensures Inv(d)
  {
    StartedInv(root, signer, st, cadence, depth);
    RunInv(Started(root, signer, st, cadence, depth), steps, d);
  }
}
