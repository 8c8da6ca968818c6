/**
 The emitter object itself: its fields, and Observe, Flush, the worker loop and Close as they run
 when nothing interrupts them.

 `model` is the machine state the object stands for and `history` the machine steps taken so far.
 Valid says that the history is a run of the machine from a new emitter and that the fields show
 its last state, so everything proved about reachable machine states holds between calls.
 */
module CheckpointEmitter {
  import opened Receipts
  import M = EmitterMachine
  import T = EmitterTheorems

  /** The fields of the object as one value. */
  datatype Face = Face(
    cadence: nat, depth: nat,
    counts: map<string, nat>, lastSeq: map<string, nat>,
    queue: seq<M.Job>, closed: bool, exited: bool,
    sink: seq<M.Job>, failures: nat, dropped: nat)

  function FaceOf(e: M.Emitter): Face {
    Face(e.cadence, e.depth, e.counts, e.lastSeq, e.queue, e.closed, e.worker.Exited?,
         e.written, |e.failed|, |e.dropped|)
  }

  function Enqueued(f: Face, j: M.Job): Face {
    if f.closed || |f.queue| >= f.depth then f.(dropped := f.dropped + 1) else f.(queue := f.queue + [j])
  }

  /** Observe: count, and at the cadence mark the head if it is new and try to queue it. */
  function Observed(f: Face, j: M.Job): Face
    requires j.Head?
  {
    var n := M.Get(f.counts, j.chain) + 1;
    if n < f.cadence then f.(counts := f.counts[j.chain := n])
    else if j.sequence <= M.Get(f.lastSeq, j.chain) then f.(counts := f.counts[j.chain := 0])
    else Enqueued(f.(counts := f.counts[j.chain := 0], lastSeq := f.lastSeq[j.chain := j.sequence]), j)
  }

  /** The jobs of `q` that end up in the sink, in order. */
  function Survivors(q: seq<M.Job>, sinkOk: M.Job -> bool): seq<M.Job> {
    if q == [] then []
    else (if q[0].Head? && sinkOk(q[0]) then [q[0]] else []) + Survivors(q[1..], sinkOk)
  }

  function Failing(q: seq<M.Job>, sinkOk: M.Job -> bool): nat {
    if q == [] then 0 else M.One(q[0].Head? && !sinkOk(q[0])) + Failing(q[1..], sinkOk)
  }

  /** The worker has handled everything that was queued. */
  function Drained(f: Face, sinkOk: M.Job -> bool): Face {
    f.(queue := [], sink := f.sink + Survivors(f.queue, sinkOk), failures := f.failures + Failing(f.queue, sinkOk))
  }

  /** Flush of an open emitter: a head not marked yet goes through the queue to the sink; none is dropped. */
  function Flushed(f: Face, j: M.Job, sinkOk: M.Job -> bool): Face
    requires j.Head?
  {
    var f1 := f.(counts := f.counts[j.chain := 0]);
    if j.sequence <= M.Get(f.lastSeq, j.chain) then f1
    else
      var f2 := Drained(f1.(lastSeq := f.lastSeq[j.chain := j.sequence]), sinkOk);
      Drained(f2.(queue := [j]), sinkOk)
  }

  /**
   Flush after the worker has exited. Both cases of its select are ready then: the head is emitted
   inline, or, if the send is picked and there is room, it stays in the queue for good.
   */
  function FlushedLate(f: Face, j: M.Job, ok: bool, picksSend: bool): Face
    requires j.Head?
  {
    var f1 := f.(counts := f.counts[j.chain := 0]);
    if j.sequence <= M.Get(f.lastSeq, j.chain) then f1
    else
      Handed(f1.(lastSeq := f.lastSeq[j.chain := j.sequence]), j, ok, picksSend)
  }

  function Handed(f: Face, j: M.Job, ok: bool, picksSend: bool): Face {
    if picksSend && |f.queue| < f.depth then f.(queue := f.queue + [j])
    else if ok then f.(sink := f.sink + [j])
    else f.(failures := f.failures + 1)
  }

  /** With a sink that never fails nothing is lost on the way out of the queue. */
  lemma {:induction false} NoFaultNoLoss(q: seq<M.Job>, sinkOk: M.Job -> bool)
    requires forall j :: sinkOk(j)
    ensures Failing(q, sinkOk) == 0
    ensures forall j: M.Job :: j.Head? ==> multiset(Survivors(q, sinkOk))[j] == multiset(q)[j]
  {
    if q != [] {
      NoFaultNoLoss(q[1..], sinkOk);
      assert q == [q[0]] + q[1..];
    }
  }

  // ---------- each call is a run of the machine ----------

  lemma MarkRun(e: M.Emitter, s: M.Step, j: M.Job)
    requires M.IsMark(s) && s.id !in e.calls && j == M.JobOf(s)
    ensures var e' := M.Next(e, s); var f := FaceOf(e);
            if s.ObserveCall? && M.Get(f.counts, j.chain) + 1 < f.cadence
            then FaceOf(e') == f.(counts := f.counts[j.chain := M.Get(f.counts, j.chain) + 1]) &&
              e'.calls == e.calls[s.id := M.Returned]
            else if j.sequence <= M.Get(f.lastSeq, j.chain)
            then FaceOf(e') == f.(counts := f.counts[j.chain := 0]) && e'.calls == e.calls[s.id := M.Returned]
            else FaceOf(e') == f.(counts := f.counts[j.chain := 0], lastSeq := f.lastSeq[j.chain := j.sequence]) &&
                 e'.calls == e.calls[s.id := if s.ObserveCall? then M.Marked(j) else M.FlushSending(j)]
    ensures M.Next(e, s).worker == e.worker && M.Next(e, s).stopAt == e.stopAt
  {
  }

  lemma EnqueueRun(e: M.Emitter, id: nat, j: M.Job) returns (steps: seq<M.Step>, e': M.Emitter)
    requires id in e.calls && e.calls[id] == M.Marked(j)
    ensures M.Runs(e, steps, e') && FaceOf(e') == Enqueued(FaceOf(e), j)
    ensures e'.calls == e.calls[id := M.Returned] && e'.worker == e.worker && e'.stopAt == e.stopAt
  {
    var e1 := M.Next(e, M.CheckClosed(id));
    T.OneStep(e, M.CheckClosed(id));
    if e.closed {
      steps, e' := [M.CheckClosed(id)], e1;
    } else {
      e' := M.Next(e1, M.TrySend(id));
      T.OneStep(e1, M.TrySend(id));
      T.RunsConcat(e, [M.CheckClosed(id)], e1, [M.TrySend(id)], e');
      steps := [M.CheckClosed(id)] + [M.TrySend(id)];
    }
  }

  lemma ObserveRun(e: M.Emitter, id: nat, j: M.Job) returns (steps: seq<M.Step>, e': M.Emitter)
    requires id !in e.calls && j.Head?
    ensures M.Runs(e, steps, e') && FaceOf(e') == Observed(FaceOf(e), j)
    ensures e'.calls == e.calls[id := M.Returned] && e'.worker == e.worker && e'.stopAt == e.stopAt
  {
    var s := M.ObserveCall(id, j.chain, j.sequence, j.hash);
    var e1 := M.Next(e, s);
    MarkRun(e, s, j);
    T.OneStep(e, s);
    steps, e' := [s], e1;
    if e1.calls[id] != M.Returned {
      var more;
      more, e' := EnqueueRun(e1, id, j);
      T.RunsConcat(e, [s], e1, more, e');
      steps := [s] + more;
    }
  }

  /** What was sent is what was handled plus what is queued: an idle worker's share of the invariant. */
  predicate Flows(e: M.Emitter) {
    e.sent == e.handled + e.queue
  }

  lemma FlowsOf(e: M.Emitter)
    requires M.Inv(e) && M.Current(e.worker) == []
    ensures Flows(e)
  {
    assert e.handled + [] + e.queue == e.handled + e.queue;
  }

  /** One turn of the worker. */
  function Handled(e: M.Emitter, ok: bool): M.Emitter
    requires e.queue != []
  {
    M.FinishNext(M.TakeNext(e), e.queue[0], ok)
  }

  lemma HandledRuns(e: M.Emitter, ok: bool)
    requires (e.worker.Waiting? || e.worker.Draining?) && e.queue != []
    ensures M.Runs(e, [M.Take] + [M.Finish(ok)], Handled(e, ok))
  {
    var e1 := M.TakeNext(e);
    T.OneStep(e, M.Take);
    T.OneStep(e1, M.Finish(ok));
    T.RunsConcat(e, [M.Take], e1, [M.Finish(ok)], Handled(e, ok));
  }

  lemma HandledFlows(e: M.Emitter, ok: bool)
    requires (e.worker.Waiting? || e.worker.Draining?) && e.queue != [] && Flows(e)
    ensures var e2 := Handled(e, ok);
            Flows(e2) && e2.worker == e.worker && e2.calls == e.calls && e2.stopAt == e.stopAt && e2.sent == e.sent
  {
    T.FinishEffect(M.TakeNext(e), ok);
    assert e.handled + [e.queue[0]] + e.queue[1..] == e.handled + e.queue;
  }

  lemma HandledFace(e: M.Emitter, ok: bool)
    requires (e.worker.Waiting? || e.worker.Draining?) && e.queue != []
    ensures var j := e.queue[0];
            FaceOf(Handled(e, ok)) == FaceOf(e).(queue := e.queue[1..],
                                     sink := e.written + (if j.Head? && ok then [j] else []),
                                     failures := |e.failed| + M.One(j.Head? && !ok))
  {
    assert e.written + [] == e.written;
  }

  lemma {:induction false} DrainRun(e: M.Emitter, sinkOk: M.Job -> bool) returns (steps: seq<M.Step>, e': M.Emitter)
    requires (e.worker.Waiting? || e.worker.Draining?) && Flows(e)
    ensures M.Runs(e, steps, e') && FaceOf(e') == Drained(FaceOf(e), sinkOk)
    ensures e'.worker == e.worker && e'.calls == e.calls && e'.stopAt == e.stopAt
    ensures e'.sent == e.sent && e'.handled == e.sent
    decreases |e.queue|
  {
    if e.queue == [] {
      steps, e' := [], e;
      assert e.written + [] == e.written && e.handled + [] == e.handled;
    } else {
      var j := e.queue[0];
      var e2 := Handled(e, sinkOk(j));
      HandledRuns(e, sinkOk(j));
      HandledFlows(e, sinkOk(j));
      HandledFace(e, sinkOk(j));
      var more;
      more, e' := DrainRun(e2, sinkOk);
      T.RunsConcat(e, [M.Take] + [M.Finish(sinkOk(j))], e2, more, e');
      steps := [M.Take] + [M.Finish(sinkOk(j))] + more;
      DrainFirst(FaceOf(e), sinkOk);
    }
  }

  /** Draining is handling the first job and draining the rest. */
  lemma DrainFirst(f: Face, sinkOk: M.Job -> bool)
    requires f.queue != []
    ensures var j := f.queue[0];
            Drained(f.(queue := f.queue[1..],
                       sink := f.sink + (if j.Head? && sinkOk(j) then [j] else []),
                       failures := f.failures + M.One(j.Head? && !sinkOk(j))), sinkOk) == Drained(f, sinkOk)
  {
    var one := if f.queue[0].Head? && sinkOk(f.queue[0]) then [f.queue[0]] else [];
    assert f.sink + one + Survivors(f.queue[1..], sinkOk) == f.sink + (one + Survivors(f.queue[1..], sinkOk));
  }

  lemma FlushSent(e: M.Emitter, id: nat, j: M.Job) returns (e1: M.Emitter)
    requires id in e.calls && e.calls[id] == M.FlushSending(j) && e.worker.Waiting? && e.depth >= 1
    requires e.queue == [] && e.handled == e.sent
    ensures M.Runs(e, [M.FlushSend(id)], e1) && FaceOf(e1) == FaceOf(e).(queue := [j])
    ensures e1.worker.Waiting? && Flows(e1) && e1.sent == e.sent + [j]
    ensures e1.calls == e.calls[id := M.FlushWaiting(|e.sent|, j)]
  {
    e1 := M.Next(e, M.FlushSend(id));
    T.OneStep(e, M.FlushSend(id));
    assert [] + [j] == [j];
  }

  lemma FlushReturned(e: M.Emitter, id: nat) returns (e1: M.Emitter)
    requires id in e.calls && e.calls[id].FlushWaiting? && e.calls[id].position < |e.handled|
    ensures M.Runs(e, [M.FlushReturn(id)], e1) && FaceOf(e1) == FaceOf(e)
    ensures e1.worker == e.worker && e1.calls == e.calls[id := M.Returned]
  {
    e1 := M.Next(e, M.FlushReturn(id));
    T.OneStep(e, M.FlushReturn(id));
  }

  /** The send, the worker's handling and the return of a Flush that found the queue empty. */
  lemma FlushTail(e: M.Emitter, id: nat, j: M.Job, sinkOk: M.Job -> bool) returns (steps: seq<M.Step>, e': M.Emitter)
    requires id in e.calls && e.calls[id] == M.FlushSending(j) && e.worker.Waiting? && e.depth >= 1
    requires e.queue == [] && e.handled == e.sent
    ensures M.Runs(e, steps, e') && FaceOf(e') == Drained(FaceOf(e).(queue := [j]), sinkOk)
    ensures e'.calls == e.calls[id := M.Returned] && e'.worker == e.worker
  {
    var e1 := FlushSent(e, id, j);
    var t2, e2 := DrainRun(e1, sinkOk);
    e' := FlushReturned(e2, id);
    T.RunsConcat(e1, t2, e2, [M.FlushReturn(id)], e');
    T.RunsConcat(e, [M.FlushSend(id)], e1, t2 + [M.FlushReturn(id)], e');
    steps := [M.FlushSend(id)] + (t2 + [M.FlushReturn(id)]);
  }

  /** A Flush that has marked its head. */
  lemma FlushMarked(e: M.Emitter, id: nat, j: M.Job, sinkOk: M.Job -> bool) returns (steps: seq<M.Step>, e': M.Emitter)
    requires Flows(e) && id in e.calls && e.calls[id] == M.FlushSending(j) && e.worker.Waiting? && e.depth >= 1
    ensures M.Runs(e, steps, e') && FaceOf(e') == Drained(Drained(FaceOf(e), sinkOk).(queue := [j]), sinkOk)
    ensures e'.calls == e.calls[id := M.Returned] && e'.worker == e.worker
  {
    var t1, e1 := DrainRun(e, sinkOk);
    var t2;
    t2, e' := FlushTail(e1, id, j, sinkOk);
    T.RunsConcat(e, t1, e1, t2, e');
    steps := t1 + t2;
  }

  /** The critical section of Flush leaves the queue and the worker alone. */
  lemma FlushCalled(e: M.Emitter, s: M.Step) returns (e1: M.Emitter)
    requires Flows(e) && s.FlushCall? && s.id !in e.calls
    ensures e1 == M.Next(e, s) && M.Runs(e, [s], e1) && Flows(e1) && e1.worker == e.worker && e1.depth == e.depth
  {
    e1 := M.Next(e, s);
    M.MarkEffect(e, s);
    T.OneStep(e, s);
  }

  lemma FlushRun(e: M.Emitter, id: nat, j: M.Job, sinkOk: M.Job -> bool) returns (steps: seq<M.Step>, e': M.Emitter)
    requires Flows(e) && id !in e.calls && j.Head? && e.worker.Waiting? && e.depth >= 1
    ensures M.Runs(e, steps, e') && FaceOf(e') == Flushed(FaceOf(e), j, sinkOk)
    ensures e'.calls == e.calls[id := M.Returned] && e'.worker == e.worker
  {
    var s := M.FlushCall(id, j.chain, j.sequence, j.hash);
    var e1 := FlushCalled(e, s);
    MarkRun(e, s, j);
    if j.sequence <= M.Get(e.lastSeq, j.chain) {
      steps, e' := [s], e1;
    } else {
      var more;
      more, e' := FlushMarked(e1, id, j, sinkOk);
      FlushJoins(e, s, e1, more, e');
      steps := [s] + more;
    }
  }

  lemma FlushJoins(e: M.Emitter, s: M.Step, e1: M.Emitter, more: seq<M.Step>, e': M.Emitter)
    requires M.Runs(e, [s], e1) && M.Runs(e1, more, e')
    ensures M.Runs(e, [s] + more, e')
  {
    T.RunsConcat(e, [s], e1, more, e');
  }

  lemma FlushLateRun(e: M.Emitter, id: nat, j: M.Job, ok: bool, picksSend: bool)
    returns (steps: seq<M.Step>, e': M.Emitter)
    requires e.worker.Exited? && id !in e.calls && j.Head?
    ensures M.Runs(e, steps, e') && FaceOf(e') == FlushedLate(FaceOf(e), j, ok, picksSend)
    ensures e'.calls == e.calls[id := M.Returned] && e'.worker == e.worker
  {
    var s := M.FlushCall(id, j.chain, j.sequence, j.hash);
    var e1 := M.Next(e, s);
    M.MarkEffect(e, s);
    MarkRun(e, s, j);
    T.OneStep(e, s);
    if j.sequence <= M.Get(e.lastSeq, j.chain) {
      steps, e' := [s], e1;
    } else {
      var more;
      more, e' := FlushLateTail(e1, id, j, ok, picksSend);
      T.RunsConcat(e, [s], e1, more, e');
      steps := [s] + more;
    }
  }

  lemma FlushLateTail(e: M.Emitter, id: nat, j: M.Job, ok: bool, picksSend: bool)
    returns (steps: seq<M.Step>, e': M.Emitter)
    requires e.worker.Exited? && id in e.calls && e.calls[id] == M.FlushSending(j) && j.Head?
    ensures M.Runs(e, steps, e') && e'.calls == e.calls[id := M.Returned] && e'.worker == e.worker
    ensures FaceOf(e') == Handed(FaceOf(e), j, ok, picksSend)
  {
    if picksSend && |e.queue| < e.depth {
      var e1 := M.Next(e, M.FlushSend(id));
      e' := M.Next(e1, M.FlushReturn(id));
      T.OneStep(e, M.FlushSend(id));
      T.OneStep(e1, M.FlushReturn(id));
      T.RunsConcat(e, [M.FlushSend(id)], e1, [M.FlushReturn(id)], e');
      steps := [M.FlushSend(id)] + [M.FlushReturn(id)];
    } else {
      T.OneStep(e, M.FlushInline(id, ok));
      steps, e' := [M.FlushInline(id, ok)], M.Next(e, M.FlushInline(id, ok));
    }
  }

  /** The two steps of Close and the worker's notice. */
  lemma StopRun(e: M.Emitter) returns (steps: seq<M.Step>, e': M.Emitter)
    requires !e.closed && e.stopAt == None && e.worker.Waiting?
    ensures M.Runs(e, steps, e')
    ensures e' == e.(closed := true, stopAt := Some(|e.sent|), worker := M.Draining)
  {
    var e1 := M.Next(e, M.SetClosed);
    var e2 := M.Next(e1, M.Stop);
    e' := M.Next(e2, M.NoticeStop);
    T.OneStep(e, M.SetClosed);
    T.OneStep(e1, M.Stop);
    T.OneStep(e2, M.NoticeStop);
    T.RunsConcat(e1, [M.Stop], e2, [M.NoticeStop], e');
    T.RunsConcat(e, [M.SetClosed], e1, [M.Stop] + [M.NoticeStop], e');
    steps := [M.SetClosed] + ([M.Stop] + [M.NoticeStop]);
  }

  lemma CloseRun(e: M.Emitter, sinkOk: M.Job -> bool) returns (steps: seq<M.Step>, e': M.Emitter)
    requires Flows(e) && !e.closed && e.stopAt == None && e.worker.Waiting?
    ensures M.Runs(e, steps, e')
    ensures FaceOf(e') == Drained(FaceOf(e), sinkOk).(closed := true, exited := true)
    ensures e'.calls == e.calls && e'.worker.Exited? && e'.handled == e'.sent == e.sent
  {
    var t1, e1 := StopRun(e);
    var t2, e2 := DrainRun(e1, sinkOk);
    e' := M.Next(e2, M.Exit);
    T.OneStep(e2, M.Exit);
    T.RunsConcat(e1, t2, e2, [M.Exit], e');
    T.RunsConcat(e, t1, e1, t2 + [M.Exit], e');
    steps := t1 + (t2 + [M.Exit]);
  }

  // ---------- the object ----------

  class Emitter {
    const cadence: nat
    const depth: nat
    var counts: map<string, nat>
    var lastSeq: map<string, nat>
    var workerCh: seq<M.Job>
    var closed: bool
    var exited: bool
    var sink: seq<M.Job>
    var failures: nat
    var dropped: nat
    ghost var model: M.Emitter
    ghost var history: seq<M.Step>

    function View(): Face
      reads this
    {
      Face(cadence, depth, counts, lastSeq, workerCh, closed, exited, sink, failures, dropped)
    }

    ghost predicate Valid()
      reads this
    {
      && cadence >= 1 && depth >= 1 && T.Reached(cadence, depth, history, model)
      && View() == FaceOf(model)
      && (if closed then model.worker.Exited? else model.worker.Waiting?)
    }

    constructor (cadence: nat, depth: nat)
      ensures Valid() && View() == FaceOf(M.NewEmitter(cadence, depth)) && model.calls == map[]
    {
      this.cadence, this.depth := M.AtLeastOne(cadence), M.AtLeastOne(depth);
      counts, lastSeq, workerCh, closed, exited := map[], map[], [], false, false;
      sink, failures, dropped := [], 0, 0;
      model, history := M.NewEmitter(cadence, depth), [];
    }

    /** The machine has moved on by `steps`. */
    ghost method Advance(steps: seq<M.Step>, e: M.Emitter)
      requires T.Reached(cadence, depth, history, model) && M.Runs(model, steps, e)
      modifies this`model, this`history
      ensures T.Reached(cadence, depth, history, model) && model == e
    {
      T.RunsConcat(M.NewEmitter(cadence, depth), history, model, steps, e);
      model, history := e, history + steps;
    }

    /** Reports whether a checkpoint at `sequence` is to be emitted, and records it when so. */
    method MarkEmitLocked(chain: string, sequence: nat) returns (emit: bool)
      modifies this`lastSeq
      ensures emit <==> sequence > M.Get(old(lastSeq), chain)
      ensures lastSeq == if emit then old(lastSeq)[chain := sequence] else old(lastSeq)
    {
      if sequence <= M.Get(lastSeq, chain) {
        return false;
      }
      lastSeq := lastSeq[chain := sequence];
      return true;
    }

    /** Never blocks: a closed emitter or a full queue drops the job and counts it. */
    method Enqueue(job: M.Job)
      modifies this`workerCh, this`dropped
      ensures View() == Enqueued(old(View()), job)
    {
      if closed {
        dropped := dropped + 1;
        return;
      }
      if |workerCh| < depth {
        workerCh := workerCh + [job];
      } else {
        dropped := dropped + 1;
      }
    }

    method Observe(chain: string, sequence: nat, hash: Hash, ghost id: nat)
      requires Valid() && id !in model.calls
      modifies this
      ensures Valid() && View() == Observed(old(View()), M.Head(chain, sequence, hash))
      ensures model.calls == old(model.calls)[id := M.Returned]
    {
      ghost var steps, e := ObserveRun(model, id, M.Head(chain, sequence, hash));
      var n := M.Get(counts, chain) + 1;
      var emit := false;
      if n >= cadence {
        counts := counts[chain := 0];
        emit := MarkEmitLocked(chain, sequence);
      } else {
        counts := counts[chain := n];
      }
      if emit {
        Enqueue(M.Head(chain, sequence, hash));
      }
      Advance(steps, e);
    }

    /** Writes one head or counts the failure; FlushAll's sentinel is a no-op. */
    method Emit(job: M.Job, ok: bool)
      modifies this`sink, this`failures
      ensures sink == old(sink) + (if job.Head? && ok then [job] else [])
      ensures failures == old(failures) + M.One(job.Head? && !ok)
    {
      if job.Sentinel? {
        return;
      }
      if !ok {
        failures := failures + 1;
        return;
      }
      sink := sink + [job];
    }

    /** The worker's drain loop. */
    method Drain(sinkOk: M.Job -> bool)
      modifies this`workerCh, this`sink, this`failures
      ensures View() == Drained(old(View()), sinkOk)
    {
      while workerCh != []
        invariant Drained(View(), sinkOk) == Drained(old(View()), sinkOk)
        decreases |workerCh|
      {
        DrainFirst(View(), sinkOk);
        var job := workerCh[0];
        workerCh := workerCh[1..];
        Emit(job, sinkOk(job));
      }
      assert sink + [] == sink;
    }

    ghost method FlushModel(j: M.Job, sinkOk: M.Job -> bool, id: nat)
      requires T.Reached(cadence, depth, history, model) && model.depth >= 1 && model.worker.Waiting?
      requires id !in model.calls && j.Head?
      modifies this`model, this`history
      ensures T.Reached(cadence, depth, history, model) && model.worker.Waiting?
      ensures FaceOf(model) == Flushed(FaceOf(old(model)), j, sinkOk)
      ensures model.calls == old(model.calls)[id := M.Returned]
    {
      T.ReachedInv(cadence, depth, history, model);
      FlowsOf(model);
      var steps, e := FlushRun(model, id, j, sinkOk);
      Advance(steps, e);
    }

    /** The send blocks until the worker has made room, and the call until its job is handled. */
    method SendAndWait(job: M.Job, sinkOk: M.Job -> bool)
      modifies this`workerCh, this`sink, this`failures
      ensures View() == Drained(Drained(old(View()), sinkOk).(queue := [job]), sinkOk)
    {
      Drain(sinkOk);
      workerCh := workerCh + [job];
      assert workerCh == [job];
      Drain(sinkOk);
    }

    ghost method FlushLateModel(j: M.Job, ok: bool, picksSend: bool, id: nat)
      requires T.Reached(cadence, depth, history, model) && model.worker.Exited? && id !in model.calls && j.Head?
      modifies this`model, this`history
      ensures T.Reached(cadence, depth, history, model) && model.worker.Exited?
      ensures FaceOf(model) == FlushedLate(FaceOf(old(model)), j, ok, picksSend)
      ensures model.calls == old(model.calls)[id := M.Returned]
    {
      var steps, e := FlushLateRun(model, id, j, ok, picksSend);
      Advance(steps, e);
    }

    /** The select of Flush when the worker is gone. */
    method SendOrEmit(job: M.Job, ok: bool, picksSend: bool)
      requires job.Head?
      modifies this`workerCh, this`sink, this`failures
      ensures View() == Handed(old(View()), job, ok, picksSend)
    {
      if picksSend && |workerCh| < depth {
        workerCh := workerCh + [job];
      } else {
        Emit(job, ok);
        assert sink == old(sink) + [] ==> sink == old(sink);
      }
    }

    method Flush(chain: string, sequence: nat, hash: Hash, sinkOk: M.Job -> bool, picksSend: bool, ghost id: nat)
      requires Valid() && id !in model.calls
      modifies this
      ensures Valid() && model.calls == old(model.calls)[id := M.Returned]
      ensures var j := M.Head(chain, sequence, hash);
              View() == if old(closed) then FlushedLate(old(View()), j, sinkOk(j), picksSend)
                        else Flushed(old(View()), j, sinkOk)
    {
      var job := M.Head(chain, sequence, hash);
      if closed {
        FlushLateModel(job, sinkOk(job), picksSend, id);
      } else {
        FlushModel(job, sinkOk, id);
      }
      counts := counts[chain := 0];
      var emit := MarkEmitLocked(chain, sequence);
      if emit {
        Hand(job, sinkOk, picksSend);
      }
    }

    /** From the select on. */
    method Hand(job: M.Job, sinkOk: M.Job -> bool, picksSend: bool)
      requires job.Head?
      modifies this`workerCh, this`sink, this`failures
      ensures View() == if closed then Handed(old(View()), job, sinkOk(job), picksSend)
                        else Drained(Drained(old(View()), sinkOk).(queue := [job]), sinkOk)
    {
      if closed {
        SendOrEmit(job, sinkOk(job), picksSend);
      } else {
        SendAndWait(job, sinkOk);
      }
    }

    /** Everything queued is handled before the worker exits; a second Close changes nothing. */
    method Close(sinkOk: M.Job -> bool)
      requires Valid()
      modifies this
      ensures Valid()
      ensures View() == if old(closed) then old(View())
                        else Drained(old(View()), sinkOk).(closed := true, exited := true)
      ensures !old(closed) ==> model.handled == model.sent == old(model.sent)
    {
      if closed {
        return;
      }
      T.ReachedInv(cadence, depth, history, model);
      FlowsOf(model);
      ghost var steps, e := CloseRun(model, sinkOk);
      closed := true;
      Drain(sinkOk);
      exited := true;
      Advance(steps, e);
    }
  }
}
