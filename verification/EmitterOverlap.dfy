/**
 Exactly when the written log can get out of order.

 `Observe` releases the mutex between marking a head and enqueueing it. If two calls hold marked
 heads of one chain at the same time, the scheduler can send the later one first; the anchor log
 then decreases and its readers reject it although nobody tampered with it.
 */
module EmitterOverlap {
  import opened Receipts
  import opened EmitterMachine
  import opened EmitterTheorems

  /** An open emitter whose worker waits on an empty queue. */
  predicate Idle(e: Emitter) {
    !e.closed && e.worker.Waiting? && e.queue == [] && e.depth >= 1
  }

  /** A sentinel taken out of a sequence of jobs does not matter to the order of the heads. */
  lemma WithoutSentinel(a: seq<Job>, b: seq<Job>, j: Job)
    ensures Increasing(a + b) ==> Increasing(a + [Sentinel] + b)
    ensures Before(a + b, j) ==> Before(a + [Sentinel] + b, j)
  {
    var s, t := a + [Sentinel] + b, a + b;
    assert forall i :: 0 <= i < |s| && s[i].Head? ==> i != |a| && s[i] == t[if i < |a| then i else i - 1];
    if Increasing(t) {
      forall i, k | 0 <= i < k < |s| && s[i].Head? && s[k].Head? && s[i].chain == s[k].chain
        ensures s[i].sequence < s[k].sequence
      {
        assert t[if i < |a| then i else i - 1] == s[i] && t[if k < |a| then k else k - 1] == s[k];
      }
    }
  }

  /** Handling a job with success takes at most a sentinel out of the stream. */
  lemma FinishKeepsStream(e: Emitter, j: Job)
    requires e.worker.Running?
    ensures var e' := FinishNext(e, e.worker.job, true);
            (Increasing(Stream(e')) ==> Increasing(Stream(e))) && (Before(Stream(e'), j) ==> Before(Stream(e), j))
  {
    var m, e' := e.worker.job, FinishNext(e, e.worker.job, true);
    assert [] + e.queue == e.queue;
    if m.Head? {
      assert e.written + [m] + e.queue == e.written + ([m] + e.queue);
    } else {
      WithoutSentinel(e.written, e.queue, j);
      assert e.written + [m] + e.queue == e.written + ([m] + e.queue);
    }
  }

  /** The worker can always get there on its own, writing every head on the way. */
  lemma {:induction false} Settle(e: Emitter, j: Job) returns (steps: seq<Step>, e': Emitter)
    requires !e.closed && (e.worker.Waiting? || e.worker.Running?) && e.depth >= 1
    ensures Runs(e, steps, e') && NoNewCalls(steps) && Idle(e') && e'.calls == e.calls
    ensures Increasing(e'.written) ==> Increasing(Stream(e))
    ensures Before(e'.written, j) ==> Before(Stream(e), j)
    decreases |e.queue|, if e.worker.Running? then 1 else 0
  {
    if e.worker.Waiting? && e.queue == [] {
      steps, e' := [], e;
      assert Stream(e) == e.written;
    } else {
      var s := if e.worker.Running? then Finish(true) else Take;
      var e1 := Next(e, s);
      if e.worker.Running? {
        FinishEffect(e, true);
        FinishKeepsStream(e, j);
      } else {
        assert [] + e.queue == [e.queue[0]] + e.queue[1..];
      }
      OneStep(e, s);
      var more;
      more, e' := Settle(e1, j);
      RunsConcat(e, [s], e1, more, e');
      steps := [s] + more;
    }
  }

  lemma SendIdle(e: Emitter, id: nat, j: Job) returns (steps: seq<Step>, e1: Emitter)
    requires Idle(e) && Holds(e, id, j) && j.Head?
    ensures Runs(e, steps, e1) && NoNewCalls(steps) && e1.queue == [j] && e1.worker.Waiting? && !e1.closed
    ensures e1.written == e.written && e1.depth == e.depth
    ensures id in e1.calls && e1.calls == e.calls[id := e1.calls[id]]
  {
    if e.calls[id].Marked? {
      var m := Next(e, CheckClosed(id));
      OneStep(e, CheckClosed(id));
      OneStep(m, TrySend(id));
      e1 := Next(m, TrySend(id));
      RunsConcat(e, [CheckClosed(id)], m, [TrySend(id)], e1);
      steps := [CheckClosed(id)] + [TrySend(id)];
    } else {
      var s := if e.calls[id].Sending? then TrySend(id) else FlushSend(id);
      OneStep(e, s);
      steps, e1 := [s], Next(e, s);
    }
  }

  lemma WriteIdle(e: Emitter, id: nat, j: Job) returns (steps: seq<Step>, e': Emitter)
    requires Idle(e) && Holds(e, id, j) && j.Head?
    ensures Runs(e, steps, e') && NoNewCalls(steps) && Idle(e')
    ensures e'.written == e.written + [j]
    ensures id in e'.calls && e'.calls == e.calls[id := e'.calls[id]]
  {
    var send, e1 := SendIdle(e, id, j);
    var e2 := Next(e1, Take);
    OneStep(e1, Take);
    e' := Next(e2, Finish(true));
    OneStep(e2, Finish(true));
    RunsConcat(e1, [Take], e2, [Finish(true)], e');
    RunsConcat(e, send, e1, [Take] + [Finish(true)], e');
    steps := send + ([Take] + [Finish(true)]);
  }

  /** Some continuation without new calls writes a log that is not strictly increasing. */
  ghost predicate CanDisorder(e: Emitter) {
    exists steps, e' :: Runs(e, steps, e') && NoNewCalls(steps) && !Increasing(e'.written)
  }

  lemma {:induction false} OrderStays(e: Emitter, steps: seq<Step>, e': Emitter)
    requires Inv(e) && Ordered(e) && Runs(e, steps, e') && NoNewCalls(steps)
    ensures Increasing(e'.written)
    decreases |steps|
  {
    if steps == [] {
      assert Stream(e)[..|e.written|] == e.written;
    } else {
      assert NoNewCalls(steps[1..]);
      StepInv(e, steps[0]);
      OrderedStep(e, steps[0]);
      OrderStays(Next(e, steps[0]), steps[1..], e');
    }
  }

  /** Two heads of one chain that were both marked differ in sequence, unless they are the same head. */
  lemma MarkedHeadsDiffer(e: Emitter, j: Job, j': Job)
    requires Inv(e) && InHand(e, j) && InHand(e, j') && j.Head? && j'.Head? && j.chain == j'.chain && j != j'
    ensures j.sequence != j'.sequence
  {
    assert Places(e, j) == multiset(e.marked)[j] && Places(e, j') == multiset(e.marked)[j'];
    assert j in e.marked && j' in e.marked;
  }

  lemma WriteBoth(e: Emitter, id: nat, j: Job, id': nat, j': Job) returns (steps: seq<Step>, e': Emitter)
    requires Idle(e) && id != id' && Holds(e, id, j) && Holds(e, id', j') && j.Head? && j'.Head?
    ensures Runs(e, steps, e') && NoNewCalls(steps) && e'.written == e.written + [j', j]
  {
    var s1, e1 := WriteIdle(e, id', j');
    assert Holds(e1, id, j);
    var s2;
    s2, e' := WriteIdle(e1, id, j);
    RunsConcat(e, s1, e1, s2, e');
    steps := s1 + s2;
    assert e.written + [j'] + [j] == e.written + [j', j];
  }

  lemma Disorder(e: Emitter, id: nat, j: Job, id': nat, j': Job)
    requires !e.closed && (e.worker.Waiting? || e.worker.Running?) && e.depth >= 1
    requires id != id' && Holds(e, id, j) && Holds(e, id', j') && j.Head? && j'.Head? && j.chain == j'.chain
    requires j.sequence < j'.sequence
    ensures CanDisorder(e)
  {
    var s0, e0 := Settle(e, j);
    assert Holds(e0, id, j) && Holds(e0, id', j');
    var s1, e1 := WriteBoth(e0, id, j, id', j');
    RunsConcat(e, s0, e0, s1, e1);
    var n := |e0.written|;
    assert e1.written[n] == j' && e1.written[n + 1] == j;
    assert NoNewCalls(s0 + s1);
  }

  /** The order is broken already: by what is pending, or by a head in a hand that is behind it. */
  lemma DisorderInStream(e: Emitter)
    requires Inv(e) && !e.closed && e.depth >= 1 && !Increasing(Stream(e))
    ensures CanDisorder(e)
  {
    var steps, e' := Settle(e, Sentinel);
  }

  lemma DisorderBehind(e: Emitter, id: nat, j: Job)
    requires Inv(e) && !e.closed && e.depth >= 1 && Holds(e, id, j) && !Before(Stream(e), j)
    ensures CanDisorder(e)
  {
    var s0, e0 := Settle(e, j);
    var s1, e1 := WriteIdle(e0, id, j);
    RunsConcat(e, s0, e0, s1, e1);
    assert NoNewCalls(s0 + s1);
    NotBefore(e0.written, j);
  }

  lemma NotBefore(s: seq<Job>, j: Job)
    requires !Before(s, j)
    ensures !Increasing(s + [j])
  {
    var i :| 0 <= i < |s| && s[i].Head? && s[i].chain == j.chain && s[i].sequence >= j.sequence;
    assert (s + [j])[i] == s[i] && (s + [j])[|s|] == j;
  }

  lemma DisorderTwoHands(e: Emitter)
    requires Inv(e) && !e.closed && e.depth >= 1 && !OneHandPerChain(e)
    ensures CanDisorder(e)
  {
    var id, id', j: Job, j': Job :|
      Holds(e, id, j) && Holds(e, id', j') && j.Head? && j'.Head? && j.chain == j'.chain && id != id';
    MarkedHeadsDiffer(e, j, j');
    if j.sequence < j'.sequence {
      Disorder(e, id, j, id', j');
    } else {
      Disorder(e, id', j', id, j);
    }
  }

  lemma {:induction false} OnlyHeadsWritten(e: Emitter, steps: seq<Step>, e': Emitter)
    requires Runs(e, steps, e') && forall i :: 0 <= i < |e.written| ==> e.written[i].Head?
    ensures forall i :: 0 <= i < |e'.written| ==> e'.written[i].Head?
    decreases |steps|
  {
    if steps != [] {
      OnlyHeadsStep(e, steps[0]);
      OnlyHeadsWritten(Next(e, steps[0]), steps[1..], e');
    }
  }

  lemma OnlyHeadsStep(e: Emitter, s: Step)
    requires Enabled(e, s) && forall i :: 0 <= i < |e.written| ==> e.written[i].Head?
    ensures forall i :: 0 <= i < |Next(e, s).written| ==> Next(e, s).written[i].Head?
  {
    match s
    case Finish(ok) => assert Next(e, s).written == Emitted(e, e.worker.job, ok).written;
    case FlushInline(id, ok) => assert Next(e, s).written == Emitted(e, e.calls[id].job, ok).written;
    case _ => assert Next(e, s).written == e.written;
  }

  /** The log, the queue and every head in a hand are in order, and no two hands hold heads of one chain. */
  ghost predicate InOrder(e: Emitter) {
    Increasing(Stream(e)) && HandsAhead(e) && OneHandPerChain(e)
  }

  /**
   From any reachable moment before Close, some schedule of the calls in progress writes a log that
   is out of order exactly when the heads in the log, in the queue and in the hands of these calls
   are not in order, which includes two hands holding heads of one chain.
   */
  lemma DisorderIff(cadence: nat, depth: nat, steps: seq<Step>, e: Emitter)
    requires Reached(cadence, depth, steps, e) && !e.closed
    ensures CanDisorder(e) <==> !InOrder(e)
  {
    ReachedInv(cadence, depth, steps, e);
    DepthPositive(NewEmitter(cadence, depth), steps, e);
    OnlyHeadsWritten(NewEmitter(cadence, depth), steps, e);
    if InOrder(e) {
      forall more, e' | Runs(e, more, e') && NoNewCalls(more) ensures Increasing(e'.written) {
        OrderStays(e, more, e');
      }
    } else if !Increasing(Stream(e)) {
      DisorderInStream(e);
    } else if !HandsAhead(e) {
      var id, j: Job :| Holds(e, id, j) && !Before(Stream(e), j);
      DisorderBehind(e, id, j);
    } else {
      DisorderTwoHands(e);
    }
  }

  // ---------- these situations occur ----------

  lemma {:induction false} TwoSteps(e: Emitter, s: Step, t: Step)
    requires Enabled(e, s) && Enabled(Next(e, s), t)
    ensures Runs(e, [s, t], Next(Next(e, s), t))
  {
    OneStep(e, s);
    OneStep(Next(e, s), t);
    RunsConcat(e, [s], Next(e, s), [t], Next(Next(e, s), t));
    assert [s] + [t] == [s, t];
  }

  /** Two overlapping Observe calls for consecutive heads of one chain. */
  lemma OverlapHappens(c: string, h1: Hash, h2: Hash) returns (steps: seq<Step>, e: Emitter)
    ensures Reached(1, 2, steps, e) && !e.closed && !OneHandPerChain(e) && CanDisorder(e)
  {
    var s, t := ObserveCall(0, c, 1, h1), ObserveCall(1, c, 2, h2);
    var e0 := NewEmitter(1, 2);
    steps, e := [s, t], Next(Next(e0, s), t);
    TwoSteps(e0, s, t);
    assert Holds(e, 0, Head(c, 1, h1)) && Holds(e, 1, Head(c, 2, h2));
    DisorderIff(1, 2, steps, e);
  }

  /** Close runs to its end while call 0 is past the closed check. */
  lemma CloseWhileSending(e: Emitter) returns (steps: seq<Step>, e': Emitter)
    requires !e.closed && e.stopAt.None? && e.worker.Waiting? && e.queue == [] && 0 in e.calls && e.calls[0].Sending?
    ensures Runs(e, steps, e') && e'.worker.Exited? && e'.queue == [] && e'.calls == e.calls
  {
    var m := Next(Next(e, SetClosed), Stop);
    TwoSteps(e, SetClosed, Stop);
    assert m.worker.Waiting? && m.queue == [] && m.stopAt.Some? && m.calls == e.calls;
    e' := Next(Next(m, NoticeStop), Exit);
    TwoSteps(m, NoticeStop, Exit);
    RunsConcat(e, [SetClosed, Stop], m, [NoticeStop, Exit], e');
    steps := [SetClosed, Stop] + [NoticeStop, Exit];
  }

  /** An Observe call that has passed the closed check when Close runs to its end: its head can be stranded. */
  lemma StrandingHappens(c: string, h: Hash) returns (steps: seq<Step>, e: Emitter)
    ensures Reached(1, 1, steps, e) && e.worker.Exited? && e.queue == [] && CanStrand(e)
  {
    var e0, s0 := NewEmitter(1, 1), ObserveCall(0, c, 1, h);
    var e2 := Next(Next(e0, s0), CheckClosed(0));
    TwoSteps(e0, s0, CheckClosed(0));
    var more;
    more, e := CloseWhileSending(e2);
    steps := [s0, CheckClosed(0)] + more;
    RunsConcat(e0, [s0, CheckClosed(0)], e2, more, e);
    assert PastCheck(e.calls[0]);
    StrandedIffPastCheck(1, 1, steps, e);
  }

  /** An Observe call has queued a head, and a Flush of that head returns at once with nothing written. */
  lemma QueuedHeadIsNotAwaited(c: string, h: Hash) returns (steps: seq<Step>, e: Emitter)
    ensures Reached(1, 1, steps, e) && !e.worker.Exited? && e.queue == [Head(c, 1, h)] && 1 !in e.calls
    ensures Next(e, FlushOf(1, Head(c, 1, h))).calls[1].Returned? && !FlushGuarantees(e, 1, Head(c, 1, h))
  {
    var e0, s0, j := NewEmitter(1, 1), ObserveCall(0, c, 1, h), Head(c, 1, h);
    var e2 := Next(Next(e0, s0), CheckClosed(0));
    TwoSteps(e0, s0, CheckClosed(0));
    assert e2.calls[0] == Sending(j) && e2.queue == [] && e2.written == [] && e2.failed == [];
    e := Next(e2, TrySend(0));
    OneStep(e2, TrySend(0));
    RunsConcat(e0, [s0, CheckClosed(0)], e2, [TrySend(0)], e);
    steps := [s0, CheckClosed(0)] + [TrySend(0)];
    FlushGuaranteesIff(1, 1, steps, e, 1, j);
  }
}
