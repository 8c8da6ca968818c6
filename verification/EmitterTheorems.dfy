/**
 What the checkpoint emitter guarantees over every schedule of its calls, its worker and Close:
 conservation, queue order, drain, and strictly increasing marks; and what it only guarantees
 when calls for one chain do not overlap.
 */
module EmitterTheorems {
  import opened Receipts
  import opened EmitterMachine

  // ---------- conservation ----------

  ghost predicate Balanced(e: Emitter, j: Job) {
    && Places(e, j) == multiset(e.marked)[j]
    && multiset(e.written)[j] + multiset(e.failed)[j] == multiset(e.handled)[j] + multiset(e.inlined)[j]
  }

  lemma BalancedMark(e: Emitter, s: Step, j: Job)
    requires Inv(e) && Enabled(e, s) && IsMark(s) && j.Head?
    ensures Balanced(Next(e, s), j)
  {
    var e', id, m := Next(e, s), s.id, JobOf(s);
    MarkEffect(e, s);
    if e'.marked != e.marked {
      NewJobIsNowhere(e, m);
      assert multiset(e.marked + [m]) == multiset(e.marked) + multiset{m};
    }
    assert !Holds(e, id, j);
    HandsAfter(e, e', id, j);
  }

  lemma CountLast(s: seq<Job>, m: Job, j: Job)
    ensures multiset(s + [m])[j] == multiset(s)[j] + One(j == m)
  {
    assert multiset(s + [m]) == multiset(s) + multiset{m};
  }

  lemma CountFirst(s: seq<Job>, j: Job)
    requires s != []
    ensures multiset(s)[j] == One(j == s[0]) + multiset(s[1..])[j]
  {
    assert s == [s[0]] + s[1..];
    assert multiset(s) == multiset{s[0]} + multiset(s[1..]);
  }

  /** Call `id` gives up the head `m` it holds, and no other hand changes. */
  ghost predicate GivesUp(e: Emitter, e': Emitter, m: Job, j: Job) {
    (InHand(e', j) <==> InHand(e, j) && j != m) && (j == m ==> InHand(e, j))
  }

  lemma GivingUp(e: Emitter, s: Step, j: Job)
    requires OneHolder(e) && Enabled(e, s) && IsHand(s) && j.Head? && s.id in e.calls && HeldJob(e.calls[s.id]).Some?
    requires HeldJob(Next(e, s).calls[s.id]).None?
    ensures GivesUp(e, Next(e, s), HeldJob(e.calls[s.id]).value, j)
  {
    HandHolds(e, s);
    HandsAfter(e, Next(e, s), s.id, j);
  }

  lemma KeepingHands(e: Emitter, s: Step, j: Job)
    requires OneHolder(e) && Enabled(e, s) && IsHand(s) && j.Head?
    requires s.id in Next(e, s).calls
    requires Holds(Next(e, s), s.id, j) <==> Holds(e, s.id, j)
    ensures InHand(Next(e, s), j) <==> InHand(e, j)
  {
    HandHolds(e, s);
    HandsAfter(e, Next(e, s), s.id, j);
  }

  lemma BalancedDrop(e: Emitter, id: nat, m: Job, j: Job)
    requires Balanced(e, j) && GivesUp(e, Drop(e, id, m), m, j)
    ensures Balanced(Drop(e, id, m), j)
  {
    CountLast(e.dropped, m, j);
  }

  lemma BalancedPush(e: Emitter, id: nat, c: Call, m: Job, j: Job)
    requires Balanced(e, j) && GivesUp(e, SetCall(Push(e, m), id, c), m, j)
    ensures Balanced(SetCall(Push(e, m), id, c), j)
  {
    CountLast(e.queue, m, j);
  }

  lemma BalancedInline(e: Emitter, id: nat, m: Job, ok: bool, j: Job)
    requires Balanced(e, j) && GivesUp(e, InlineNext(e, id, m, ok), m, j) && j.Head?
    ensures Balanced(InlineNext(e, id, m, ok), j)
  {
    if m.Head? {
      CountLast(e.inlined, m, j);
      CountLast(e.written, m, j);
      CountLast(e.failed, m, j);
    }
  }

  lemma BalancedCheck(e: Emitter, s: Step, j: Job)
    requires OneHolder(e) && Balanced(e, j) && Enabled(e, s) && s.CheckClosed? && j.Head?
    ensures Balanced(Next(e, s), j)
  {
    if e.closed {
      GivingUp(e, s, j);
      BalancedDrop(e, s.id, e.calls[s.id].job, j);
    } else {
      KeepingHands(e, s, j);
    }
  }

  lemma BalancedSend(e: Emitter, s: Step, j: Job)
    requires OneHolder(e) && Balanced(e, j) && Enabled(e, s) && s.TrySend? && j.Head?
    ensures Balanced(Next(e, s), j)
  {
    GivingUp(e, s, j);
    if |e.queue| < e.depth {
      BalancedPush(e, s.id, Returned, e.calls[s.id].job, j);
    } else {
      BalancedDrop(e, s.id, e.calls[s.id].job, j);
    }
  }

  lemma BalancedFlush(e: Emitter, s: Step, j: Job)
    requires OneHolder(e) && Balanced(e, j) && Enabled(e, s) && (s.FlushSend? || s.FlushInline?) && j.Head?
    ensures Balanced(Next(e, s), j)
  {
    if s.FlushSend? {
      BalancedFlushSend(e, s, j);
    } else {
      GivingUp(e, s, j);
      BalancedInline(e, s.id, e.calls[s.id].job, s.ok, j);
    }
  }

  lemma BalancedFlushSend(e: Emitter, s: Step, j: Job)
    requires OneHolder(e) && Balanced(e, j) && Enabled(e, s) && s.FlushSend? && j.Head?
    ensures Balanced(Next(e, s), j)
  {
    GivingUp(e, s, j);
    BalancedPush(e, s.id, FlushWaiting(|e.sent|, e.calls[s.id].job), e.calls[s.id].job, j);
  }

  lemma BalancedHand(e: Emitter, s: Step, j: Job)
    requires OneHolder(e) && Balanced(e, j) && Enabled(e, s) && IsHand(s) && j.Head?
    ensures Balanced(Next(e, s), j)
  {
    if s.CheckClosed? {
      BalancedCheck(e, s, j);
    } else if s.TrySend? {
      BalancedSend(e, s, j);
    } else if s.FlushSend? || s.FlushInline? {
      BalancedFlush(e, s, j);
    } else {
      BalancedQuiet(e, s, j);
    }
  }

  lemma BalancedQuiet(e: Emitter, s: Step, j: Job)
    requires OneHolder(e) && Balanced(e, j) && Enabled(e, s) && (s.FlushAllCall? || s.FlushReturn?) && j.Head?
    ensures Balanced(Next(e, s), j)
  {
    KeepingHands(e, s, j);
  }

  lemma FinishEffect(e: Emitter, ok: bool)
    requires e.worker.Running? || e.worker.DrainRunning?
    ensures var m, e' := e.worker.job, FinishNext(e, e.worker.job, ok);
            && e'.handled == e.handled + [m] && Current(e'.worker) == [] && !e'.worker.Exited?
            && e'.queue == e.queue && e'.inlined == e.inlined && e'.dropped == e.dropped && e'.marked == e.marked
            && e'.written == (if m.Head? && ok then e.written + [m] else e.written)
            && e'.failed == if m.Head? && !ok then e.failed + [m] else e.failed
  {
  }

  lemma BalancedFinish(e: Emitter, e': Emitter, m: Job, j: Job)
    requires Balanced(e, j) && j.Head? && Current(e.worker) == [m]
    requires InHand(e', j) <==> InHand(e, j)
    requires e'.handled == e.handled + [m] && Current(e'.worker) == []
    requires e'.queue == e.queue && e'.inlined == e.inlined && e'.dropped == e.dropped && e'.marked == e.marked
    requires m.Head? ==>
               (e'.written == e.written + [m] && e'.failed == e.failed) ||
               (e'.written == e.written && e'.failed == e.failed + [m])
    requires m.Sentinel? ==> e'.written == e.written && e'.failed == e.failed
    ensures Balanced(e', j)
  {
    CountLast(e.handled, m, j);
    CountOne(m, j);
    FinishCount(e, e', m, j);
  }

  lemma CountOne(m: Job, j: Job)
    ensures multiset([m])[j] == One(j == m)
  {
  }

  /** The head that has been handled is either in the log or among the failures. */
  lemma FinishCount(e: Emitter, e': Emitter, m: Job, j: Job)
    requires j.Head?
    requires m.Head? ==>
               (e'.written == e.written + [m] && e'.failed == e.failed) ||
               (e'.written == e.written && e'.failed == e.failed + [m])
    requires m.Sentinel? ==> e'.written == e.written && e'.failed == e.failed
    ensures multiset(e'.written)[j] + multiset(e'.failed)[j] == multiset(e.written)[j] + multiset(e.failed)[j] +
            One(j == m)
  {
    CountLast(e.written, m, j);
    CountLast(e.failed, m, j);
  }

  lemma TakeEffect(e: Emitter)
    requires (e.worker.Waiting? || e.worker.Draining?) && e.queue != []
    ensures var e' := TakeNext(e);
            && e.queue == [e.queue[0]] + e'.queue && Current(e.worker) == [] && Current(e'.worker) == [e.queue[0]]
            && !e'.worker.Exited? && e' == e.(queue := e.queue[1..], worker := e'.worker)
  {
  }

  lemma BalancedTake(e: Emitter, e': Emitter, j: Job)
    requires Balanced(e, j) && j.Head? && e.queue != [] && (InHand(e', j) <==> InHand(e, j))
    requires e' == e.(queue := e.queue[1..], worker := e'.worker)
    requires Current(e.worker) == [] && Current(e'.worker) == [e.queue[0]]
    ensures Balanced(e', j)
  {
    CountFirst(e.queue, j);
    CountFirst(Current(e'.worker), j);
  }

  /** NoticeStop, Exit and the two steps of Close move no job. */
  lemma IdleEffect(e: Emitter, s: Step)
    requires Enabled(e, s) && (IsClose(s) || s.NoticeStop? || s.Exit?)
    ensures var e' := Next(e, s);
            && e' == e.(worker := e'.worker, closed := e'.closed, stopAt := e'.stopAt)
            && Current(e'.worker) == Current(e.worker)
            && (e'.worker.Exited? ==> e.worker.Exited? || e.queue == [])
            && (e.worker.Exited? ==> e'.worker.Exited?)
  {
  }

  lemma BalancedWorker(e: Emitter, s: Step, j: Job)
    requires Balanced(e, j) && Enabled(e, s) && (IsWorker(s) || IsClose(s)) && j.Head?
    ensures Balanced(Next(e, s), j)
  {
    var e' := Next(e, s);
    NoCall(e, s);
    assert InHand(e', j) <==> InHand(e, j) by {
      assert forall id :: Holds(e', id, j) <==> Holds(e, id, j);
    }
    if s.Take? {
      TakeEffect(e);
      BalancedTake(e, e', j);
    } else if s.Finish? {
      FinishEffect(e, s.ok);
      BalancedFinish(e, e', e.worker.job, j);
    } else {
      IdleEffect(e, s);
    }
  }

  lemma StepInv(e: Emitter, s: Step)
    requires Inv(e) && Enabled(e, s)
    ensures Inv(Next(e, s))
  {
    HolderKept(e, s);
    MarksKept(e, s);
    QueueKept(e, s);
    forall j: Job | j.Head? ensures Balanced(Next(e, s), j) {
      assert Balanced(e, j);
      if IsMark(s) {
        BalancedMark(e, s, j);
      } else if IsHand(s) {
        BalancedHand(e, s, j);
      } else {
        BalancedWorker(e, s, j);
      }
    }
  }

  lemma {:induction false} RunInv(e: Emitter, steps: seq<Step>, e': Emitter)
    requires Inv(e) && Runs(e, steps, e')
    ensures Inv(e')
    decreases |steps|
  {
    if steps != [] {
      StepInv(e, steps[0]);
      RunInv(Next(e, steps[0]), steps[1..], e');
    }
  }

  lemma {:induction false} RunsConcat(e: Emitter, s1: seq<Step>, e1: Emitter, s2: seq<Step>, e2: Emitter)
    requires Runs(e, s1, e1) && Runs(e1, s2, e2)
    ensures Runs(e, s1 + s2, e2)
    decreases |s1|
  {
    if s1 == [] {
      assert s1 + s2 == s2;
    } else {
      assert (s1 + s2)[0] == s1[0] && (s1 + s2)[1..] == s1[1..] + s2;
      RunsConcat(Next(e, s1[0]), s1[1..], e1, s2, e2);
    }
  }

  lemma OneStep(e: Emitter, s: Step)
    requires Enabled(e, s)
    ensures Runs(e, [s], Next(e, s))
  {
    assert [s][1..] == [];
    assert Runs(Next(e, s), [], Next(e, s));
  }

  /** `e` is reached within the lifetime of one emitter. */
  ghost predicate Reached(cadence: nat, depth: nat, steps: seq<Step>, e: Emitter) {
    Runs(NewEmitter(cadence, depth), steps, e)
  }

  lemma ReachedInv(cadence: nat, depth: nat, steps: seq<Step>, e: Emitter)
    requires Reached(cadence, depth, steps, e)
    ensures Inv(e)
  {
    NewInv(cadence, depth);
    RunInv(NewEmitter(cadence, depth), steps, e);
  }

  /**
   No head is marked twice, and every marked head is in exactly one place: in the hand of one
   call, queued, being written, handled, emitted inline, or dropped.
   */
  lemma EveryMarkIsInOnePlace(cadence: nat, depth: nat, steps: seq<Step>, e: Emitter, j: Job)
    requires Reached(cadence, depth, steps, e) && j.Head?
    ensures multiset(e.marked)[j] == One(j in e.marked)
    ensures One(j in e.marked) ==
              One(InHand(e, j)) + multiset(e.queue)[j] + multiset(Current(e.worker))[j] +
              multiset(e.handled)[j] + multiset(e.inlined)[j] + multiset(e.dropped)[j]
  {
    ReachedInv(cadence, depth, steps, e);
    MarkedOnce(e.marked, j);
  }

  lemma {:induction false} MarkedOnce(s: seq<Job>, j: Job)
    requires forall i :: 0 <= i < |s| ==> s[i].Head?
    requires forall i, k :: 0 <= i < k < |s| && s[i].chain == s[k].chain ==> s[i].sequence < s[k].sequence
    ensures multiset(s)[j] == One(j in s)
  {
    if s != [] {
      var n := |s| - 1;
      assert s == s[..n] + [s[n]];
      MarkedOnce(s[..n], j);
      if j == s[n] {
        assert j !in s[..n];
      }
    }
  }

  /** Within one lifetime marks of a chain strictly increase, in the order they were made. */
  lemma MarksStrictlyIncrease(cadence: nat, depth: nat, steps: seq<Step>, e: Emitter, i: nat, k: nat)
    requires Reached(cadence, depth, steps, e) && i < k < |e.marked|
    ensures e.marked[i].Head? && e.marked[k].Head?
    ensures e.marked[i].chain == e.marked[k].chain ==> e.marked[i].sequence < e.marked[k].sequence
  {
    ReachedInv(cadence, depth, steps, e);
  }

  // ---------- drain on close ----------

  /**
   Jobs are handled in the order they were sent, and when the worker has exited everything that
   was sent before Close signalled stop has been handled.
   */
  lemma CloseDrains(cadence: nat, depth: nat, steps: seq<Step>, e: Emitter)
    requires Reached(cadence, depth, steps, e)
    ensures e.handled <= e.sent
    ensures e.worker.Exited? ==>
              e.stopAt.Some? && e.sent[..|e.handled|] == e.handled && e.stopAt.value <= |e.handled| <= |e.sent|
  {
    ReachedInv(cadence, depth, steps, e);
    assert e.handled <= e.handled + Current(e.worker) + e.queue;
  }

  /** What has been sent stays sent. */
  lemma {:induction false} SentGrows(e: Emitter, steps: seq<Step>, e': Emitter)
    requires Runs(e, steps, e')
    ensures e.sent <= e'.sent && e.handled <= e'.handled
    decreases |steps|
  {
    if steps != [] {
      SentGrowsStep(e, steps[0]);
      SentGrows(Next(e, steps[0]), steps[1..], e');
    }
  }

  lemma SentGrowsStep(e: Emitter, s: Step)
    requires Enabled(e, s)
    ensures e.sent <= Next(e, s).sent && e.handled <= Next(e, s).handled
  {
    SentGrowsOnce(e, s);
    HandledGrowsOnce(e, s);
  }

  lemma SentGrowsOnce(e: Emitter, s: Step)
    requires Enabled(e, s)
    ensures e.sent <= Next(e, s).sent
  {
  }

  lemma HandledGrowsOnce(e: Emitter, s: Step)
    requires Enabled(e, s)
    ensures e.handled <= Next(e, s).handled
  {
    match s
    case Finish(ok) => assert FinishNext(e, e.worker.job, ok).handled == e.handled + [e.worker.job];
    case _ => assert Next(e, s).handled == e.handled;
  }

  // ---------- Flush and FlushAll are synchronous ----------

  /**
   A Flush or FlushAll that returns while the worker lives has its own job handled, and with it
   everything that was sent before.
   */
  lemma FlushCoversTheQueue(cadence: nat, depth: nat, steps: seq<Step>, e: Emitter, id: nat)
    requires Reached(cadence, depth, steps, e)
    requires Enabled(e, FlushReturn(id)) && !e.worker.Exited?
    ensures var FlushWaiting(position, job) := e.calls[id];
            position < |e.sent| && e.sent[..position + 1] <= e.handled && job == e.sent[position] && job in e.handled
  {
    ReachedInv(cadence, depth, steps, e);
    var FlushWaiting(position, job) := e.calls[id];
    assert e.handled <= e.sent;
    assert e.sent[position] == e.handled[position];
  }

  /**
   The worker has handled the head, or Flush has emitted it itself, or it is stranded behind a worker that
   is gone.
   */
  predicate Settled(e: Emitter, j: Job) {
    j in e.handled || j in e.inlined || (e.worker.Exited? && j in e.queue)
  }

  /** Where a Flush call that marked `j` is. */
  predicate Flushing(e: Emitter, id: nat, j: Job) {
    id in e.calls &&
    match e.calls[id]
    case FlushSending(job) => job == j
    case FlushWaiting(_, job) => job == j
    case Returned => Settled(e, j)
    case _ => false
  }

  lemma SettledStays(e: Emitter, s: Step, j: Job)
    requires Enabled(e, s) && Settled(e, j)
    ensures Settled(Next(e, s), j)
  {
    HandledGrowsOnce(e, s);
    InlinedGrowsOnce(e, s);
    if e.worker.Exited? && j in e.queue {
      StrandedStays(e, s, j);
    }
  }

  lemma InlinedGrowsOnce(e: Emitter, s: Step)
    requires Enabled(e, s)
    ensures e.inlined <= Next(e, s).inlined
  {
  }

  lemma StrandedStays(e: Emitter, s: Step, j: Job)
    requires Enabled(e, s) && e.worker.Exited? && j in e.queue && !s.Take?
    ensures Next(e, s).worker.Exited? && j in Next(e, s).queue
  {
  }

  /** The call itself is only moved by its own three steps. */
  lemma OtherCallStays(e: Emitter, s: Step, id: nat)
    requires Enabled(e, s) && id in e.calls &&
             (e.calls[id].FlushSending? || e.calls[id].FlushWaiting? || e.calls[id].Returned?)
    requires s != FlushSend(id) && s != FlushReturn(id) && !(s.FlushInline? && s.id == id)
    ensures id in Next(e, s).calls && Next(e, s).calls[id] == e.calls[id]
  {
    if IsMark(s) {
      MarkEffect(e, s);
    } else if IsHand(s) {
      HandHolds(e, s);
    } else {
      NoCall(e, s);
    }
  }

  lemma FlushingStep(e: Emitter, s: Step, id: nat, j: Job)
    requires QueueOk(e) && Enabled(e, s) && Flushing(e, id, j) && j.Head?
    ensures Flushing(Next(e, s), id, j)
  {
    if s == FlushReturn(id) {
      var FlushWaiting(position, job) := e.calls[id];
      if position < |e.handled| {
        assert e.sent[position] == e.handled[position];
      } else {
        assert e.sent == e.handled + e.queue;
        assert e.sent[position] == e.queue[position - |e.handled|];
      }
    } else if s == FlushSend(id) || (s.FlushInline? && s.id == id) {
    } else {
      OtherCallStays(e, s, id);
      if e.calls[id].Returned? {
        SettledStays(e, s, j);
      }
    }
  }

  lemma {:induction false} FlushingRun(e: Emitter, steps: seq<Step>, e': Emitter, id: nat, j: Job)
    requires Inv(e) && Runs(e, steps, e') && Flushing(e, id, j) && j.Head?
    ensures Flushing(e', id, j) && Inv(e')
    decreases |steps|
  {
    if steps != [] {
      StepInv(e, steps[0]);
      FlushingStep(e, steps[0], id, j);
      FlushingRun(Next(e, steps[0]), steps[1..], e', id, j);
    }
  }

  /**
   A Flush of a head that was not marked yet, followed over everything that happens until it has
   returned: its own head has been written or was lost to a fault, once; only if the worker is gone
   can it be stranded in the queue instead.
   */
  lemma FlushIsSynchronous(cadence: nat, depth: nat, before: seq<Step>, e: Emitter, id: nat, j: Job,
                           after: seq<Step>, e': Emitter)
    requires Reached(cadence, depth, before, e) && j.Head? && id !in e.calls && j.sequence > Get(e.lastSeq, j.chain)
    requires Runs(Next(e, FlushCall(id, j.chain, j.sequence, j.hash)), after, e')
    requires id in e'.calls && e'.calls[id].Returned?
    ensures multiset(e'.written)[j] + multiset(e'.failed)[j] == (if e'.worker.Exited? && j in e'.queue then 0 else 1)
  {
    ReachedInv(cadence, depth, before, e);
    var t := FlushCall(id, j.chain, j.sequence, j.hash);
    StepInv(e, t);
    MarkEffect(e, t);
    FlushingRun(Next(e, t), after, e', id, j);
    SettledOnce(e', j);
  }

  /** A settled head is in one place only. */
  lemma SettledOnce(e: Emitter, j: Job)
    requires Conserved(e) && MarksIncrease(e) && Settled(e, j) && j.Head?
    ensures multiset(e.written)[j] + multiset(e.failed)[j] == if e.worker.Exited? && j in e.queue then 0 else 1
  {
    MarkedOnce(e.marked, j);
    assert Places(e, j) == multiset(e.marked)[j];
  }

  /** The head has gone to the sinks, with or without a fault. */
  predicate Anchored(e: Emitter, j: Job) {
    j in e.written || j in e.failed
  }

  lemma AnchoredStaysStep(e: Emitter, s: Step, j: Job)
    requires Enabled(e, s) && Anchored(e, j)
    ensures Anchored(Next(e, s), j)
  {
    match s
    case Finish(ok) => FinishEffect(e, ok);
    case _ =>
  }

  lemma {:induction false} AnchoredStays(e: Emitter, steps: seq<Step>, e': Emitter, j: Job)
    requires Runs(e, steps, e') && Anchored(e, j)
    ensures Anchored(e', j)
    decreases |steps|
  {
    if steps != [] {
      AnchoredStaysStep(e, steps[0], j);
      AnchoredStays(Next(e, steps[0]), steps[1..], e', j);
    }
  }

  function FlushOf(id: nat, j: Job): Step
    requires j.Head?
  {
    FlushCall(id, j.chain, j.sequence, j.hash)
  }

  /**
   However a Flush of `j` that begins now goes on, its head has gone to the sinks when it returns before the
   worker exits.
   */
  ghost predicate FlushGuarantees(e: Emitter, id: nat, j: Job)
    requires j.Head? && id !in e.calls
  {
    forall after, e' ::
      Runs(Next(e, FlushOf(id, j)), after, e') && id in e'.calls && e'.calls[id].Returned? && !e'.worker.Exited? ==>
        Anchored(e', j)
  }

  /**
   The documentation says that a Flush that has returned has made its head durable, and that it is a no-op
   for a head that is anchored already. The no-op asks whether the head is marked: a marked head that is
   still in a hand, queued or in the worker, or that was dropped, is not waited for.
   */
  lemma FlushGuaranteesIff(cadence: nat, depth: nat, before: seq<Step>, e: Emitter, id: nat, j: Job)
    requires Reached(cadence, depth, before, e) && j.Head? && id !in e.calls && !e.worker.Exited?
    ensures FlushGuarantees(e, id, j) <==> j.sequence > Get(e.lastSeq, j.chain) || Anchored(e, j)
    ensures j in e.marked ==>
              (Anchored(e, j) <==> !InHand(e, j) && j !in e.queue && j !in Current(e.worker) && j !in e.dropped)
  {
    ReachedInv(cadence, depth, before, e);
    var t := FlushOf(id, j);
    MarkEffect(e, t);
    if j in e.marked {
      AnchoredIff(e, j);
    }
    if j.sequence > Get(e.lastSeq, j.chain) {
      forall after, e' | Runs(Next(e, t), after, e') && id in e'.calls && e'.calls[id].Returned? && !e'.worker.Exited?
        ensures Anchored(e', j)
      {
        FlushIsSynchronous(cadence, depth, before, e, id, j, after, e');
      }
    } else if Anchored(e, j) {
      AnchoredStaysStep(e, t, j);
      forall after, e' | Runs(Next(e, t), after, e') ensures Anchored(e', j) {
        AnchoredStays(Next(e, t), after, e', j);
      }
    } else {
      assert Runs(Next(e, t), [], Next(e, t));
    }
  }

  /** A marked head has gone to the sinks exactly when it is in none of the other places. */
  lemma AnchoredIff(e: Emitter, j: Job)
    requires Inv(e) && j.Head? && j in e.marked
    ensures Anchored(e, j) <==> !InHand(e, j) && j !in e.queue && j !in Current(e.worker) && j !in e.dropped
  {
    MarkedOnce(e.marked, j);
    assert Places(e, j) == multiset(e.marked)[j];
  }

  // ---------- the gap between the closed check and the send ----------

  predicate PastCheck(c: Call) {
    c.Sending? || c.FlushSending?
  }

  /** No call begins; the ones in progress go on. */
  predicate NoNewCalls(steps: seq<Step>) {
    forall i :: 0 <= i < |steps| ==> !IsMark(steps[i]) && !steps[i].FlushAllCall?
  }

  /** After the worker's last look at an empty queue: nothing is there, and no call is past its closed check. */
  ghost predicate Quiesced(e: Emitter) {
    && e.worker.Exited? && e.queue == [] && e.closed
    && (forall id :: id in e.calls ==> !PastCheck(e.calls[id]))
  }

  lemma QuiescedStep(e: Emitter, s: Step)
    requires Quiesced(e) && Enabled(e, s) && !IsMark(s) && !s.FlushAllCall?
    ensures Quiesced(Next(e, s))
  {
  }

  lemma {:induction false} QuiescedStays(e: Emitter, steps: seq<Step>, e': Emitter)
    requires Quiesced(e) && Runs(e, steps, e') && NoNewCalls(steps)
    ensures Quiesced(e')
    decreases |steps|
  {
    if steps != [] {
      QuiescedStep(e, steps[0]);
      assert NoNewCalls(steps[1..]);
      QuiescedStays(Next(e, steps[0]), steps[1..], e');
    }
  }

  /** Some continuation without new calls strands a job in the queue of an emitter whose worker is gone. */
  ghost predicate CanStrand(e: Emitter) {
    exists steps, e' :: Runs(e, steps, e') && NoNewCalls(steps) && e'.worker.Exited? && e'.queue != []
  }

  /**
   The documentation says a job that loses against Close is counted as dropped. It is, unless its
   call had already passed the closed check: a closed emitter whose worker has just exited can
   still strand a job, neither written nor counted, exactly when some call is past that check.
   */
  lemma StrandedIffPastCheck(cadence: nat, depth: nat, steps: seq<Step>, e: Emitter)
    requires Reached(cadence, depth, steps, e) && e.worker.Exited? && e.queue == []
    ensures CanStrand(e) <==> exists id :: id in e.calls && PastCheck(e.calls[id])
  {
    ReachedInv(cadence, depth, steps, e);
    DepthPositive(NewEmitter(cadence, depth), steps, e);
    if id :| id in e.calls && PastCheck(e.calls[id]) {
      var s := if e.calls[id].Sending? then TrySend(id) else FlushSend(id);
      assert Enabled(e, s);
      var e' := Next(e, s);
      assert Runs(e', [], e');
      assert [s][1..] == [];
      assert Runs(e, [s], e');
      assert e'.queue != [] && NoNewCalls([s]);
    } else {
      forall more, e' | Runs(e, more, e') && NoNewCalls(more) ensures e'.queue == [] {
        QuiescedStays(e, more, e');
      }
    }
  }

  lemma {:induction false} DepthPositive(e: Emitter, steps: seq<Step>, e': Emitter)
    requires Runs(e, steps, e') && e.depth >= 1
    ensures e'.depth == e.depth
    decreases |steps|
  {
    if steps != [] {
      if IsMark(steps[0]) {
        MarkEffect(e, steps[0]);
      } else {
        NoMark(e, steps[0]);
      }
      DepthPositive(Next(e, steps[0]), steps[1..], e');
    }
  }

  // ---------- order of the written log ----------

  /** No call holds a head of `chain`. */
  predicate Serial(e: Emitter, s: Step) {
    IsMark(s) ==> forall id | id in e.calls :: HeldJob(e.calls[id]).Some? && HeldJob(e.calls[id]).value.Head? ==>
      HeldJob(e.calls[id]).value.chain != s.chain
  }

  /** A run in which calls for one chain never overlap. */
  ghost predicate SerialRuns(e: Emitter, steps: seq<Step>, e': Emitter)
    decreases |steps|
  {
    if steps == [] then e == e'
    else Enabled(e, steps[0]) && Serial(e, steps[0]) && SerialRuns(Next(e, steps[0]), steps[1..], e')
  }

  ghost predicate Increasing(s: seq<Job>) {
    forall i, k :: 0 <= i < k < |s| && s[i].Head? && s[k].Head? && s[i].chain == s[k].chain ==>
      s[i].sequence < s[k].sequence
  }

  /** Every head of `s` that is on the chain of `j` comes before it. */
  ghost predicate Before(s: seq<Job>, j: Job) {
    j.Head? ==> forall i :: 0 <= i < |s| && s[i].Head? && s[i].chain == j.chain ==> s[i].sequence < j.sequence
  }

  /** The jobs the worker will still handle, in order. */
  function Pending(e: Emitter): seq<Job> {
    if e.worker.Exited? then [] else Current(e.worker) + e.queue
  }

  /** What has been written and what the worker will still handle. */
  function Stream(e: Emitter): seq<Job> {
    e.written + Pending(e)
  }

  ghost predicate StreamOk(e: Emitter) {
    Increasing(Stream(e)) && (forall i :: 0 <= i < |e.written| ==> e.written[i].Head?)
  }

  ghost predicate HandsAhead(e: Emitter) {
    forall id, j: Job :: Holds(e, id, j) ==> Before(Stream(e), j)
  }

  ghost predicate OneHandPerChain(e: Emitter) {
    forall id, id', j: Job, j': Job ::
      Holds(e, id, j) && Holds(e, id', j') && j.Head? && j'.Head? && j.chain == j'.chain ==> id == id'
  }

  ghost predicate Ordered(e: Emitter) {
    StreamOk(e) && HandsAhead(e) && OneHandPerChain(e)
  }

  /** Heads that are written or pending were marked, so they are at most lastSeq. */
  lemma KnownIsMarked(e: Emitter, j: Job)
    requires Inv(e) && j.Head? && j in Stream(e)
    ensures j in e.marked && j.sequence <= Get(e.lastSeq, j.chain)
  {
    if j in e.written {
      assert multiset(e.written)[j] > 0;
    } else if j in e.queue {
      assert multiset(e.queue)[j] > 0;
    } else {
      assert multiset(Current(e.worker))[j] > 0;
    }
    assert multiset(e.marked)[j] > 0;
  }

  lemma NewHeadIsAhead(e: Emitter, m: Job)
    requires Inv(e) && m.Head? && m.sequence > Get(e.lastSeq, m.chain)
    ensures Before(Stream(e), m)
  {
    forall i | 0 <= i < |Stream(e)| && Stream(e)[i].Head? && Stream(e)[i].chain == m.chain
      ensures Stream(e)[i].sequence < m.sequence
    {
      KnownIsMarked(e, Stream(e)[i]);
    }
  }

  lemma OneHandMark(e: Emitter, s: Step)
    requires OneHandPerChain(e) && Enabled(e, s) && IsMark(s) && Serial(e, s)
    ensures OneHandPerChain(Next(e, s))
  {
    var e' := Next(e, s);
    MarkEffect(e, s);
    forall id, id', j: Job, j': Job
      | Holds(e', id, j) && Holds(e', id', j') && j.Head? && j'.Head? && j.chain == j'.chain
      ensures id == id'
    {
      assert id != s.id ==> Holds(e, id, j);
      assert id' != s.id ==> Holds(e, id', j');
    }
  }

  lemma OrderedMark(e: Emitter, s: Step)
    requires Inv(e) && Ordered(e) && Enabled(e, s) && IsMark(s) && Serial(e, s)
    ensures Ordered(Next(e, s))
  {
    var e' := Next(e, s);
    OneHandMark(e, s);
    MarkEffect(e, s);
    assert Stream(e') == Stream(e);
    forall id, j: Job | Holds(e', id, j) ensures Before(Stream(e'), j) {
      if id != s.id {
        assert Holds(e, id, j);
      } else {
        NewHeadIsAhead(e, j);
      }
    }
  }

  /** Hands only empty after the critical section, so hand facts survive a shorter or equal stream of comparisons. */
  lemma OneHandKept(e: Emitter, s: Step)
    requires OneHandPerChain(e) && Enabled(e, s) && !IsMark(s)
    ensures OneHandPerChain(Next(e, s))
  {
    var e' := Next(e, s);
    if IsHand(s) {
      HandHolds(e, s);
    } else {
      NoCall(e, s);
    }
    forall id, id', j: Job, j': Job
      | Holds(e', id, j) && Holds(e', id', j') && j.Head? && j'.Head? && j.chain == j'.chain
      ensures id == id'
    {
      assert Holds(e, id, j) && Holds(e, id', j');
    }
  }

  lemma IncreasingAppend(s: seq<Job>, j: Job)
    requires Increasing(s) && Before(s, j)
    ensures Increasing(s + [j])
  {
  }

  /** A call step leaves the stream alone or moves the head in its hand to the end of it. */
  ghost predicate StreamMoves(e: Emitter, e': Emitter, id: nat) {
    Stream(e') == Stream(e) ||
    (id in e.calls && HeldJob(e.calls[id]).Some? && Stream(e') == Stream(e) + [HeldJob(e.calls[id]).value] &&
     id in e'.calls && HeldJob(e'.calls[id]).None?)
  }

  ghost predicate WritesHeads(e: Emitter, e': Emitter) {
    && e.written <= e'.written
    && forall i :: |e.written| <= i < |e'.written| ==> e'.written[i].Head?
  }

  lemma SendStream(e: Emitter, s: Step)
    requires Inv(e) && Enabled(e, s) && (s.TrySend? || s.FlushSend?)
    ensures StreamMoves(e, Next(e, s), s.id) && WritesHeads(e, Next(e, s))
  {
    var e', j := Next(e, s), e.calls[s.id].job;
    if e'.queue != e.queue {
      PushedStream(e, e', j);
    }
  }

  lemma PushedStream(e: Emitter, e': Emitter, j: Job)
    requires e'.queue == e.queue + [j] && e'.written == e.written && e'.worker == e.worker
    ensures Stream(e') == if e.worker.Exited? then Stream(e) else Stream(e) + [j]
  {
    if !e.worker.Exited? {
      assert Current(e.worker) + (e.queue + [j]) == Current(e.worker) + e.queue + [j];
      assert e.written + (Current(e.worker) + e.queue + [j]) == e.written + (Current(e.worker) + e.queue) + [j];
    }
  }

  lemma InlineStream(e: Emitter, id: nat, m: Job, ok: bool)
    requires Holds(e, id, m) && e.worker.Exited?
    ensures StreamMoves(e, InlineNext(e, id, m, ok), id) && WritesHeads(e, InlineNext(e, id, m, ok))
  {
  }

  lemma HandStream(e: Emitter, s: Step)
    requires Inv(e) && Enabled(e, s) && IsHand(s)
    ensures StreamMoves(e, Next(e, s), s.id) && WritesHeads(e, Next(e, s))
  {
    match s
    case CheckClosed(_) =>
    case TrySend(_) => SendStream(e, s);
    case FlushAllCall(_) =>
    case FlushSend(_) => SendStream(e, s);
    case FlushInline(id, ok) => InlineStream(e, id, e.calls[id].job, ok);
    case FlushReturn(_) =>
  }

  lemma OrderedHand(e: Emitter, s: Step)
    requires Inv(e) && Ordered(e) && Enabled(e, s) && IsHand(s)
    ensures Ordered(Next(e, s))
  {
    OneHandKept(e, s);
    HandStream(e, s);
    HandHolds(e, s);
    if Stream(Next(e, s)) != Stream(e) {
      HandEmptied(e, Next(e, s), s.id);
    } else {
      forall h, j: Job | Holds(Next(e, s), h, j) ensures Before(Stream(Next(e, s)), j) {
        if j.Head? {
          assert Holds(e, h, j);
        }
      }
    }
  }

  /** One hand puts its head at the end of the stream; the other hands are ahead of that one too. */
  lemma HandEmptied(e: Emitter, e': Emitter, id: nat)
    requires Ordered(e) && id in e.calls && HeldJob(e.calls[id]).Some? && !Holds(e', id, HeldJob(e.calls[id]).value)
    requires Stream(e') == Stream(e) + [HeldJob(e.calls[id]).value] && id in e'.calls && HeldJob(e'.calls[id]).None?
    requires WritesHeads(e, e') && OneHandPerChain(e')
    requires forall h, j: Job :: j.Head? && Holds(e', h, j) ==> Holds(e, h, j)
    ensures Ordered(e')
  {
    var m := HeldJob(e.calls[id]).value;
    assert Holds(e, id, m);
    IncreasingAppend(Stream(e), m);
    forall h, j: Job | Holds(e', h, j) ensures Before(Stream(e'), j) {
      if j.Head? {
        assert Holds(e, h, j) && h != id;
      }
    }
  }

  /** A worker step leaves the stream alone, or takes one job out of it for good. */
  ghost predicate StreamShrinks(e: Emitter, e': Emitter) {
    Stream(e') == Stream(e) ||
    (|e.written| < |Stream(e)| && Stream(e') == e.written + Stream(e)[|e.written| + 1..])
  }

  lemma SplitAt(w: seq<Job>, j: Job, q: seq<Job>)
    ensures (w + ([j] + q))[|w| + 1..] == q && w + [j] + q == w + ([j] + q) && [] + q == q
  {
  }

  lemma FinishStream(e: Emitter, e': Emitter, j: Job)
    requires Current(e.worker) == [j] && !e.worker.Exited? && !e'.worker.Exited? && Current(e'.worker) == []
    requires e'.queue == e.queue
    requires e'.written == e.written || (j.Head? && e'.written == e.written + [j])
    ensures StreamShrinks(e, e') && WritesHeads(e, e')
  {
    SplitAt(e.written, j, e.queue);
    assert Pending(e) == [j] + e.queue && Pending(e') == e.queue;
  }

  lemma TakeStream(e: Emitter, e': Emitter)
    requires e.queue != [] && Current(e.worker) == [] && !e.worker.Exited? && !e'.worker.Exited?
    requires Current(e'.worker) == [e.queue[0]] && e'.queue == e.queue[1..] && e'.written == e.written
    ensures Stream(e') == Stream(e)
  {
    assert e.queue == [e.queue[0]] + e.queue[1..];
    assert [] + e.queue == e.queue;
  }

  lemma WorkerStream(e: Emitter, s: Step)
    requires Enabled(e, s) && (IsWorker(s) || IsClose(s))
    ensures StreamShrinks(e, Next(e, s)) && WritesHeads(e, Next(e, s))
  {
    if s.Take? {
      TakeEffect(e);
      TakeStream(e, Next(e, s));
    } else if s.Finish? {
      FinishEffect(e, s.ok);
      FinishStream(e, Next(e, s), e.worker.job);
    } else {
      IdleEffect(e, s);
    }
  }

  lemma IncreasingWithout(s: seq<Job>, n: nat)
    requires n < |s|
    ensures Increasing(s) ==> Increasing(s[..n] + s[n + 1..])
    ensures forall j: Job :: Before(s, j) ==> Before(s[..n] + s[n + 1..], j)
  {
    var t := s[..n] + s[n + 1..];
    assert forall i :: 0 <= i < |t| ==> t[i] == s[if i < n then i else i + 1];
  }

  lemma ShrunkOrder(e: Emitter, e': Emitter)
    requires StreamShrinks(e, e') && WritesHeads(e, e') && StreamOk(e)
    ensures StreamOk(e')
    ensures forall j: Job :: Before(Stream(e), j) ==> Before(Stream(e'), j)
  {
    if Stream(e') != Stream(e) {
      assert Stream(e)[..|e.written|] == e.written;
      IncreasingWithout(Stream(e), |e.written|);
    }
  }

  lemma OrderedWorker(e: Emitter, s: Step)
    requires Inv(e) && Ordered(e) && Enabled(e, s) && (IsWorker(s) || IsClose(s))
    ensures Ordered(Next(e, s))
  {
    var e' := Next(e, s);
    NoCall(e, s);
    OneHandKept(e, s);
    WorkerStream(e, s);
    ShrunkOrder(e, e');
    forall id, j: Job | Holds(e', id, j) ensures Before(Stream(e'), j) {
      assert Holds(e, id, j);
    }
  }

  lemma OrderedStep(e: Emitter, s: Step)
    requires Inv(e) && Ordered(e) && Enabled(e, s) && Serial(e, s)
    ensures Ordered(Next(e, s))
  {
    if IsMark(s) {
      OrderedMark(e, s);
    } else if IsHand(s) {
      OrderedHand(e, s);
    } else {
      OrderedWorker(e, s);
    }
  }

  lemma {:induction false} SerialRunOrdered(e: Emitter, steps: seq<Step>, e': Emitter)
    requires Inv(e) && Ordered(e) && SerialRuns(e, steps, e')
    ensures Inv(e') && Ordered(e') && Runs(e, steps, e')
    decreases |steps|
  {
    if steps != [] {
      StepInv(e, steps[0]);
      OrderedStep(e, steps[0]);
      SerialRunOrdered(Next(e, steps[0]), steps[1..], e');
    }
  }

  /** When calls for one chain do not overlap, the written log of every chain is strictly increasing. */
  lemma SerialLogIncreases(cadence: nat, depth: nat, steps: seq<Step>, e: Emitter)
    requires SerialRuns(NewEmitter(cadence, depth), steps, e)
    ensures Increasing(e.written) && Reached(cadence, depth, steps, e)
    ensures forall i :: 0 <= i < |e.written| ==> e.written[i].Head?
  {
    NewInv(cadence, depth);
    SerialRunOrdered(NewEmitter(cadence, depth), steps, e);
    forall i, k | 0 <= i < k < |e.written| && e.written[i].Head? && e.written[k].Head? &&
      e.written[i].chain == e.written[k].chain
      ensures e.written[i].sequence < e.written[k].sequence
    {
      var all := Stream(e);
      assert all[i] == e.written[i] && all[k] == e.written[k];
    }
  }

  /**
   Nothing dropped, no fault, nothing in progress: then what was marked is what was written, and
   the last mark of every chain is its latest.
   */
  lemma NothingLost(e: Emitter, c: string)
    requires Inv(e) && e.dropped == [] && e.failed == [] && e.queue == [] && Current(e.worker) == []
    requires forall id, j: Job :: Holds(e, id, j) ==> j.Sentinel?
    ensures forall j: Job :: j.Head? ==> (j in e.marked <==> j in e.written)
    ensures Get(e.lastSeq, c) > 0 ==>
              HasMark(e.written, c, Get(e.lastSeq, c))
  {
    forall j: Job | j.Head? ensures j in e.marked <==> j in e.written {
      assert !InHand(e, j);
      assert Places(e, j) == multiset(e.marked)[j];
    }
    if Get(e.lastSeq, c) > 0 {
      assert HasMark(e.marked, c, Get(e.lastSeq, c));
      var i :| 0 <= i < |e.marked| && e.marked[i].chain == c && e.marked[i].sequence == Get(e.lastSeq, c);
      assert e.marked[i] in e.marked && e.marked[i] in e.written;
    }
  }
}
