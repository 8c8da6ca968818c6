/**
 daemon/internal/checkpoint/emitter.go as an interleaving machine: any number of goroutines inside
 Observe, Flush or FlushAll, one worker, and one Close.

 `Observe` marks a head under the mutex but enqueues it after unlocking, and `enqueue` checks the
 closed flag before it tries to send; both gaps are separate steps here. One sink is modelled: an
 append-only list whose writes may fail.
 */
module EmitterMachine {
  import opened Receipts

  /** A pending emission; FlushAll's sentinel carries no head. */
  datatype Job = Head(chain: string, sequence: nat, hash: Hash) | Sentinel

  /** Where a goroutine is inside an emitter call. */
  datatype Call =
    | Marked(job: Job)
    | Sending(job: Job)
    | FlushSending(job: Job)
    | FlushWaiting(position: nat, job: Job)
    | Returned

  datatype Worker = Waiting | Running(job: Job) | Draining | DrainRunning(job: Job) | Exited

  /**
   The fields of Emitter, then its history: what was marked, sent, handled by the worker, emitted
   inline by Flush, dropped, written and lost to a fault, and how much had been sent at Close.
   */
  datatype Emitter = Emitter(
    cadence: nat,
    depth: nat,
    counts: map<string, nat>,
    lastSeq: map<string, nat>,
    calls: map<nat, Call>,
    queue: seq<Job>,
    closed: bool,
    worker: Worker,
    marked: seq<Job>,
    sent: seq<Job>,
    handled: seq<Job>,
    inlined: seq<Job>,
    dropped: seq<Job>,
    written: seq<Job>,
    failed: seq<Job>,
    stopAt: Option<nat>)

  function AtLeastOne(n: nat): nat {
    if n < 1 then 1 else n
  }

  function NewEmitter(cadence: nat, depth: nat): Emitter {
    Emitter(AtLeastOne(cadence), AtLeastOne(depth), map[], map[], map[], [], false, Waiting,
            [], [], [], [], [], [], [], None)
  }

  function Get(m: map<string, nat>, k: string): nat {
    if k in m then m[k] else 0
  }

  datatype Step =
    | ObserveCall(id: nat, chain: string, sequence: nat, hash: Hash)
    | CheckClosed(id: nat)
    | TrySend(id: nat)
    | FlushCall(id: nat, chain: string, sequence: nat, hash: Hash)
    | FlushAllCall(id: nat)
    | FlushSend(id: nat)
    | FlushInline(id: nat, ok: bool)
    | FlushReturn(id: nat)
    | Take
    | Finish(ok: bool)
    | NoticeStop
    | Exit
    | SetClosed
    | Stop

  function SetCall(e: Emitter, id: nat, c: Call): Emitter {
    e.(calls := e.calls[id := c])
  }

  /** markEmitLocked. */
  function MarkIfNew(e: Emitter, id: nat, j: Job, then_: Call): Emitter
    requires j.Head?
  {
    if j.sequence <= Get(e.lastSeq, j.chain) then SetCall(e, id, Returned)
    else SetCall(e.(lastSeq := e.lastSeq[j.chain := j.sequence], marked := e.marked + [j]), id, then_)
  }

  /** The critical section of Observe. */
  function ObserveNext(e: Emitter, id: nat, j: Job): Emitter
    requires j.Head?
  {
    var n := Get(e.counts, j.chain) + 1;
    if n >= e.cadence
    then MarkIfNew(e.(counts := e.counts[j.chain := 0]), id, j, Marked(j))
    else SetCall(e.(counts := e.counts[j.chain := n]), id, Returned)
  }

  /** The critical section of Flush. */
  function FlushNext(e: Emitter, id: nat, j: Job): Emitter
    requires j.Head?
  {
    MarkIfNew(e.(counts := e.counts[j.chain := 0]), id, j, FlushSending(j))
  }

  function Drop(e: Emitter, id: nat, j: Job): Emitter {
    SetCall(e.(dropped := e.dropped + [j]), id, Returned)
  }

  function Push(e: Emitter, j: Job): Emitter {
    e.(queue := e.queue + [j], sent := e.sent + [j])
  }

  /** emit: sign once, then write; a sentinel writes nothing. */
  function Emitted(e: Emitter, j: Job, ok: bool): Emitter {
    if j.Sentinel? then e
    else if ok then e.(written := e.written + [j])
    else e.(failed := e.failed + [j])
  }

  function CheckNext(e: Emitter, id: nat, j: Job): Emitter {
    if e.closed then Drop(e, id, j) else SetCall(e, id, Sending(j))
  }

  /** A send that does not block: a full queue drops the job. */
  function SendNext(e: Emitter, id: nat, j: Job): Emitter {
    if |e.queue| < e.depth then SetCall(Push(e, j), id, Returned) else Drop(e, id, j)
  }

  /** Flush after the worker has exited: emit here. */
  function InlineNext(e: Emitter, id: nat, j: Job, ok: bool): Emitter {
    var e1 := if j.Head? then e.(inlined := e.inlined + [j]) else e;
    SetCall(Emitted(e1, j, ok), id, Returned)
  }

  function TakeNext(e: Emitter): Emitter
    requires e.queue != []
  {
    e.(queue := e.queue[1..],
       worker := if e.worker.Waiting? then Running(e.queue[0]) else DrainRunning(e.queue[0]))
  }

  function FinishNext(e: Emitter, j: Job, ok: bool): Emitter {
    Emitted(e.(handled := e.handled + [j], worker := if e.worker.Running? then Waiting else Draining), j, ok)
  }

  predicate Enabled(e: Emitter, s: Step) {
    match s
    case ObserveCall(id, _, _, _) => id !in e.calls
    case CheckClosed(id) => id in e.calls && e.calls[id].Marked?
    case TrySend(id) => id in e.calls && e.calls[id].Sending?
    case FlushCall(id, _, _, _) => id !in e.calls
    case FlushAllCall(id) => id !in e.calls
    case FlushSend(id) => id in e.calls && e.calls[id].FlushSending? && |e.queue| < e.depth
    case FlushInline(id, _) => id in e.calls && e.calls[id].FlushSending? && e.worker.Exited?
    case FlushReturn(id) => id in e.calls && e.calls[id].FlushWaiting? &&
                            (e.calls[id].position < |e.handled| || e.worker.Exited?)
    case Take => (e.worker.Waiting? || e.worker.Draining?) && e.queue != []
    case Finish(_) => e.worker.Running? || e.worker.DrainRunning?
    case NoticeStop => e.worker.Waiting? && e.stopAt.Some?
    case Exit => e.worker.Draining? && e.queue == []
    case SetClosed => !e.closed
    case Stop => e.closed && e.stopAt.None?
  }

  function Next(e: Emitter, s: Step): Emitter
    requires Enabled(e, s)
  {
    match s
    case ObserveCall(id, chain, sequence, hash) => ObserveNext(e, id, Head(chain, sequence, hash))
    case CheckClosed(id) => CheckNext(e, id, e.calls[id].job)
    case TrySend(id) => SendNext(e, id, e.calls[id].job)
    case FlushCall(id, chain, sequence, hash) => FlushNext(e, id, Head(chain, sequence, hash))
    case FlushAllCall(id) => SetCall(e, id, FlushSending(Sentinel))
    case FlushSend(id) => SetCall(Push(e, e.calls[id].job), id, FlushWaiting(|e.sent|, e.calls[id].job))
    case FlushInline(id, ok) => InlineNext(e, id, e.calls[id].job, ok)
    case FlushReturn(id) => SetCall(e, id, Returned)
    case Take => TakeNext(e)
    case Finish(ok) => FinishNext(e, e.worker.job, ok)
    case NoticeStop => e.(worker := Draining)
    case Exit => e.(worker := Exited)
    case SetClosed => e.(closed := true)
    case Stop => e.(stopAt := Some(|e.sent|))
  }

  ghost predicate Runs(e: Emitter, steps: seq<Step>, e': Emitter)
    decreases |steps|
  {
    if steps == [] then e == e'
    else Enabled(e, steps[0]) && Runs(Next(e, steps[0]), steps[1..], e')
  }

  // ---------- invariants ----------

  function HeldJob(c: Call): Option<Job> {
    match c
    case Marked(j) => Some(j)
    case Sending(j) => Some(j)
    case FlushSending(j) => Some(j)
    case _ => None
  }

  /** Call `id` has the head `j` in hand: marked, not yet sent, dropped or emitted. */
  predicate Holds(e: Emitter, id: nat, j: Job) {
    id in e.calls && HeldJob(e.calls[id]) == Some(j)
  }

  ghost predicate InHand(e: Emitter, j: Job) {
    exists id :: Holds(e, id, j)
  }

  function Current(w: Worker): seq<Job> {
    if w.Running? || w.DrainRunning? then [w.job] else []
  }

  function One(b: bool): nat {
    if b then 1 else 0
  }

  /** How often the head `j` occurs in the places a marked head can be. */
  ghost function Places(e: Emitter, j: Job): nat {
    One(InHand(e, j)) + multiset(e.queue)[j] + multiset(Current(e.worker))[j] +
    multiset(e.handled)[j] + multiset(e.inlined)[j] + multiset(e.dropped)[j]
  }

  ghost predicate Conserved(e: Emitter) {
    && (forall j: Job :: j.Head? ==> Places(e, j) == multiset(e.marked)[j])
    && (forall j: Job :: j.Head? ==>
          multiset(e.written)[j] + multiset(e.failed)[j] == multiset(e.handled)[j] + multiset(e.inlined)[j])
  }

  ghost predicate OneHolder(e: Emitter) {
    forall id, id', j: Job :: j.Head? && Holds(e, id, j) && Holds(e, id', j) ==> id == id'
  }

  ghost predicate HasMark(marked: seq<Job>, c: string, n: nat) {
    exists i :: 0 <= i < |marked| && marked[i].Head? && marked[i].chain == c && marked[i].sequence == n
  }

  /** Marks of a chain strictly increase and lastSeq is the latest of them. */
  ghost predicate Marks(marked: seq<Job>, lastSeq: map<string, nat>) {
    && (forall i :: 0 <= i < |marked| ==> marked[i].Head? && marked[i].sequence <= Get(lastSeq, marked[i].chain))
    && (forall i, k :: 0 <= i < k < |marked| && marked[i].chain == marked[k].chain ==>
          marked[i].sequence < marked[k].sequence)
    && (forall c :: Get(lastSeq, c) > 0 ==> HasMark(marked, c, Get(lastSeq, c)))
  }

  ghost predicate MarksIncrease(e: Emitter) {
    Marks(e.marked, e.lastSeq)
  }

  /** The queue is first-in first-out, and what was sent before Stop is handled before Exit. */
  ghost predicate QueueOk(e: Emitter) {
    && e.sent == e.handled + Current(e.worker) + e.queue
    && |e.queue| <= e.depth
    && (forall id :: id in e.calls && e.calls[id].FlushWaiting? ==>
          e.calls[id].position < |e.sent| && e.sent[e.calls[id].position] == e.calls[id].job)
    && (e.stopAt.Some? ==> e.closed && e.stopAt.value <= |e.sent|)
    && (e.worker.Draining? || e.worker.DrainRunning? || e.worker.Exited? ==> e.stopAt.Some?)
    && (e.worker.Exited? ==> e.stopAt.value <= |e.handled|)
  }

  ghost predicate Inv(e: Emitter) {
    Conserved(e) && OneHolder(e) && MarksIncrease(e) && QueueOk(e)
  }

  lemma NewInv(cadence: nat, depth: nat)
    ensures Inv(NewEmitter(cadence, depth))
  {
  }

  // ---------- preservation, one part at a time ----------

  predicate IsMark(s: Step) {
    s.ObserveCall? || s.FlushCall?
  }

  predicate IsWorker(s: Step) {
    s.Take? || s.Finish? || s.NoticeStop? || s.Exit?
  }

  predicate IsClose(s: Step) {
    s.SetClosed? || s.Stop?
  }

  /** The steps a call takes after its critical section. */
  predicate IsHand(s: Step) {
    !IsMark(s) && !IsWorker(s) && !IsClose(s)
  }

  function JobOf(s: Step): Job
    requires IsMark(s)
  {
    Head(s.chain, s.sequence, s.hash)
  }

  /** What a critical section does, with the two outcomes told apart. */
  lemma MarkEffect(e: Emitter, s: Step)
    requires Enabled(e, s) && IsMark(s)
    ensures var e' := Next(e, s); var j := JobOf(s);
            && s.id in e'.calls
            && e' == e.(counts := e'.counts, lastSeq := e'.lastSeq, marked := e'.marked,
                        calls := e.calls[s.id := e'.calls[s.id]])
            && ((e'.marked == e.marked && e'.lastSeq == e.lastSeq && e'.calls[s.id] == Returned) ||
                (j.sequence > Get(e.lastSeq, j.chain) && e'.marked == e.marked + [j] &&
                 e'.lastSeq == e.lastSeq[j.chain := j.sequence] &&
                 e'.calls[s.id] == if s.ObserveCall? then Marked(j) else FlushSending(j)))
  {
  }

  predicate SameMarks(e: Emitter, e': Emitter) {
    && e'.marked == e.marked && e'.lastSeq == e.lastSeq && e'.counts == e.counts
    && e'.cadence == e.cadence && e'.depth == e.depth
  }

  /** Only critical sections mark. */
  lemma NoMark(e: Emitter, s: Step)
    requires Enabled(e, s) && !IsMark(s)
    ensures SameMarks(e, Next(e, s))
  {
    match s
    case Finish(ok) => assert SameMarks(e, FinishNext(e, e.worker.job, ok));
    case FlushInline(id, ok) => assert SameMarks(e, InlineNext(e, id, e.calls[id].job, ok));
    case CheckClosed(id) => assert SameMarks(e, CheckNext(e, id, e.calls[id].job));
    case TrySend(id) => assert SameMarks(e, SendNext(e, id, e.calls[id].job));
    case _ =>
  }

  /** Worker and Close steps touch no call. */
  lemma NoCall(e: Emitter, s: Step)
    requires Enabled(e, s) && (IsWorker(s) || IsClose(s))
    ensures Next(e, s).calls == e.calls
  {
  }

  lemma MarksExtended(marked: seq<Job>, lastSeq: map<string, nat>, j: Job)
    requires Marks(marked, lastSeq) && j.Head? && j.sequence > Get(lastSeq, j.chain)
    ensures Marks(marked + [j], lastSeq[j.chain := j.sequence])
  {
    var marked', lastSeq' := marked + [j], lastSeq[j.chain := j.sequence];
    forall c | Get(lastSeq', c) > 0 ensures HasMark(marked', c, Get(lastSeq', c)) {
      if c != j.chain {
        assert HasMark(marked, c, Get(lastSeq, c));
        var i :| 0 <= i < |marked| && marked[i].chain == c && marked[i].sequence == Get(lastSeq, c);
        assert marked'[i] == marked[i];
      } else {
        assert marked'[|marked|] == j;
      }
    }
  }

  lemma MarksKept(e: Emitter, s: Step)
    requires MarksIncrease(e) && Enabled(e, s)
    ensures MarksIncrease(Next(e, s))
  {
    if IsMark(s) {
      MarkEffect(e, s);
      if Next(e, s).marked != e.marked {
        MarksExtended(e.marked, e.lastSeq, JobOf(s));
      }
    } else {
      NoMark(e, s);
    }
  }

  lemma QueueKeptByHand(e: Emitter, s: Step)
    requires QueueOk(e) && Enabled(e, s) && IsHand(s)
    ensures QueueOk(Next(e, s))
  {
    match s
    case CheckClosed(_) =>
    case TrySend(id) => QueueKeptByTrySend(e, id, e.calls[id].job);
    case FlushAllCall(_) =>
    case FlushSend(id) => QueueKeptByFlushSend(e, id);
    case FlushInline(id, ok) => QueueKeptByInline(e, id, e.calls[id].job, ok);
    case FlushReturn(_) =>
  }

  lemma QueueKeptByTrySend(e: Emitter, id: nat, j: Job)
    requires QueueOk(e)
    ensures QueueOk(SendNext(e, id, j))
  {
    if |e.queue| < e.depth {
      QueueKeptByPush(e, SetCall(Push(e, j), id, Returned), id, Returned, j);
    } else {
      assert QueueOk(Drop(e, id, j));
    }
  }

  /** A job goes to the end of the queue, and the call that sent it goes on as `c`. */
  lemma QueueKeptByPush(e: Emitter, e': Emitter, id: nat, c: Call, j: Job)
    requires QueueOk(e) && |e.queue| < e.depth && e' == SetCall(Push(e, j), id, c)
    requires c.Returned? || c == FlushWaiting(|e.sent|, j)
    ensures QueueOk(e')
  {
    assert e.handled + Current(e.worker) + (e.queue + [j]) == e.handled + Current(e.worker) + e.queue + [j];
    forall i | i in e'.calls && e'.calls[i].FlushWaiting?
      ensures e'.calls[i].position < |e'.sent| && e'.sent[e'.calls[i].position] == e'.calls[i].job
    {
      if i != id {
        assert e'.calls[i] == e.calls[i];
      }
    }
  }

  lemma QueueKeptByInline(e: Emitter, id: nat, j: Job, ok: bool)
    requires QueueOk(e)
    ensures QueueOk(InlineNext(e, id, j, ok))
  {
  }

  lemma QueueKeptByFlushSend(e: Emitter, id: nat)
    requires QueueOk(e) && Enabled(e, FlushSend(id))
    ensures QueueOk(Next(e, FlushSend(id)))
  {
    var j := e.calls[id].job;
    QueueKeptByPush(e, Next(e, FlushSend(id)), id, FlushWaiting(|e.sent|, j), j);
  }

  lemma QueueKeptByWorker(e: Emitter, s: Step)
    requires QueueOk(e) && Enabled(e, s) && IsWorker(s)
    ensures QueueOk(Next(e, s))
  {
    match s
    case Take => QueueKeptByTake(e);
    case Finish(ok) => QueueKeptByFinish(e, e.worker.job, ok);
    case NoticeStop =>
    case Exit =>
  }

  lemma QueueKeptByTake(e: Emitter)
    requires QueueOk(e) && Enabled(e, Take)
    ensures QueueOk(TakeNext(e))
  {
    assert e.handled + [] + e.queue == e.handled + [e.queue[0]] + e.queue[1..];
  }

  lemma QueueKeptByFinish(e: Emitter, j: Job, ok: bool)
    requires QueueOk(e) && (e.worker.Running? || e.worker.DrainRunning?) && e.worker.job == j
    ensures QueueOk(FinishNext(e, j, ok))
  {
    assert e.handled + [j] + [] + e.queue == e.handled + [j] + e.queue;
    assert forall id :: id in e.calls && e.calls[id].FlushWaiting? ==> e.calls[id].position < |e.sent|;
  }

  lemma QueueKept(e: Emitter, s: Step)
    requires QueueOk(e) && Enabled(e, s)
    ensures QueueOk(Next(e, s))
  {
    if IsMark(s) {
      MarkEffect(e, s);
    } else if IsWorker(s) {
      QueueKeptByWorker(e, s);
    } else if IsHand(s) {
      QueueKeptByHand(e, s);
    }
  }

  /** A job never marked before is nowhere. */
  lemma NewJobIsNowhere(e: Emitter, j: Job)
    requires Conserved(e) && MarksIncrease(e) && j.Head? && j.sequence > Get(e.lastSeq, j.chain)
    ensures multiset(e.marked)[j] == 0 && Places(e, j) == 0
    ensures forall id :: !Holds(e, id, j)
  {
    assert j !in e.marked;
    forall id ensures !Holds(e, id, j) {
      if Holds(e, id, j) {
        assert InHand(e, j);
      }
    }
  }

  /** Replacing the entry of one call moves at most the heads that entry holds. */
  lemma HandsAfter(e: Emitter, e': Emitter, id: nat, j: Job)
    requires OneHolder(e) && j.Head? && id in e'.calls
    requires e'.calls == e.calls[id := e'.calls[id]]
    ensures Holds(e', id, j) ==> InHand(e', j)
    ensures Holds(e, id, j) ==> InHand(e, j)
    ensures !Holds(e, id, j) && !Holds(e', id, j) ==> (InHand(e', j) <==> InHand(e, j))
    ensures Holds(e, id, j) && !Holds(e', id, j) ==> !InHand(e', j)
  {
    if !Holds(e', id, j) {
      if InHand(e, j) && !Holds(e, id, j) {
        var h :| Holds(e, h, j);
        assert Holds(e', h, j);
      }
      if InHand(e', j) {
        var h :| Holds(e', h, j);
        assert Holds(e, h, j);
      }
    }
  }

  lemma HolderKept(e: Emitter, s: Step)
    requires Conserved(e) && OneHolder(e) && MarksIncrease(e) && Enabled(e, s)
    ensures OneHolder(Next(e, s))
  {
    var e' := Next(e, s);
    if IsMark(s) {
      MarkEffect(e, s);
      if e'.marked != e.marked {
        NewJobIsNowhere(e, JobOf(s));
      }
      forall id, id', j: Job | j.Head? && Holds(e', id, j) && Holds(e', id', j) ensures id == id' {
        assert id != s.id ==> Holds(e, id, j);
        assert id' != s.id ==> Holds(e, id', j);
      }
    } else if IsHand(s) {
      HandHolds(e, s);
      forall id, id', j: Job | j.Head? && Holds(e', id, j) && Holds(e', id', j) ensures id == id' {
        assert Holds(e, id, j) && Holds(e, id', j);
      }
    } else {
      NoCall(e, s);
      forall id, id', j: Job | j.Head? && Holds(e', id, j) && Holds(e', id', j) ensures id == id' {
        assert Holds(e, id, j) && Holds(e, id', j);
      }
    }
  }

  /** A call never acquires a head after its critical section. */
  lemma HandHolds(e: Emitter, s: Step)
    requires Enabled(e, s) && IsHand(s)
    ensures s.id in Next(e, s).calls && Next(e, s).calls == e.calls[s.id := Next(e, s).calls[s.id]]
    ensures forall id, j: Job :: j.Head? && Holds(Next(e, s), id, j) ==> Holds(e, id, j)
  {
  }
}
