/** The event pipeline: a gated, bounded inbox, one dispatcher, and up to five flush workers. */
module EventProcessor {
  /** An analytics event; one that is not sendable is dropped when it reaches the buffer. */
  datatype Event = Event(id: nat, isSendEvent: bool)

  datatype Message = EventMessage(event: Event) | FlushMessage | ShutdownMessage

  const MAX_FLUSH_WORKERS := 5
  const BATCH_SIZE := 50
  const MAX_EVENTS_PER_REQUEST := 50

  // ---------- sending a payload in parts ----------

  /** The consecutive chunks of at most `size` events. */
  function Partition(payload: seq<Event>, size: nat): (chunks: seq<seq<Event>>)
    requires size > 0
    decreases |payload|
  {
    if payload == [] then []
    else if |payload| <= size then [payload]
    else [payload[..size]] + Partition(payload[size..], size)
  }

  function Flatten(chunks: seq<seq<Event>>): seq<Event> {
    if chunks == [] then [] else Flatten(chunks[..|chunks| - 1]) + chunks[|chunks| - 1]
  }

  lemma {:induction false} FlattenConcat(a: seq<seq<Event>>, b: seq<seq<Event>>)
    ensures Flatten(a + b) == Flatten(a) + Flatten(b)
  {
    if b == [] {
      assert a + b == a;
    } else {
      var front, last := b[..|b| - 1], b[|b| - 1];
      assert (a + b)[..|a + b| - 1] == a + front && (a + b)[|a + b| - 1] == last;
      FlattenConcat(a, front);
      assert Flatten(a) + (Flatten(front) + last) == Flatten(a) + Flatten(front) + last;
    }
  }

  lemma FlattenOne(chunk: seq<Event>)
    ensures Flatten([chunk]) == chunk
  {
  }

  /** Partitioning loses nothing, adds nothing and keeps the order; every chunk is non-empty and within the limit, all but the last at it. */
  lemma PartitionSound(payload: seq<Event>, size: nat)
    requires size > 0
    ensures Flatten(Partition(payload, size)) == payload
    ensures forall c :: c in Partition(payload, size) ==> 0 < |c| <= size
    ensures forall i :: 0 <= i < |Partition(payload, size)| - 1 ==> |Partition(payload, size)[i]| == size
  {
    PartitionFlattens(payload, size);
    PartitionBounded(payload, size);
  }

  lemma {:induction false} PartitionBounded(payload: seq<Event>, size: nat)
    requires size > 0
    ensures forall c :: c in Partition(payload, size) ==> 0 < |c| <= size
    ensures forall i :: 0 <= i < |Partition(payload, size)| - 1 ==> |Partition(payload, size)[i]| == size
    decreases |payload|
  {
    if |payload| > size {
      PartitionBounded(payload[size..], size);
    }
  }

  lemma {:induction false} PartitionFlattens(payload: seq<Event>, size: nat)
    requires size > 0
    ensures Flatten(Partition(payload, size)) == payload
    decreases |payload|
  {
    if |payload| > size {
      var first, rest := payload[..size], Partition(payload[size..], size);
      assert Partition(payload, size) == [first] + rest;
      PartitionFlattens(payload[size..], size);
      hide Partition, Flatten;
      FlattenConcat([first], rest);
      FlattenOne(first);
      assert payload == first + payload[size..];
    } else {
      FlattenOne(payload);
    }
  }

  /** The end of the chunk that starts at `i`. */
  function ChunkEnd(payload: seq<Event>, size: nat, i: nat): nat {
    if i + size <= |payload| then i + size else |payload|
  }

  lemma PartitionStep(payload: seq<Event>, size: nat, i: nat)
    requires size > 0 && i < |payload|
    ensures var end := ChunkEnd(payload, size, i);
            Partition(payload[i..], size) == [payload[i..end]] + Partition(payload[end..], size)
  {
    var rest, end := payload[i..], ChunkEnd(payload, size, i);
    if |rest| <= size {
      assert payload[end..] == [] && payload[i..end] == rest;
    } else {
      assert rest[..size] == payload[i..end] && rest[size..] == payload[end..];
    }
  }

  /** The first chunks of a partition make up a first part of the payload, and all of it only if they are all chunks. */
  lemma PartitionPrefix(payload: seq<Event>, size: nat, n: nat)
    requires size > 0 && n <= |Partition(payload, size)|
    ensures Flatten(Partition(payload, size)[..n]) <= payload
    ensures Flatten(Partition(payload, size)[..n]) == payload <==> n == |Partition(payload, size)|
  {
    var chunks := Partition(payload, size);
    PartitionSound(payload, size);
    hide Partition;
    assert chunks == chunks[..n] + chunks[n..];
    FlattenConcat(chunks[..n], chunks[n..]);
    if n < |chunks| {
      assert chunks[n..][..|chunks| - n] == chunks[n..];
      assert chunks[n..][|chunks| - n - 1] in chunks;
      assert |Flatten(chunks[n..])| > 0;
      assert |Flatten(chunks[..n])| < |payload|;
    } else {
      assert chunks[n..] == [];
    }
  }

  /**
   * `FlushPayloadRunner.run`: posts the chunks in order. The sender raises at chunk number `raisesAt`, if there is
   * one; that chunk and all behind it are dropped.
   */
  method RunFlush(payload: seq<Event>, raisesAt: nat) returns (ok: bool, posted: seq<seq<Event>>)
    ensures ok <==> raisesAt >= |Partition(payload, MAX_EVENTS_PER_REQUEST)|
    ensures posted == if ok then Partition(payload, MAX_EVENTS_PER_REQUEST) else Partition(payload, MAX_EVENTS_PER_REQUEST)[..raisesAt]
    ensures Flatten(posted) <= payload && (Flatten(posted) == payload <==> ok)
    ensures forall c :: c in posted ==> 0 < |c| <= MAX_EVENTS_PER_REQUEST
  {
    ghost var chunks := Partition(payload, MAX_EVENTS_PER_REQUEST);
    RestAtEnds(payload);
    hide Partition, Flatten, Rest, ChunkEnd;
    ok, posted := true, [];
    var i: nat := 0;
    while ok && i < |payload|
      invariant |posted| <= raisesAt && chunks == posted + Rest(payload, i)
      invariant !ok ==> |posted| == raisesAt && Rest(payload, i) != []
      decreases ok, |payload| - i
    {
      RestStep(payload, i);
      if |posted| == raisesAt {
        ok := false;
      } else {
        var chunk := payload[i..ChunkEnd(payload, MAX_EVENTS_PER_REQUEST, i)];
        Onward(posted, chunk, Rest(payload, i + MAX_EVENTS_PER_REQUEST));
        posted := posted + [chunk];
        i := i + MAX_EVENTS_PER_REQUEST;
      }
    }
    FirstChunks(payload, posted, Rest(payload, i));
  }

  lemma FirstChunks(payload: seq<Event>, posted: seq<seq<Event>>, rest: seq<seq<Event>>)
    requires Partition(payload, MAX_EVENTS_PER_REQUEST) == posted + rest
    ensures posted == Partition(payload, MAX_EVENTS_PER_REQUEST)[..|posted|]
    ensures rest == [] ==> posted == Partition(payload, MAX_EVENTS_PER_REQUEST)
    ensures rest != [] ==> |posted| < |Partition(payload, MAX_EVENTS_PER_REQUEST)|
    ensures Flatten(posted) <= payload && (Flatten(posted) == payload <==> rest == [])
    ensures forall c :: c in posted ==> 0 < |c| <= MAX_EVENTS_PER_REQUEST
  {
    hide Partition, Flatten;
    assert posted == (posted + rest)[..|posted|];
    assert posted + [] == posted;
    PartitionPrefix(payload, MAX_EVENTS_PER_REQUEST, |posted|);
    PartitionSound(payload, MAX_EVENTS_PER_REQUEST);
  }

  lemma Onward(posted: seq<seq<Event>>, chunk: seq<Event>, rest: seq<seq<Event>>)
    ensures posted + ([chunk] + rest) == posted + [chunk] + rest
  {
  }

  /** The chunks that are left from position `i` on. */
  ghost function Rest(payload: seq<Event>, i: nat): seq<seq<Event>> {
    if i < |payload| then Partition(payload[i..], MAX_EVENTS_PER_REQUEST) else []
  }

  lemma RestAtEnds(payload: seq<Event>)
    ensures Rest(payload, 0) == Partition(payload, MAX_EVENTS_PER_REQUEST)
    ensures forall i: nat :: i >= |payload| ==> Rest(payload, i) == []
  {
    assert payload[0..] == payload;
  }

  lemma RestStep(payload: seq<Event>, i: nat)
    requires i < |payload|
    ensures i < ChunkEnd(payload, MAX_EVENTS_PER_REQUEST, i) <= |payload|
    ensures Rest(payload, i) ==
            [payload[i..ChunkEnd(payload, MAX_EVENTS_PER_REQUEST, i)]] + Rest(payload, i + MAX_EVENTS_PER_REQUEST)
  {
    PartitionStep(payload, MAX_EVENTS_PER_REQUEST, i);
  }

  // ---------- the dispatcher's own state ----------

  /**
   * A flush: its chunks are being posted, it is stuck in a call of `stop` that its own sender made, its run has
   * returned with so many chunks sent, its permit is released, its waiters are notified. `Direct` is the final
   * send that the dispatcher makes itself.
   */
  datatype Worker =
    | Sending(next: nat)
    | Stuck(next: nat)
    | Returned(sent: nat)
    | Released(sent: nat)
    | Finished(sent: nat)
    | Direct(next: nat)

  /** Payload number `payload` had `chunk` posted. */
  datatype Post = Post(payload: nat, chunk: seq<Event>)

  /**
   * `payloads`, `log`, `failed` and `lost` are histories: what was handed to flushes, what the sender received, the
   * numbers of the payloads for which it raised, and how many permits were taken for flushes that never started.
   */
  datatype Core = Core(closed: bool, buffer: seq<Event>, permits: int,
                       payloads: seq<seq<Event>>, workers: seq<Worker>, log: seq<Post>, failed: set<nat>, lost: nat)

  function Buffered(c: Core, e: Event): Core {
    if !c.closed && e.isSendEvent then c.(buffer := c.buffer + [e]) else c
  }

  /** The whole buffer goes to a new flush; `permit` says whether it takes one of the five permits. */
  function HandedOver(c: Core, worker: Worker, permits: int): Core {
    c.(buffer := [], permits := permits, payloads := c.payloads + [c.buffer], workers := c.workers + [worker])
  }

  /** `raises`: the pool refuses the flush, if it comes to that; the permit is gone and the buffer is kept. */
  function Flushed(c: Core, raises: bool): Core {
    if c.closed || c.buffer == [] || c.permits <= 0 then c
    else if raises then c.(permits := c.permits - 1, lost := c.lost + 1)
    else HandedOver(c, Sending(0), c.permits - 1)
  }

  /** A batch, message by message; a shutdown marker ends it at once. `raises[i]` is about the flush of message `i`. */
  function Processed(c: Core, ms: seq<Message>, raises: seq<bool>): (Core, bool)
    requires |raises| == |ms|
    decreases |ms|
  {
    if ms == [] then (c, false) else
      match ms[0]
      case EventMessage(e) => Processed(Buffered(c, e), ms[1..], raises[1..])
      case FlushMessage => Processed(Flushed(c, raises[0]), ms[1..], raises[1..])
      case ShutdownMessage => (c, true)
  }

  class EventDispatcher {
    var closed: bool
    var eventsBuffer: seq<Event>
    var permits: int
    ghost var payloads: seq<seq<Event>>
    ghost var workers: seq<Worker>
    ghost var log: seq<Post>
    ghost var failed: set<nat>
    ghost var lost: nat

    ghost function View(): Core
      reads this
    {
      Core(closed, eventsBuffer, permits, payloads, workers, log, failed, lost)
    }

    constructor ()
      ensures View() == Core(false, [], MAX_FLUSH_WORKERS, [], [], [], {}, 0)
    {
      closed, eventsBuffer, permits := false, [], MAX_FLUSH_WORKERS;
      payloads, workers, log, failed, lost := [], [], [], {}, 0;
    }

    method PutEventsToBuffer(e: Event)
      modifies this
      ensures View() == Buffered(old(View()), e)
    {
      if !closed && e.isSendEvent {
        eventsBuffer := eventsBuffer + [e];
      }
    }

    /**
     * With a permit to spare the buffer is handed over and cleared; otherwise it is kept for a later flush. When the
     * pool raises, the exception goes on to the dispatching loop, which catches it.
     */
    method TriggerFlush(raises: bool)
      modifies this
      ensures View() == Flushed(old(View()), raises)
      ensures !old(closed) && old(permits) > 0 && old(eventsBuffer) != [] && !raises ==>
                && eventsBuffer == [] && payloads == old(payloads) + [old(eventsBuffer)]
                && workers == old(workers) + [Sending(0)] && permits == old(permits) - 1
      ensures old(permits) <= 0 || old(closed) || raises ==> eventsBuffer == old(eventsBuffer) && payloads == old(payloads) && workers == old(workers)
    {
      if !closed && |eventsBuffer| > 0 {
        if permits > 0 {
          permits := permits - 1;
          if raises {
            lost := lost + 1;
            return;
          }
          payloads := payloads + [eventsBuffer];
          workers := workers + [Sending(0)];
          eventsBuffer := [];
        }
      }
    }

    /** The inner loop of `run` over one drained batch. */
    method ProcessBatch(ms: seq<Message>, raises: seq<bool>) returns (shutdown: bool)
      requires |raises| == |ms|
      modifies this
      ensures (View(), shutdown) == Processed(old(View()), ms, raises)
    {
      shutdown := false;
      assert ms[0..] == ms && raises[0..] == raises;
      for i := 0 to |ms|
        invariant Processed(old(View()), ms, raises) == Processed(View(), ms[i..], raises[i..])
      {
        assert ms[i..][1..] == ms[i + 1..] && raises[i..][1..] == raises[i + 1..];
        match ms[i] {
          case EventMessage(e) => PutEventsToBuffer(e);
          case FlushMessage => TriggerFlush(raises[i]);
          case ShutdownMessage => return true;
        }
      }
    }
  }

  /** The producer side: the gate and the inbox, both used under one lock. */
  class DefaultEventProcessor {
    const capacity: nat
    var closed: bool
    var inbox: seq<Message>

    constructor (capacity: nat)
      ensures this.capacity == capacity && !closed && inbox == []
    {
      this.capacity := capacity;
      closed, inbox := false, [];
    }

    /** The fields agree with a state of the whole system. */
    ghost predicate Shows(s: State)
      reads this
    {
      s.capacity == capacity && s.inbox == inbox && (s.stopping != Open <==> closed)
    }

    method PutMessageToInbox(m: Message) returns (accepted: bool)
      modifies this`inbox
      ensures accepted <==> capacity == 0 || |old(inbox)| < capacity
      ensures inbox == old(inbox) + (if accepted then [m] else [])
    {
      if capacity != 0 && |inbox| >= capacity {
        return false;
      }
      inbox := inbox + [m];
      return true;
    }

    method SendEvent(e: Event)
      modifies this
      ensures forall s :: old(Shows(s)) ==> Shows(Do(s, Step.SendEvent(e)))
    {
      if !closed {
        var accepted := PutMessageToInbox(EventMessage(e));
      }
    }

    method Flush()
      modifies this
      ensures forall s :: old(Shows(s)) ==> Shows(Do(s, RequestFlush))
    {
      if !closed {
        var accepted := PutMessageToInbox(FlushMessage);
      }
    }

    /** The locked part of `stop`; only the caller that closes the gate goes on to shut the dispatcher down. */
    method CloseGate() returns (owner: bool)
      modifies this
      ensures owner <==> !old(closed)
      ensures forall s :: old(Shows(s)) ==> Shows(Do(s, StopFromOutside))
    {
      if closed {
        return false;
      }
      closed := true;
      return true;
    }
  }

  // ---------- all threads together ----------

  /** The dispatcher: draining the inbox, processing a batch, shutting down, or gone. */
  datatype Phase =
    | Draining(got: seq<Message>)
    | Processing(todo: seq<Message>)
    | CheckingPermits
    | Asleep
    | FinalSend
    | Exited

  /**
   * How far `stop` has come: not called; the gate is closed and the marker is still to be put; the marker
   * was put; or shutdown was requested by code that runs on the dispatcher thread itself. A stop made on the
   * thread of a flush puts the marker like one from outside, but keeps that flush waiting for it.
   */
  datatype Stopping = Open | Marking | Marked | Requested

  /** A capacity of zero means an unbounded inbox. `accepted` is the history of sendable events let into the inbox. */
  datatype State = State(capacity: nat, stopping: Stopping, inbox: seq<Message>, phase: Phase, core: Core,
                         accepted: seq<Event>)
  {
    predicate HasRoom() {
      capacity == 0 || |inbox| < capacity
    }

    /** Messages that the dispatcher has taken and not yet processed. */
    function Drained(): seq<Message> {
      match phase
      case Draining(got) => got
      case Processing(todo) => todo
      case _ => []
    }
  }

  datatype Step =
    | SendEvent(e: Event)
    | RequestFlush
    | StopFromOutside
    | StopFromDispatcher
    | StopFromWorker(i: nat)
    | PutMarker
    | Get
    | DrainDone
    | ProcessNext(raises: bool)
    | BatchDone
    | CheckPermits
    | FinalPost
    | FinalRaise
    | WorkerPost(i: nat)
    | WorkerRaise(i: nat)
    | WorkerResume(i: nat)
    | WorkerReturn(i: nat)
    | WorkerRelease(i: nat)
    | WorkerNotify(i: nat)

  function Start(capacity: nat): State {
    State(capacity, Open, [], Draining([]), Core(false, [], MAX_FLUSH_WORKERS, [], [], [], {}, 0), [])
  }

  function Chunks(c: Core, i: nat): seq<seq<Event>>
    requires i < |c.payloads|
  {
    Partition(c.payloads[i], MAX_EVENTS_PER_REQUEST)
  }

  predicate Enabled(s: State, st: Step) {
    var c := s.core;
    match st
    case SendEvent(_) => true
    case RequestFlush => true
    case StopFromOutside => true
    // such a call comes from code of the event that the dispatcher is processing
    case StopFromDispatcher => s.phase.Processing? && s.phase.todo != [] && s.phase.todo[0].EventMessage?
    case StopFromWorker(i) => i < |c.workers| && c.workers[i].Sending?
    case PutMarker => s.stopping.Marking? && s.HasRoom()
    case Get => s.phase.Draining? && |s.phase.got| < BATCH_SIZE && s.inbox != []
    case DrainDone => s.phase.Draining? && s.phase.got != [] && (|s.phase.got| == BATCH_SIZE || s.inbox == [])
    case ProcessNext(_) => s.phase.Processing? && s.phase.todo != []
    case BatchDone => s.phase.Processing? && s.phase.todo == []
    case CheckPermits => s.phase.CheckingPermits?
    case FinalPost => s.phase.FinalSend? && c.workers != [] && |c.workers| == |c.payloads|
                      && c.workers[|c.workers| - 1].Direct?
    case FinalRaise => s.phase.FinalSend? && c.workers != [] && |c.workers| == |c.payloads|
                       && c.workers[|c.workers| - 1].Direct? && c.workers[|c.workers| - 1].next < |Chunks(c, |c.workers| - 1)|
    case WorkerPost(i) => i < |c.workers| == |c.payloads| && c.workers[i].Sending? && c.workers[i].next < |Chunks(c, i)|
    case WorkerRaise(i) => i < |c.workers| == |c.payloads| && c.workers[i].Sending? && c.workers[i].next < |Chunks(c, i)|
    // the marker is completed when the dispatcher has shut down
    case WorkerResume(i) => i < |c.workers| && c.workers[i].Stuck? && s.phase.Exited?
    case WorkerReturn(i) => i < |c.workers| == |c.payloads| && c.workers[i].Sending? && c.workers[i].next >= |Chunks(c, i)|
    case WorkerRelease(i) => i < |c.workers| && c.workers[i].Returned?
    case WorkerNotify(i) => i < |c.workers| && c.workers[i].Released?
  }

  function Moved(c: Core, i: nat, w: Worker): Core
    requires i < |c.workers|
  {
    c.(workers := c.workers[i := w])
  }

  function Failed(c: Core, i: nat, w: Worker): Core
    requires i < |c.workers|
  {
    Moved(c, i, w).(failed := c.failed + {i})
  }

  function Posted(c: Core, i: nat, chunk: seq<Event>, w: Worker): Core
    requires i < |c.workers|
  {
    Moved(c, i, w).(log := c.log + [Post(i, chunk)])
  }

  function Do(s: State, st: Step): State
    requires Enabled(s, st)
  {
    var c := s.core;
    match st
    case SendEvent(e) =>
      // a full inbox drops the event
      if s.stopping != Open || !s.HasRoom() then s else
        s.(inbox := s.inbox + [EventMessage(e)], accepted := if e.isSendEvent then s.accepted + [e] else s.accepted)
    case RequestFlush =>
      if s.stopping != Open || !s.HasRoom() then s else s.(inbox := s.inbox + [FlushMessage])
    case StopFromOutside => if s.stopping != Open then s else s.(stopping := Marking)
    case StopFromDispatcher => if s.stopping != Open then s else s.(stopping := Requested)
    case StopFromWorker(i) =>
      if s.stopping != Open then s else s.(stopping := Marking, core := Moved(c, i, Stuck(c.workers[i].next)))
    case PutMarker => s.(inbox := s.inbox + [ShutdownMessage], stopping := Marked)
    case Get => s.(phase := Draining(s.phase.got + [s.inbox[0]]), inbox := s.inbox[1..])
    case DrainDone => s.(phase := Processing(s.phase.got))
    case ProcessNext(raises) =>
      var rest := Processing(s.phase.todo[1..]);
      (match s.phase.todo[0]
       case EventMessage(e) => s.(phase := rest, core := Buffered(c, e))
       case FlushMessage => s.(phase := rest, core := Flushed(c, raises))
       case ShutdownMessage => s.(phase := CheckingPermits))
    case BatchDone =>
      if s.stopping == Requested && s.inbox == [] then s.(phase := CheckingPermits) else s.(phase := Draining([]))
    case CheckPermits =>
      // under the condition's lock: the check and falling asleep are one step
      if c.permits != MAX_FLUSH_WORKERS then s.(phase := Asleep)
      else if c.buffer != [] then s.(phase := FinalSend, core := HandedOver(c, Direct(0), c.permits))
      else s.(phase := Exited, core := c.(closed := true))
    case FinalPost =>
      var i := |c.workers| - 1;
      var next := c.workers[i].next;
      if next < |Chunks(c, i)| then s.(core := Posted(c, i, Chunks(c, i)[next], Direct(next + 1)))
      else s.(phase := Exited, core := Moved(c, i, Finished(next)).(closed := true))
    case FinalRaise =>
      // the exception is caught and the shutdown goes on
      var i := |c.workers| - 1;
      s.(phase := Exited, core := Failed(c, i, Finished(c.workers[i].next)).(closed := true))
    case WorkerPost(i) => s.(core := Posted(c, i, Chunks(c, i)[c.workers[i].next], Sending(c.workers[i].next + 1)))
    case WorkerRaise(i) => s.(core := Failed(c, i, Returned(c.workers[i].next)))
    case WorkerResume(i) => s.(core := Moved(c, i, Sending(c.workers[i].next)))
    case WorkerReturn(i) => s.(core := Moved(c, i, Returned(c.workers[i].next)))
    case WorkerRelease(i) => s.(core := Moved(c, i, Released(c.workers[i].sent)).(permits := c.permits + 1))
    case WorkerNotify(i) =>
      s.(core := Moved(c, i, Finished(c.workers[i].sent)), phase := if s.phase == Asleep then CheckingPermits else s.phase)
  }

  /** Processing a batch in one go is what the single processing steps do, one after the other. */
  ghost predicate Steps(s: State, sts: seq<Step>, s': State)
    decreases |sts|
  {
    if sts == [] then s' == s else Enabled(s, sts[0]) && Steps(Do(s, sts[0]), sts[1..], s')
  }

  /** The steps for the first `n` messages of a batch. */
  function BatchSteps(raises: seq<bool>, n: nat): seq<Step>
    requires n <= |raises|
  {
    seq(n, i requires 0 <= i < n => ProcessNext(raises[i]))
  }

  lemma {:induction false} BatchIsSteps(s: State, raises: seq<bool>) returns (n: nat)
    requires s.phase.Processing? && |raises| == |s.phase.todo|
    ensures n <= |s.phase.todo|
    ensures var (c, shutdown) := Processed(s.core, s.phase.todo, raises);
            Steps(s, BatchSteps(raises, n), s.(core := c, phase := if shutdown then CheckingPermits else Processing([])))
    decreases |s.phase.todo|
  {
    if s.phase.todo == [] {
      return 0;
    }
    var s1 := Do(s, ProcessNext(raises[0]));
    if s.phase.todo[0].ShutdownMessage? {
      n := 1;
      assert BatchSteps(raises, 1)[1..] == [];
    } else {
      var n' := BatchIsSteps(s1, raises[1..]);
      n := n' + 1;
      assert BatchSteps(raises, n)[1..] == BatchSteps(raises[1..], n');
    }
  }

  ghost predicate Next(s: State, s': State) {
    exists st :: Enabled(s, st) && s' == Do(s, st)
  }

  ghost predicate Run(ss: seq<State>) {
    && |ss| > 0 && ss[0] == Start(ss[0].capacity)
    && forall i :: 0 <= i < |ss| - 1 ==> Next(ss[i], ss[i + 1])
  }

  // ---------- conservation, in order ----------

  function Sendables(ms: seq<Message>): seq<Event> {
    if ms == [] then []
    else (if ms[0].EventMessage? && ms[0].event.isSendEvent then [ms[0].event] else []) + Sendables(ms[1..])
  }

  lemma {:induction false} SendablesConcat(a: seq<Message>, b: seq<Message>)
    ensures Sendables(a + b) == Sendables(a) + Sendables(b)
  {
    if a == [] {
      assert a + b == b;
    } else {
      assert (a + b)[1..] == a[1..] + b;
      SendablesConcat(a[1..], b);
    }
  }

  /** Every accepted event is in a payload, the buffer, the taken messages or the inbox, once and in order. */
  ghost predicate Conserved(s: State) {
    s.accepted == Flatten(s.core.payloads) + s.core.buffer + Sendables(s.Drained()) + Sendables(s.inbox)
  }

  lemma HandOverConserves(c: Core, w: Worker, permits: int)
    ensures var c' := HandedOver(c, w, permits);
            Flatten(c'.payloads) + c'.buffer == Flatten(c.payloads) + c.buffer
  {
  }

  ghost predicate ShuttingDown(s: State) {
    s.phase.CheckingPermits? || s.phase.Asleep? || s.phase.FinalSend? || s.phase.Exited?
  }

  /** The marker is put once, after the gate has closed, so nothing is ever behind it. */
  ghost predicate MarkerLast(s: State) {
    var ms := s.Drained() + s.inbox;
    && (forall i :: 0 <= i < |ms| && ms[i].ShutdownMessage? ==> i == |ms| - 1 && s.stopping == Marked)
    && (ShuttingDown(s) ==> s.inbox == [] && s.stopping in {Marked, Requested})
    && (s.core.closed ==> s.phase.Exited?)
  }

  /** A message enters at the end of the inbox. */
  lemma EnqueueConserves(s: State, m: Message, s': State)
    requires Conserved(s) && s'.core == s.core && s'.phase == s.phase && s'.inbox == s.inbox + [m]
    requires s'.accepted == s.accepted + Sendables([m])
    ensures Conserved(s')
  {
    SendablesConcat(s.inbox, [m]);
    hide Sendables, Flatten;
  }

  /** A message moves from the front of the inbox to the taken ones. */
  lemma GetConserves(s: State)
    requires Conserved(s) && Enabled(s, Get)
    ensures Conserved(Do(s, Get))
  {
    hide Sendables, Flatten;
    var first, rest := [s.inbox[0]], s.inbox[1..];
    SendablesConcat(s.phase.got, first);
    SendablesConcat(first, rest);
    assert s.inbox == first + rest;
    Shift(Flatten(s.core.payloads) + s.core.buffer, Sendables(s.phase.got), Sendables(first), Sendables(rest));
  }

  lemma Shift(a: seq<Event>, b: seq<Event>, c: seq<Event>, d: seq<Event>)
    ensures a + b + (c + d) == a + (b + c) + d
  {
  }

  lemma Regroup(a: seq<Event>, b: seq<Event>, c: seq<Event>, d: seq<Event>, e: seq<Event>)
    ensures a + b + (c + d) + e == a + (b + c) + d + e
  {
  }

  /** The event that a message brings into the buffer, if any. */
  function Brought(m: Message): seq<Event> {
    if m.EventMessage? && m.event.isSendEvent then [m.event] else []
  }

  lemma ProcessConserves(s: State, raises: bool)
    requires Conserved(s) && MarkerLast(s) && Enabled(s, ProcessNext(raises))
    ensures Conserved(Do(s, ProcessNext(raises)))
  {
    var m, rest := s.phase.todo[0], s.phase.todo[1..];
    assert Sendables(s.phase.todo) == Brought(m) + Sendables(rest);
    if m.ShutdownMessage? {
      assert (s.Drained() + s.inbox)[0].ShutdownMessage?;
      assert rest == [] && s.inbox == [];
    } else {
      hide Sendables, Flatten;
      var c' := Do(s, ProcessNext(raises)).core;
      Regroup(Flatten(s.core.payloads), s.core.buffer, Brought(m), Sendables(rest), Sendables(s.inbox));
      BroughtConserves(s.core, m, raises, c');
      hide Brought, Buffered, Flushed;
    }
  }

  lemma BroughtConserves(c: Core, m: Message, raises: bool, c': Core)
    requires !c.closed && !m.ShutdownMessage?
    requires c' == if m.EventMessage? then Buffered(c, m.event) else Flushed(c, raises)
    ensures Flatten(c'.payloads) + c'.buffer == Flatten(c.payloads) + (c.buffer + Brought(m))
  {
  }

  /** Steps that leave the messages alone, and move events at most from the buffer to the payloads. */
  lemma QuietConserves(s: State, s': State)
    requires Conserved(s) && s'.accepted == s.accepted && s'.inbox == s.inbox && s'.Drained() == s.Drained()
    requires Flatten(s'.core.payloads) + s'.core.buffer == Flatten(s.core.payloads) + s.core.buffer
    ensures Conserved(s')
  {
    hide Flatten, Sendables;
  }

  lemma StepConserves(s: State, st: Step)
    requires Conserved(s) && MarkerLast(s) && Enabled(s, st)
    ensures Conserved(Do(s, st))
  {
    hide Partition, Flatten, Conserved;
    var s' := Do(s, st);
    match st {
      case SendEvent(e) => if s' != s { assert [EventMessage(e)][1..] == []; EnqueueConserves(s, EventMessage(e), s'); }
      case RequestFlush => if s' != s { assert [FlushMessage][1..] == []; EnqueueConserves(s, FlushMessage, s'); }
      case PutMarker => assert [ShutdownMessage][1..] == []; EnqueueConserves(s, ShutdownMessage, s');
      case Get => GetConserves(s);
      case ProcessNext(raises) => ProcessConserves(s, raises);
      case CheckPermits => HandOverConserves(s.core, Direct(0), s.core.permits); QuietConserves(s, s');
      case _ => QuietConserves(s, s');
    }
  }

  lemma IntakeKeepsMarkerLast(s: State, st: Step)
    requires MarkerLast(s) && Enabled(s, st) && (st.SendEvent? || st.RequestFlush? || st.PutMarker?)
    ensures MarkerLast(Do(s, st))
  {
    var s' := Do(s, st);
    var ms, ms' := s.Drained() + s.inbox, s'.Drained() + s'.inbox;
    assert s' == s || ms' == ms + [s'.inbox[|s.inbox|]];
  }

  lemma ProcessKeepsMarkerLast(s: State, raises: bool)
    requires MarkerLast(s) && Enabled(s, ProcessNext(raises))
    ensures MarkerLast(Do(s, ProcessNext(raises)))
  {
    hide Flushed, Buffered;
    var s' := Do(s, ProcessNext(raises));
    var ms, ms' := s.Drained() + s.inbox, s'.Drained() + s'.inbox;
    FlushKeepsClosed(s.core);
    if s.phase.todo[0].ShutdownMessage? {
      assert ms[0].ShutdownMessage?;
    } else {
      assert ms' == ms[1..];
    }
  }

  /** Steps that leave the messages in their order. */
  lemma SameMessagesKeepMarkerLast(s: State, s': State)
    requires MarkerLast(s) && s'.Drained() + s'.inbox == s.Drained() + s.inbox
    requires s'.stopping == s.stopping || s.stopping == Open
    requires ShuttingDown(s') ==> s'.inbox == [] && s'.stopping in {Marked, Requested}
    requires s'.core.closed ==> s'.phase.Exited?
    ensures MarkerLast(s')
  {
  }

  lemma StepKeepsMarkerLast(s: State, st: Step)
    requires MarkerLast(s) && Enabled(s, st)
    ensures MarkerLast(Do(s, st))
  {
    match st {
      case SendEvent(e) => IntakeKeepsMarkerLast(s, st);
      case RequestFlush => IntakeKeepsMarkerLast(s, st);
      case PutMarker => IntakeKeepsMarkerLast(s, st);
      case ProcessNext(raises) => ProcessKeepsMarkerLast(s, raises);
      case _ => OtherStepKeepsMarkerLast(s, st);
    }
  }

  lemma OtherStepKeepsMarkerLast(s: State, st: Step)
    requires MarkerLast(s) && Enabled(s, st)
    requires !st.SendEvent? && !st.RequestFlush? && !st.PutMarker? && !st.ProcessNext?
    ensures MarkerLast(Do(s, st))
  {
    hide Chunks;
    var s' := Do(s, st);
    assert s'.Drained() + s'.inbox == s.Drained() + s.inbox;
    assert ShuttingDown(s') ==> s'.inbox == [] && s'.stopping in {Marked, Requested};
    SameMessagesKeepMarkerLast(s, s');
  }

  lemma FlushKeepsClosed(c: Core)
    ensures (forall raises :: Flushed(c, raises).closed == c.closed) && forall e :: Buffered(c, e).closed == c.closed
  {
  }

  // ---------- permits, workers and what they have sent ----------

  /** The flushes that still hold a permit. */
  function Busy(ws: seq<Worker>): nat {
    if ws == [] then 0 else Busy(ws[..|ws| - 1]) + (if Holds(ws[|ws| - 1]) then 1 else 0)
  }

  predicate Holds(w: Worker) {
    w.Sending? || w.Stuck? || w.Returned?
  }

  lemma {:induction false} BusyUpdate(ws: seq<Worker>, i: nat, w: Worker)
    requires i < |ws|
    ensures Busy(ws[i := w]) == Busy(ws) - (if Holds(ws[i]) then 1 else 0) + (if Holds(w) then 1 else 0)
  {
    var last := |ws| - 1;
    if i < last {
      assert ws[i := w][..last] == ws[..last][i := w];
      BusyUpdate(ws[..last], i, w);
    } else {
      assert ws[i := w][..last] == ws[..last];
    }
  }

  lemma BusyAppend(ws: seq<Worker>, w: Worker)
    ensures Busy(ws + [w]) == Busy(ws) + (if Holds(w) then 1 else 0)
  {
  }

  lemma {:induction false} NoneBusy(ws: seq<Worker>)
    ensures Busy(ws) == 0 <==> forall i :: 0 <= i < |ws| ==> !Holds(ws[i])
  {
    if ws != [] {
      NoneBusy(ws[..|ws| - 1]);
      assert forall i :: 0 <= i < |ws| - 1 ==> ws[i] == ws[..|ws| - 1][i];
    }
  }

  /** The steps that move one flush. */
  predicate IsWorkerStep(st: Step) {
    st.WorkerPost? || st.WorkerRaise? || st.WorkerResume? || st.WorkerReturn? || st.WorkerRelease? || st.WorkerNotify?
    || st.FinalPost? || st.FinalRaise?
  }

  /** The flush that a step moves. */
  function MovedWorker(s: State, st: Step): int
    requires IsWorkerStep(st)
  {
    if st.FinalPost? || st.FinalRaise? then |s.core.workers| - 1 else st.i
  }

  /** Some flush has its notification still to make. */
  ghost predicate NotifyOwed(ws: seq<Worker>) {
    exists i :: 0 <= i < |ws| && (Holds(ws[i]) || ws[i].Released?)
  }

  /** Permits are never lost or invented; the sleeping dispatcher is owed a wake-up; the final send is alone. */
  ghost predicate PermitsKept(s: State) {
    var c := s.core;
    && c.permits + Busy(c.workers) + c.lost == MAX_FLUSH_WORKERS && c.permits >= 0 && |c.workers| == |c.payloads|
    && (s.phase.Asleep? ==> NotifyOwed(c.workers) || c.lost > 0)
    && (s.phase.FinalSend? || s.phase.Exited? ==> c.permits == MAX_FLUSH_WORKERS)
    && (s.phase.FinalSend? ==> c.workers != [] && c.workers[|c.workers| - 1].Direct?)
    && (forall i :: 0 <= i < |c.workers| && c.workers[i].Direct? ==> s.phase.FinalSend? && i == |c.workers| - 1)
    && (s.phase.FinalSend? || s.phase.Exited? ==> c.buffer == [])
  }

  lemma WorkerStepKeepsPermits(s: State, st: Step)
    requires PermitsKept(s) && Enabled(s, st) && IsWorkerStep(st)
    ensures PermitsKept(Do(s, st))
  {
    hide Chunks, Busy;
    var ws, ws', i := s.core.workers, Do(s, st).core.workers, MovedWorker(s, st);
    BusyUpdate(ws, i, ws'[i]);
    NoneBusy(ws);
    if Holds(ws'[i]) || ws'[i].Released? {
      KeepsOwing(ws, i, ws'[i]);
    }
  }

  lemma StopKeepsPermits(s: State, i: nat)
    requires PermitsKept(s) && Enabled(s, StopFromWorker(i))
    ensures PermitsKept(Do(s, StopFromWorker(i)))
  {
    hide Partition, Busy;
    BusyUpdate(s.core.workers, i, Stuck(s.core.workers[i].next));
    KeepsOwing(s.core.workers, i, Stuck(s.core.workers[i].next));
  }

  lemma ProcessKeepsPermits(s: State, raises: bool)
    requires PermitsKept(s) && Enabled(s, ProcessNext(raises))
    ensures PermitsKept(Do(s, ProcessNext(raises)))
  {
    hide Busy;
    BusyAppend(s.core.workers, Sending(0));
  }

  lemma CheckKeepsPermits(s: State)
    requires PermitsKept(s) && Enabled(s, CheckPermits)
    ensures PermitsKept(Do(s, CheckPermits))
  {
    hide Busy;
    NoneBusy(s.core.workers);
    BusyAppend(s.core.workers, Direct(0));
  }

  lemma StepKeepsPermits(s: State, st: Step)
    requires PermitsKept(s) && Enabled(s, st)
    ensures PermitsKept(Do(s, st))
  {
    if IsWorkerStep(st) {
      WorkerStepKeepsPermits(s, st);
    } else if st.StopFromWorker? {
      StopKeepsPermits(s, st.i);
    } else if st.ProcessNext? {
      ProcessKeepsPermits(s, st.raises);
    } else if st.CheckPermits? {
      CheckKeepsPermits(s);
    } else {
      assert Do(s, st).core == s.core;
      hide Busy, NotifyOwed;
    }
  }

  lemma KeepsOwing(ws: seq<Worker>, i: nat, w: Worker)
    requires i < |ws| && (Holds(w) || w.Released?)
    ensures NotifyOwed(ws[i := w])
  {
    assert ws[i := w][i] == w;
  }

  /** The chunks posted for payload `i`, in order. */
  function PostedFor(log: seq<Post>, i: nat): seq<seq<Event>> {
    if log == [] then [] else
      PostedFor(log[..|log| - 1], i) + (if log[|log| - 1].payload == i then [log[|log| - 1].chunk] else [])
  }

  lemma PostedForAppend(log: seq<Post>, p: Post, i: nat)
    ensures PostedFor(log + [p], i) == PostedFor(log, i) + (if p.payload == i then [p.chunk] else [])
  {
  }

  lemma {:induction false} NothingPosted(log: seq<Post>, i: nat)
    requires forall p :: p in log ==> p.payload < i
    ensures PostedFor(log, i) == []
  {
    if log != [] {
      NothingPosted(log[..|log| - 1], i);
    }
  }

  /** How many chunks a flush has posted. */
  function Progress(w: Worker): nat {
    match w
    case Sending(next) => next
    case Stuck(next) => next
    case Direct(next) => next
    case Returned(sent) => sent
    case Released(sent) => sent
    case Finished(sent) => sent
  }

  predicate Over(w: Worker) {
    w.Returned? || w.Released? || w.Finished?
  }

  /**
   * For each payload, exactly the first chunks of its partition have been posted, as far as its flush has come;
   * a flush that is over has posted all of them unless the sender raised.
   */
  ghost predicate PostsKept(c: Core) {
    && |c.workers| == |c.payloads|
    && (forall p :: p in c.log ==> p.payload < |c.payloads|)
    && (forall i :: i in c.failed ==> i < |c.payloads|)
    && (forall i :: 0 <= i < |c.payloads| ==> c.payloads[i] != [])
    && (forall i :: 0 <= i < |c.payloads| ==> PostedAsFar(c, i))
  }

  ghost predicate PostedAsFar(c: Core, i: nat)
    requires i < |c.payloads| == |c.workers|
  {
    var sent, total := Progress(c.workers[i]), |Chunks(c, i)|;
    && sent <= total && PostedFor(c.log, i) == Chunks(c, i)[..sent]
    && (i in c.failed <==> Over(c.workers[i]) && sent < total)
  }

  lemma PostKeepsPosts(c: Core, i: nat, w: Worker)
    requires PostsKept(c) && i < |c.workers| && (c.workers[i].Sending? || c.workers[i].Direct?)
    requires c.workers[i].next < |Chunks(c, i)|
    requires (w.Sending? || w.Direct?) && w.next == c.workers[i].next + 1
    ensures PostsKept(Posted(c, i, Chunks(c, i)[c.workers[i].next], w))
  {
    var c' := Posted(c, i, Chunks(c, i)[c.workers[i].next], w);
    var p := Post(i, Chunks(c, i)[c.workers[i].next]);
    hide Partition, PostedFor;
    forall k | 0 <= k < |c'.payloads| ensures PostedAsFar(c', k) {
      assert PostedAsFar(c, k);
      PostedForAppend(c.log, p, k);
      if k == i {
        OneMore(Chunks(c, i), c.workers[i].next);
      }
    }
    hide Chunks, PostedAsFar;
  }

  lemma OneMore(chunks: seq<seq<Event>>, n: nat)
    requires n < |chunks|
    ensures chunks[..n + 1] == chunks[..n] + [chunks[n]]
  {
  }

  lemma MoveKeepsPosts(c: Core, i: nat, w: Worker)
    requires PostsKept(c) && i < |c.workers| && Progress(w) == Progress(c.workers[i])
    requires Over(w) == Over(c.workers[i]) || Progress(w) == |Chunks(c, i)|
    ensures PostsKept(Moved(c, i, w))
  {
    hide Partition, PostedFor;
    var c' := Moved(c, i, w);
    assert PostedAsFar(c, i);
    forall k | 0 <= k < |c'.payloads| ensures PostedAsFar(c', k) {
      assert PostedAsFar(c, k) && Chunks(c', k) == Chunks(c, k);
    }
  }

  lemma FailKeepsPosts(c: Core, i: nat, w: Worker)
    requires PostsKept(c) && i < |c.workers| && (c.workers[i].Sending? || c.workers[i].Direct?)
    requires c.workers[i].next < |Chunks(c, i)| && Over(w) && Progress(w) == c.workers[i].next
    ensures PostsKept(Failed(c, i, w))
  {
    hide Partition, PostedFor;
    var c' := Failed(c, i, w);
    forall k | 0 <= k < |c'.payloads| ensures PostedAsFar(c', k) {
      assert PostedAsFar(c, k) && Chunks(c', k) == Chunks(c, k);
    }
  }

  lemma HandOverKeepsPosts(c: Core, w: Worker, permits: int)
    requires PostsKept(c) && c.buffer != [] && (w == Sending(0) || w == Direct(0))
    ensures PostsKept(HandedOver(c, w, permits))
  {
    hide Partition, PostedFor;
    var c' := HandedOver(c, w, permits);
    NothingPosted(c.log, |c.payloads|);
    forall k | 0 <= k < |c'.payloads| ensures PostedAsFar(c', k) {
      if k < |c.payloads| {
        assert PostedAsFar(c, k) && Chunks(c', k) == Chunks(c, k);
      }
    }
  }

  lemma DispatcherStepKeepsPosts(s: State, st: Step)
    requires PostsKept(s.core) && Enabled(s, st) && (st.ProcessNext? || st.CheckPermits? || st.FinalPost? || st.FinalRaise?)
    ensures PostsKept(Do(s, st).core)
  {
    hide Chunks, PostedFor, PostedAsFar;
    var c, c', i := s.core, Do(s, st).core, |s.core.workers| - 1;
    match st {
      case ProcessNext(raises) =>
        if s.phase.todo[0].FlushMessage? && Flushed(c, raises) != c && !raises {
          HandOverKeepsPosts(c, Sending(0), c.permits - 1);
        } else if !s.phase.todo[0].ShutdownMessage? {
          SameHistoryKeepsPosts(c, c');
        }
      case CheckPermits =>
        if Do(s, st).phase.FinalSend? {
          HandOverKeepsPosts(c, Direct(0), c.permits);
        } else {
          SameHistoryKeepsPosts(c, c');
        }
      case FinalPost =>
        if c.workers[i].next < |Chunks(c, i)| {
          PostKeepsPosts(c, i, Direct(c.workers[i].next + 1));
        } else {
          AllPosted(c, i);
          MoveKeepsPosts(c, i, Finished(c.workers[i].next));
          SameHistoryKeepsPosts(Moved(c, i, Finished(c.workers[i].next)), c');
        }
      case FinalRaise =>
        FailKeepsPosts(c, i, Finished(c.workers[i].next));
        SameHistoryKeepsPosts(Failed(c, i, Finished(c.workers[i].next)), c');
    }
  }

  lemma StepKeepsPosts(s: State, st: Step)
    requires PostsKept(s.core) && Enabled(s, st)
    ensures PostsKept(Do(s, st).core)
  {
    hide Chunks, PostedFor, PostedAsFar;
    var c, c' := s.core, Do(s, st).core;
    match st {
      case StopFromWorker(i) => if c' != c { MoveKeepsPosts(c, i, Stuck(c.workers[i].next)); }
      case WorkerPost(i) => PostKeepsPosts(c, i, Sending(c.workers[i].next + 1));
      case WorkerRaise(i) => FailKeepsPosts(c, i, Returned(c.workers[i].next));
      case WorkerResume(i) => MoveKeepsPosts(c, i, Sending(c.workers[i].next));
      case WorkerReturn(i) => AllPosted(c, i); MoveKeepsPosts(c, i, Returned(c.workers[i].next));
      case WorkerRelease(i) =>
        MoveKeepsPosts(c, i, Released(c.workers[i].sent));
        SameHistoryKeepsPosts(Moved(c, i, Released(c.workers[i].sent)), c');
      case WorkerNotify(i) => MoveKeepsPosts(c, i, Finished(c.workers[i].sent));
      case _ =>
        if st.ProcessNext? || st.CheckPermits? || st.FinalPost? || st.FinalRaise? { DispatcherStepKeepsPosts(s, st); }
    }
  }

  lemma AllPosted(c: Core, i: nat)
    requires PostsKept(c) && i < |c.workers| && Progress(c.workers[i]) >= |Chunks(c, i)|
    ensures Progress(c.workers[i]) == |Chunks(c, i)|
  {
    assert PostedAsFar(c, i);
  }

  lemma SameHistoryKeepsPosts(c: Core, c': Core)
    requires PostsKept(c) && c'.payloads == c.payloads && c'.workers == c.workers && c'.log == c.log && c'.failed == c.failed
    ensures PostsKept(c')
  {
    hide Partition, PostedFor;
    forall k | 0 <= k < |c'.payloads| ensures PostedAsFar(c', k) {
      assert PostedAsFar(c, k);
    }
  }

  // ---------- whole runs ----------

  ghost predicate Inv(s: State) {
    Conserved(s) && MarkerLast(s) && PermitsKept(s) && PostsKept(s.core)
  }

  lemma {:induction false} RunKeepsInv(ss: seq<State>, i: nat)
    requires Run(ss) && i < |ss|
    ensures Inv(ss[i])
  {
    if i > 0 {
      hide Conserved, MarkerLast, PermitsKept, PostsKept, Enabled;
      RunKeepsInv(ss, i - 1);
      assert Next(ss[i - 1], ss[i]);
      var st :| Enabled(ss[i - 1], st) && ss[i] == Do(ss[i - 1], st);
      StepConserves(ss[i - 1], st);
      StepKeepsMarkerLast(ss[i - 1], st);
      StepKeepsPermits(ss[i - 1], st);
      StepKeepsPosts(ss[i - 1], st);
    } else {
      assert Flatten([]) == [] && Busy([]) == 0;
    }
  }

  /**
   * Conservation in every interleaving: the accepted events are, in order and exactly once, those of the
   * payloads, then the buffer, then the taken messages, then the inbox.
   */
  lemma EventsConserved(ss: seq<State>, i: nat)
    requires Run(ss) && i < |ss|
    ensures ss[i].accepted == Flatten(ss[i].core.payloads) + ss[i].core.buffer
                              + Sendables(ss[i].Drained()) + Sendables(ss[i].inbox)
  {
    RunKeepsInv(ss, i);
  }

  /**
   * Complete drain: when the dispatcher has returned, by either way of stopping, every accepted event is in a
   * payload, and the sender received of every payload non-empty chunks within the limit that concatenate to a
   * first part of it: to all of it exactly if the sender did not raise for it.
   */
  lemma ShutdownDrains(ss: seq<State>, i: nat)
    requires Run(ss) && i < |ss| && ss[i].phase.Exited?
    ensures ss[i].accepted == Flatten(ss[i].core.payloads)
    ensures forall k :: 0 <= k < |ss[i].core.payloads| ==>
              && Flatten(PostedFor(ss[i].core.log, k)) <= ss[i].core.payloads[k] != []
              && (Flatten(PostedFor(ss[i].core.log, k)) == ss[i].core.payloads[k] <==> k !in ss[i].core.failed)
              && forall chunk :: chunk in PostedFor(ss[i].core.log, k) ==> 0 < |chunk| <= MAX_EVENTS_PER_REQUEST
    ensures forall p :: p in ss[i].core.log ==> p.payload < |ss[i].core.payloads|
  {
    RunKeepsInv(ss, i);
    var c := ss[i].core;
    AllOver(ss[i]);
    AllHandedOver(ss[i]);
    hide Run, PermitsKept, Conserved, MarkerLast, Partition, PostedFor, PostedAsFar, Flatten, Over;
    forall k | 0 <= k < |c.payloads|
      ensures Flatten(PostedFor(c.log, k)) <= c.payloads[k] != []
      ensures Flatten(PostedFor(c.log, k)) == c.payloads[k] <==> k !in c.failed
      ensures forall chunk :: chunk in PostedFor(c.log, k) ==> 0 < |chunk| <= MAX_EVENTS_PER_REQUEST
    {
      PayloadPosted(c, k);
    }
  }

  lemma AllHandedOver(s: State)
    requires Conserved(s) && MarkerLast(s) && s.phase.Exited? && s.core.buffer == []
    ensures s.accepted == Flatten(s.core.payloads)
  {
    hide Flatten;
    assert Sendables([]) == [] && s.Drained() == [];
  }

  lemma AllOver(s: State)
    requires PermitsKept(s) && s.phase.Exited?
    ensures s.core.buffer == [] && |s.core.workers| == |s.core.payloads|
    ensures forall k :: 0 <= k < |s.core.workers| ==> Over(s.core.workers[k])
  {
    hide Busy;
    NoneBusy(s.core.workers);
  }

  /** What the sender received of the payload of a flush that is over. */
  lemma PayloadPosted(c: Core, k: nat)
    requires PostsKept(c) && k < |c.payloads| && Over(c.workers[k])
    ensures Flatten(PostedFor(c.log, k)) <= c.payloads[k] != []
    ensures Flatten(PostedFor(c.log, k)) == c.payloads[k] <==> k !in c.failed
    ensures forall chunk :: chunk in PostedFor(c.log, k) ==> 0 < |chunk| <= MAX_EVENTS_PER_REQUEST
  {
    hide Partition, PostedFor, Flatten;
    assert PostedAsFar(c, k);
    PartitionPrefix(c.payloads[k], MAX_EVENTS_PER_REQUEST, Progress(c.workers[k]));
    PartitionSound(c.payloads[k], MAX_EVENTS_PER_REQUEST);
  }

  /** Once the dispatcher has returned nothing more is accepted or sent. */
  lemma NothingAfterExit(ss: seq<State>, i: nat)
    requires Run(ss) && i + 1 < |ss| && ss[i].phase.Exited?
    ensures ss[i + 1].phase.Exited? && ss[i + 1].accepted == ss[i].accepted && ss[i + 1].core.log == ss[i].core.log
  {
    RunKeepsInv(ss, i);
    RunNext(ss, i + 1);
    hide Run, Conserved, PermitsKept, PostsKept, MarkerLast, Next;
    ExitedStays(ss[i], ss[i + 1]);
  }

  lemma ExitedStays(s: State, s': State)
    requires Next(s, s') && s.phase.Exited? && PermitsKept(s) && MarkerLast(s)
    ensures s'.phase.Exited? && s'.accepted == s.accepted && s'.core.log == s.core.log
  {
    hide Chunks, Busy, Enabled, Do;
    NoneBusy(s.core.workers);
    var st :| Enabled(s, st) && s' == Do(s, st);
    ExitedStep(s, st);
  }

  lemma ExitedStep(s: State, st: Step)
    requires Enabled(s, st) && s.phase.Exited? && s.stopping != Open && forall i :: 0 <= i < |s.core.workers| ==> !Holds(s.core.workers[i])
    ensures var s' := Do(s, st); s'.phase.Exited? && s'.accepted == s.accepted && s'.core.log == s.core.log
  {
    hide Chunks;
  }

  /**
   * The wait has no lost wake-up: as long as no permit is lost a sleeping dispatcher is owed a notification, by a
   * worker that can move or by one that is stuck in a stop of its own.
   */
  lemma SleeperWillWake(ss: seq<State>, i: nat)
    requires Run(ss) && i < |ss| && ss[i].phase.Asleep?
    ensures ss[i].core.lost > 0 || exists k: nat :: WorkerCanMove(ss[i], k) || IsStuck(ss[i], k)
  {
    RunPermits(ss, i);
    var ws := ss[i].core.workers;
    if ss[i].core.lost == 0 {
      var k :| 0 <= k < |ws| && (Holds(ws[k]) || ws[k].Released?);
      hide Partition, Busy;
      assert WorkerCanMove(ss[i], k) || IsStuck(ss[i], k);
    }
  }

  predicate WorkerCanMove(s: State, k: nat) {
    Enabled(s, WorkerPost(k)) || Enabled(s, WorkerReturn(k)) || Enabled(s, WorkerRelease(k)) || Enabled(s, WorkerNotify(k))
  }

  predicate IsStuck(s: State, k: nat) {
    k < |s.core.workers| && s.core.workers[k].Stuck?
  }

  predicate NoneStuck(s: State) {
    forall k :: 0 <= k < |s.core.workers| ==> !s.core.workers[k].Stuck?
  }

  /** No flush waits for the dispatcher, and all permits can come back. */
  predicate Unblocked(s: State) {
    NoneStuck(s) && s.core.lost == 0
  }

  /** The pool raises when the flush is submitted. */
  predicate Loses(st: Step) {
    st.ProcessNext? && st.raises
  }

  /** The final send overlaps nothing: all permits are back and no flush is sending. */
  lemma FinalSendAlone(ss: seq<State>, i: nat)
    requires Run(ss) && i < |ss| && ss[i].phase.FinalSend?
    ensures ss[i].core.permits == MAX_FLUSH_WORKERS
    ensures forall k :: 0 <= k < |ss[i].core.workers| ==> !Holds(ss[i].core.workers[k])
  {
    RunKeepsInv(ss, i);
    NoneBusy(ss[i].core.workers);
  }

  /** Permits, flushes that have not released theirs, and permits lost to flushes that never started always make five. */
  lemma PermitsConserved(ss: seq<State>, i: nat)
    requires Run(ss) && i < |ss|
    ensures ss[i].core.permits + Busy(ss[i].core.workers) + ss[i].core.lost == MAX_FLUSH_WORKERS
    ensures 0 <= ss[i].core.permits <= MAX_FLUSH_WORKERS
  {
    RunKeepsInv(ss, i);
  }

  // ---------- a flush hands over and sends ----------

  /**
   * A flush message that finds a permit, and a pool that takes the flush: the buffer is empty afterwards, all of it
   * is the payload of one new flush that has sent nothing yet, and one permit is taken. Without a permit, or when
   * the pool raises, the buffer is kept and no flush starts.
   */
  lemma FlushHandsOver(s: State, raises: bool)
    requires Enabled(s, ProcessNext(raises)) && s.phase.todo[0].FlushMessage? && !s.core.closed
    ensures var (c, c') := (s.core, Do(s, ProcessNext(raises)).core);
            && (c.permits > 0 && !raises ==> c'.buffer == [] && Flatten(c'.payloads) == Flatten(c.payloads) + c.buffer)
            && (c.permits > 0 && !raises && c.buffer != [] ==>
                  && c'.payloads == c.payloads + [c.buffer] && c'.workers == c.workers + [Sending(0)] && c'.permits == c.permits - 1)
            && (c.permits <= 0 || raises ==> c'.buffer == c.buffer && c'.payloads == c.payloads && c'.workers == c.workers)
    ensures Do(s, ProcessNext(raises)).phase == Processing(s.phase.todo[1..])
  {
    HandOverConserves(s.core, Sending(0), s.core.permits - 1);
    hide Flatten;
  }

  /** In a run, all events accepted and processed so far are then in payloads. */
  lemma FlushedSoFar(ss: seq<State>)
    requires Run(ss) && Enabled(ss[|ss| - 1], ProcessNext(false)) && ss[|ss| - 1].phase.todo[0].FlushMessage?
    requires ss[|ss| - 1].core.permits > 0
    ensures var s' := Do(ss[|ss| - 1], ProcessNext(false));
            s'.core.buffer == [] && s'.accepted == Flatten(s'.core.payloads) + Sendables(s'.phase.todo) + Sendables(s'.inbox)
  {
    var s := ss[|ss| - 1];
    RunKeepsInv(ss, |ss| - 1);
    FlushHandsOver(s, false);
    StepConserves(s, ProcessNext(false));
    hide Run, PermitsKept, PostsKept, Flatten, Sendables;
    assert Flatten(Do(s, ProcessNext(false)).core.payloads) + [] == Flatten(Do(s, ProcessNext(false)).core.payloads);
  }

  /** The run goes on by posts of one flush alone. */
  ghost predicate OnlyPosts(ss: seq<State>, ss': seq<State>, k: nat) {
    && 0 < |ss| <= |ss'| && ss <= ss'
    && forall n :: |ss| - 1 <= n < |ss'| - 1 ==> Enabled(ss'[n], WorkerPost(k)) && ss'[n + 1] == Do(ss'[n], WorkerPost(k))
  }

  /** A flush that has started can send the whole of its payload by its own posts alone, without a stop. */
  lemma {:induction false} FlushSends(ss: seq<State>, k: nat) returns (ss': seq<State>)
    requires Run(ss) && k < |ss[|ss| - 1].core.workers| && ss[|ss| - 1].core.workers[k].Sending?
    ensures Run(ss') && OnlyPosts(ss, ss', k)
    ensures var c := ss'[|ss'| - 1].core; k < |c.payloads| && c.payloads == ss[|ss| - 1].core.payloads && Flatten(PostedFor(c.log, k)) == c.payloads[k]
    decreases PostsLeft(ss[|ss| - 1].core, k)
  {
    var s := ss[|ss| - 1];
    RunKeepsInv(ss, |ss| - 1);
    hide Run, Conserved, MarkerLast, PermitsKept, Partition, PostedFor, Flatten;
    assert PostedAsFar(s.core, k);
    if s.core.workers[k].next < |Chunks(s.core, k)| {
      var longer := ExtendRun(ss, WorkerPost(k));
      hide Enabled;
      ss' := FlushSends(longer, k);
      OnlyPostsStep(ss, longer, ss', k);
    } else {
      ss' := ss;
      PartitionPrefix(s.core.payloads[k], MAX_EVENTS_PER_REQUEST, |Chunks(s.core, k)|);
    }
  }

  function PostsLeft(c: Core, k: nat): nat {
    if k < |c.workers| && k < |c.payloads| && c.workers[k].Sending? && c.workers[k].next < |Chunks(c, k)|
    then |Chunks(c, k)| - c.workers[k].next else 0
  }

  lemma OnlyPostsStep(ss: seq<State>, longer: seq<State>, ss': seq<State>, k: nat)
    requires 0 < |ss| && |longer| == |ss| + 1 && ss <= longer && Enabled(ss[|ss| - 1], WorkerPost(k))
    requires longer[|ss|] == Do(ss[|ss| - 1], WorkerPost(k)) && OnlyPosts(longer, ss', k)
    ensures OnlyPosts(ss, ss', k)
  {
    hide Enabled, Do;
    assert ss'[|ss| - 1] == longer[|ss| - 1] == ss[|ss| - 1] && ss'[|ss|] == longer[|ss|];
  }

  /** Together: a flush message with a permit to spare leads, by posts of the new flush alone, to all of the buffer being sent. */
  lemma FlushReachesSender(ss: seq<State>) returns (ss': seq<State>, k: nat)
    requires Run(ss) && Enabled(ss[|ss| - 1], ProcessNext(false)) && ss[|ss| - 1].phase.todo[0].FlushMessage?
    requires ss[|ss| - 1].core.permits > 0 && ss[|ss| - 1].core.buffer != []
    ensures Run(ss') && |ss| < |ss'| && ss <= ss' && ss'[|ss|] == Do(ss[|ss| - 1], ProcessNext(false))
    ensures OnlyPosts(ss'[..|ss| + 1], ss', k)
    ensures Flatten(PostedFor(ss'[|ss'| - 1].core.log, k)) == ss[|ss| - 1].core.buffer
  {
    var s := ss[|ss| - 1];
    RunKeepsInv(ss, |ss| - 1);
    hide Run, Conserved, PermitsKept, PostsKept, Flatten, PostedFor;
    assert !s.core.closed;
    FlushHandsOver(s, false);
    k := |s.core.workers|;
    var flushed := ExtendRun(ss, ProcessNext(false));
    RunPermits(ss, |ss| - 1);
    assert |s.core.workers| == |s.core.payloads| by { SameCount(s); }
    hide Do, Enabled;
    ss' := FlushSends(flushed, k);
    assert ss'[..|flushed|] == flushed;
  }

  lemma SameCount(s: State)
    requires PermitsKept(s)
    ensures |s.core.workers| == |s.core.payloads|
  {
  }

  // ---------- runs in which things go wrong ----------

  /** An event and a flush request have come in. */
  lemma FlushQueued(capacity: nat, e: Event) returns (ss: seq<State>)
    requires (capacity == 0 || capacity >= 2) && e.isSendEvent
    ensures Run(ss)
    ensures ss[|ss| - 1] == Start(capacity).(accepted := [e], inbox := [EventMessage(e), FlushMessage])
  {
    ss := ExtendRun([Start(capacity)], Step.SendEvent(e));
    assert ss[|ss| - 1] == Start(capacity).(accepted := [e], inbox := [EventMessage(e)]);
    hide Run;
    ss := ExtendRun(ss, RequestFlush);
  }

  /** The dispatcher has drained both. */
  lemma FlushDrained(capacity: nat, e: Event) returns (ss: seq<State>)
    requires (capacity == 0 || capacity >= 2) && e.isSendEvent
    ensures Run(ss)
    ensures ss[|ss| - 1] == Start(capacity).(accepted := [e], phase := Processing([EventMessage(e), FlushMessage]))
  {
    ss := FlushQueued(capacity, e);
    hide Run;
    var none: seq<Message> := [];
    assert [EventMessage(e), FlushMessage][1..] == [FlushMessage] && [FlushMessage][1..] == [];
    assert none + [EventMessage(e)] == [EventMessage(e)] && [EventMessage(e)] + [FlushMessage] == [EventMessage(e), FlushMessage];
    ss := ExtendRun(ss, Get);
    assert ss[|ss| - 1] == Start(capacity).(accepted := [e], phase := Draining([EventMessage(e)]), inbox := [FlushMessage]);
    ss := ExtendRun(ss, Get);
    assert ss[|ss| - 1] == Start(capacity).(accepted := [e], phase := Draining([EventMessage(e), FlushMessage]));
    ss := ExtendRun(ss, DrainDone);
  }

  /** The dispatcher is about to process the flush, with the event in its buffer. */
  lemma FlushRequested(capacity: nat, e: Event) returns (ss: seq<State>)
    requires (capacity == 0 || capacity >= 2) && e.isSendEvent
    ensures Run(ss)
    ensures ss[|ss| - 1] == Start(capacity).(accepted := [e], phase := Processing([FlushMessage]), core := Start(capacity).core.(buffer := [e]))
  {
    ss := FlushDrained(capacity, e);
    hide Run;
    ss := ExtendRun(ss, ProcessNext(false));
  }

  /** The flush takes the event, and its sender is at work. */
  lemma FlushStarted(capacity: nat, e: Event) returns (ss: seq<State>)
    requires (capacity == 0 || capacity >= 2) && e.isSendEvent
    ensures Run(ss)
    ensures ss[|ss| - 1].core == Start(capacity).core.(permits := MAX_FLUSH_WORKERS - 1, payloads := [[e]], workers := [Sending(0)])
    ensures ss[|ss| - 1].stopping == Open && ss[|ss| - 1].phase == Processing([])
  {
    ss := FlushRequested(capacity, e);
    hide Run;
    ss := ExtendRun(ss, ProcessNext(false));
  }

  /** The sender raises: the event is not received, and counts as failed. */
  lemma SenderRaises(capacity: nat, e: Event) returns (ss: seq<State>)
    requires (capacity == 0 || capacity >= 2) && e.isSendEvent
    ensures Run(ss) && ss[|ss| - 1].core.failed == {0} && ss[|ss| - 1].core.log == [] && ss[|ss| - 1].core.payloads == [[e]]
  {
    ss := FlushStarted(capacity, e);
    hide Run;
    assert |Chunks(ss[|ss| - 1].core, 0)| == 1;
    ss := ExtendRun(ss, WorkerRaise(0));
  }

  /** The sender stops the processor, and is stuck. */
  lemma SenderStops(capacity: nat, e: Event) returns (ss: seq<State>)
    requires (capacity == 0 || capacity >= 2) && e.isSendEvent
    ensures Run(ss) && IsStuck(ss[|ss| - 1], 0) && ss[|ss| - 1].stopping != Open
  {
    ss := FlushStarted(capacity, e);
    hide Run;
    ss := ExtendRun(ss, StopFromWorker(0));
  }

  /** The pool refuses the flush, and its permit is lost. */
  lemma PoolRefuses(capacity: nat, e: Event) returns (ss: seq<State>)
    requires (capacity == 0 || capacity >= 2) && e.isSendEvent
    ensures Run(ss) && ss[|ss| - 1].core.lost == 1 && ss[|ss| - 1].core.buffer == [e]
  {
    ss := FlushRequested(capacity, e);
    hide Run;
    ss := ExtendRun(ss, ProcessNext(true));
  }

  // ---------- the gate ----------

  /** Each way of stopping closes the gate, and only an event or flush that comes before it enters the inbox. */
  lemma StopsClose(s: State)
    ensures forall st :: Enabled(s, st) && (st.StopFromOutside? || st.StopFromDispatcher? || st.StopFromWorker?) ==>
              Do(s, st).stopping != Open && Do(s, st).inbox == s.inbox
    ensures forall st :: s.stopping != Open && Enabled(s, st) && (st.SendEvent? || st.RequestFlush?) ==> Do(s, st) == s
    ensures forall e :: s.stopping == Open && (s.capacity == 0 || |s.inbox| < s.capacity) ==>
              Do(s, Step.SendEvent(e)).inbox == s.inbox + [EventMessage(e)]
  {
    hide Chunks;
  }

  // ---------- stopping always comes to an end ----------

  /** The steps of the pipeline itself, as opposed to calls from the application. */
  predicate Internal(st: Step) {
    !st.SendEvent? && !st.RequestFlush? && !st.StopFromOutside? && !st.StopFromDispatcher? && !st.StopFromWorker?
  }

  function MessageWork(m: Message): nat {
    if m.EventMessage? then 10 else 0
  }

  /** The work in a list of messages, `each` being the cost of moving one. */
  function Work(ms: seq<Message>, each: nat): nat {
    if ms == [] then 0 else MessageWork(ms[0]) + each + Work(ms[1..], each)
  }

  function WorkerWork(w: Worker, total: nat): nat {
    match w
    case Sending(next) => 7 + (if next < total then total - next else 0)
    case Direct(next) => 7 + (if next < total then total - next else 0)
    case Stuck(next) => 8 + (if next < total then total - next else 0)
    case Returned(_) => 6
    case Released(_) => 4
    case Finished(_) => 0
  }

  function WorkersWork(c: Core): nat
    requires |c.workers| == |c.payloads|
    decreases |c.workers|
  {
    if c.workers == [] then 0 else
      var n := |c.workers| - 1;
      WorkersWork(c.(workers := c.workers[..n], payloads := c.payloads[..n])) + WorkerWork(c.workers[n], |Chunks(c, n)|)
  }

  function PhaseWork(p: Phase): nat {
    match p
    case Draining(got) => Work(got, 5)
    case Processing(todo) => 2 + Work(todo, 2)
    case CheckingPermits => 1
    case _ => 0
  }

  /** What is left to do once the gate is closed. */
  function Rank(s: State): nat
    requires |s.core.workers| == |s.core.payloads|
  {
    (if s.stopping == Marking then 7 else 0) + Work(s.inbox, 6) + PhaseWork(s.phase)
    + 10 * |s.core.buffer| + WorkersWork(s.core)
  }

  lemma {:induction false} WorkAppend(ms: seq<Message>, m: Message, each: nat)
    ensures Work(ms + [m], each) == Work(ms, each) + MessageWork(m) + each
  {
    if ms == [] {
      assert (ms + [m])[1..] == [];
    } else {
      assert (ms + [m])[1..] == ms[1..] + [m];
      WorkAppend(ms[1..], m, each);
    }
  }

  lemma {:induction false} WorkScales(ms: seq<Message>, each: nat, each': nat)
    requires each <= each'
    ensures Work(ms, each') == Work(ms, each) + (each' - each) * |ms|
  {
    if ms != [] {
      WorkScales(ms[1..], each, each');
    }
  }

  /** A payload of n events has at most n chunks. */
  lemma {:induction false} FewChunks(payload: seq<Event>, size: nat)
    requires size > 0
    ensures |Partition(payload, size)| <= |payload|
    decreases |payload|
  {
    if |payload| > size {
      FewChunks(payload[size..], size);
    }
  }

  lemma {:induction false} MoveWork(c: Core, i: nat, w: Worker)
    requires i < |c.workers| == |c.payloads|
    ensures WorkersWork(Moved(c, i, w)) ==
            WorkersWork(c) - WorkerWork(c.workers[i], |Chunks(c, i)|) + WorkerWork(w, |Chunks(c, i)|)
    decreases |c.workers|
  {
    hide Partition;
    var n := |c.workers| - 1;
    var front := c.(workers := c.workers[..n], payloads := c.payloads[..n]);
    if i < n {
      MoveWork(front, i, w);
      assert c.workers[i := w][..n] == c.workers[..n][i := w];
      assert Chunks(front, i) == Chunks(c, i);
    } else {
      assert c.workers[i := w][..n] == c.workers[..n];
    }
  }

  lemma {:induction false} SameWorkersWork(c: Core, c': Core)
    requires |c.workers| == |c.payloads| && c'.workers == c.workers && c'.payloads == c.payloads
    ensures WorkersWork(c') == WorkersWork(c)
    decreases |c.workers|
  {
    if c.workers != [] {
      hide Partition;
      var n := |c.workers| - 1;
      SameWorkersWork(c.(workers := c.workers[..n], payloads := c.payloads[..n]),
                      c'.(workers := c'.workers[..n], payloads := c'.payloads[..n]));
    }
  }

  lemma HandOverWork(c: Core, w: Worker, permits: int)
    requires |c.workers| == |c.payloads| && c.buffer != [] && (w == Sending(0) || w == Direct(0))
    ensures WorkersWork(HandedOver(c, w, permits)) < WorkersWork(c) + 10 * |c.buffer|
  {
    var c' := HandedOver(c, w, permits);
    var n := |c.workers|;
    assert c'.workers[..n] == c.workers && c'.payloads[..n] == c.payloads;
    SameWorkersWork(c, c'.(workers := c'.workers[..n], payloads := c'.payloads[..n]));
    FewChunks(c.buffer, MAX_EVENTS_PER_REQUEST);
  }

  lemma WorkerStepMoves(s: State, st: Step)
    requires PermitsKept(s) && Enabled(s, st) && IsWorkerStep(st)
    ensures var s', i := Do(s, st), MovedWorker(s, st);
            && 0 <= i < |s.core.workers| == |s'.core.workers| && s'.core.workers == s.core.workers[i := s'.core.workers[i]]
            && s'.core.payloads == s.core.payloads && s'.core.buffer == s.core.buffer
            && s'.inbox == s.inbox && s'.stopping == s.stopping
            && WorkerWork(s'.core.workers[i], |Chunks(s.core, i)|) + PhaseWork(s'.phase)
               < WorkerWork(s.core.workers[i], |Chunks(s.core, i)|) + PhaseWork(s.phase)
  {
    hide Partition, Work, Busy;
  }

  lemma WorkerStepDescends(s: State, st: Step)
    requires PermitsKept(s) && Enabled(s, st) && IsWorkerStep(st)
    ensures |Do(s, st).core.workers| == |Do(s, st).core.payloads| && Rank(Do(s, st)) < Rank(s)
  {
    WorkerStepMoves(s, st);
    hide Partition, Work, PhaseWork, WorkerWork, Enabled, Do, PermitsKept, WorkersWork;
    var c, c' := s.core, Do(s, st).core;
    var i := MovedWorker(s, st);
    MoveWork(c, i, c'.workers[i]);
    SameWorkersWork(Moved(c, i, c'.workers[i]), c');
  }

  lemma DispatcherStepDescends(s: State, st: Step)
    requires |s.core.workers| == |s.core.payloads| && Enabled(s, st)
    requires st.PutMarker? || st.Get? || st.DrainDone? || st.ProcessNext? || st.CheckPermits?
    ensures |Do(s, st).core.workers| == |Do(s, st).core.payloads| && Rank(Do(s, st)) < Rank(s)
  {
    hide Partition, WorkersWork, Flushed;
    var c, c' := s.core, Do(s, st).core;
    match st {
      case PutMarker => WorkAppend(s.inbox, ShutdownMessage, 6);
      case Get => WorkAppend(s.phase.got, s.inbox[0], 5);
      case DrainDone => WorkScales(s.phase.got, 2, 5);
      case ProcessNext(raises) =>
        match s.phase.todo[0] {
          case EventMessage(e) => SameWorkersWork(c, c');
          case FlushMessage => FlushWork(c, raises);
          case ShutdownMessage =>
        }
      case CheckPermits =>
        if c.buffer != [] { HandOverWork(c, Direct(0), c.permits); } else if c'.closed { SameWorkersWork(c, c.(closed := true)); }
    }
  }

  lemma FlushWork(c: Core, raises: bool)
    requires |c.workers| == |c.payloads|
    ensures |Flushed(c, raises).workers| == |Flushed(c, raises).payloads|
    ensures 10 * |Flushed(c, raises).buffer| + WorkersWork(Flushed(c, raises)) <= 10 * |c.buffer| + WorkersWork(c)
  {
    hide WorkersWork, Partition;
    if Flushed(c, raises) != c {
      if raises {
        SameWorkersWork(c, Flushed(c, raises));
      } else {
        HandOverWork(c, Sending(0), c.permits - 1);
      }
    }
  }

  /**
   * After the gate has closed every step of the pipeline reduces the work left, calls from the application change
   * nothing, and unless a flush is stuck in a stop of its own or a permit was lost, some step that loses none can
   * be taken until the dispatcher returns.
   */
  lemma StoppingEnds(ss: seq<State>, i: nat)
    requires Run(ss) && i < |ss| && ss[i].stopping != Open
    ensures |ss[i].core.workers| == |ss[i].core.payloads|
    ensures forall st :: Internal(st) && Enabled(ss[i], st) ==>
              |Do(ss[i], st).core.workers| == |Do(ss[i], st).core.payloads| && Rank(Do(ss[i], st)) < Rank(ss[i])
    ensures forall st :: !Internal(st) && Enabled(ss[i], st) ==> Do(ss[i], st) == ss[i]
    ensures !ss[i].phase.Exited? && Unblocked(ss[i]) ==> exists st :: Internal(st) && !Loses(st) && Enabled(ss[i], st)
  {
    RunKeepsInv(ss, i);
    RunNeverStarves(ss, i);
    var s := ss[i];
    forall st | Internal(st) && Enabled(s, st)
      ensures |Do(s, st).core.workers| == |Do(s, st).core.payloads| && Rank(Do(s, st)) < Rank(s)
    {
      if IsWorkerStep(st) {
        WorkerStepDescends(s, st);
      } else if st.BatchDone? {
        assert Work([], 5) == 0 && Work([], 2) == 0;
      } else {
        DispatcherStepDescends(s, st);
      }
    }
    if !s.phase.Exited? && Unblocked(s) {
      SomeStep(ss, i);
    }
  }

  /** A flush whose sender stops the processor waits for the dispatcher, which waits for the flush: neither ever goes on. */
  lemma {:induction false} StuckForever(ss: seq<State>, i: nat, j: nat, k: nat)
    requires Run(ss) && i <= j < |ss| && IsStuck(ss[i], k)
    ensures IsStuck(ss[j], k) && !ss[j].phase.Exited? && ss[j].core.permits < MAX_FLUSH_WORKERS
    decreases j
  {
    hide Run, Next, PermitsKept, IsStuck;
    RunPermits(ss, j);
    if i < j {
      StuckForever(ss, i, j - 1, k);
      RunPermits(ss, j - 1);
      RunNext(ss, j);
      StuckNext(ss[j - 1], ss[j], k);
    }
    StuckHolds(ss[j], k);
  }

  lemma RunPermits(ss: seq<State>, i: nat)
    requires Run(ss) && i < |ss|
    ensures PermitsKept(ss[i])
  {
    RunKeepsInv(ss, i);
    hide Run, PermitsKept, Conserved, MarkerLast, PostsKept;
  }

  lemma RunNext(ss: seq<State>, i: nat)
    requires Run(ss) && 0 < i < |ss|
    ensures Next(ss[i - 1], ss[i])
  {
    hide Next;
  }

  lemma StuckNext(s: State, s': State, k: nat)
    requires PermitsKept(s) && Next(s, s') && IsStuck(s, k) && !s.phase.Exited?
    ensures IsStuck(s', k)
  {
    hide PermitsKept, Enabled, Do;
    var st :| Enabled(s, st) && s' == Do(s, st);
    StuckStays(s, st, k);
  }

  lemma StuckHolds(s: State, k: nat)
    requires PermitsKept(s) && IsStuck(s, k)
    ensures !s.phase.Exited? && s.core.permits < MAX_FLUSH_WORKERS
  {
    hide Busy;
    NoneBusy(s.core.workers);
    assert Holds(s.core.workers[k]);
  }

  lemma StuckStays(s: State, st: Step, k: nat)
    requires PermitsKept(s) && Enabled(s, st) && IsStuck(s, k) && !s.phase.Exited?
    ensures IsStuck(Do(s, st), k)
  {
    hide Chunks;
    if IsWorkerStep(st) {
      WorkerStepMoves(s, st);
      assert MovedWorker(s, st) != k;
      hide Do, Enabled, PermitsKept;
    } else {
      hide PermitsKept;
    }
  }

  /** A permit taken for a flush that never starts does not come back, and without it the dispatcher never returns. */
  lemma {:induction false} LostForever(ss: seq<State>, i: nat, j: nat)
    requires Run(ss) && i <= j < |ss| && ss[i].core.lost > 0
    ensures ss[j].core.lost > 0 && !ss[j].phase.Exited? && ss[j].core.permits < MAX_FLUSH_WORKERS
    decreases j
  {
    hide Run, Next, Busy;
    RunPermits(ss, j);
    if i < j {
      LostForever(ss, i, j - 1);
      RunNext(ss, j);
      LostStays(ss[j - 1], ss[j]);
    }
  }

  lemma LostStays(s: State, s': State)
    requires Next(s, s')
    ensures s'.core.lost >= s.core.lost
  {
    hide Chunks;
  }

  /** After the gate has closed the dispatcher can still return if and only if no flush is stuck and no permit was lost. */
  lemma ReturnsUnlessStuck(ss: seq<State>)
    requires Run(ss) && ss[|ss| - 1].stopping != Open
    ensures (exists ss': seq<State> :: Run(ss') && ss <= ss' && ss'[|ss'| - 1].phase.Exited?) <==> Unblocked(ss[|ss| - 1])
  {
    var s := ss[|ss| - 1];
    if Unblocked(s) {
      var ss' := Returning(ss);
    } else if s.core.lost > 0 {
      forall ss': seq<State> | Run(ss') && ss <= ss' ensures !ss'[|ss'| - 1].phase.Exited? {
        LostForever(ss', |ss| - 1, |ss'| - 1);
      }
    } else {
      var k :| 0 <= k < |s.core.workers| && s.core.workers[k].Stuck?;
      assert IsStuck(s, k);
      forall ss': seq<State> | Run(ss') && ss <= ss' ensures !ss'[|ss'| - 1].phase.Exited? {
        StuckForever(ss', |ss| - 1, |ss'| - 1, k);
      }
    }
  }

  function WorkLeft(s: State): nat {
    if |s.core.workers| == |s.core.payloads| then Rank(s) else 0
  }

  /** The gate is closed and nothing is in the way of the dispatcher. */
  ghost predicate Closing(s: State) {
    s.stopping != Open && Unblocked(s)
  }

  lemma ClosingStep(ss: seq<State>) returns (st: Step)
    requires Run(ss) && Closing(ss[|ss| - 1]) && !ss[|ss| - 1].phase.Exited?
    ensures Enabled(ss[|ss| - 1], st)
    ensures Closing(Do(ss[|ss| - 1], st)) && WorkLeft(Do(ss[|ss| - 1], st)) < WorkLeft(ss[|ss| - 1])
  {
    var s := ss[|ss| - 1];
    StoppingEnds(ss, |ss| - 1);
    RunPermits(ss, |ss| - 1);
    hide Rank, Run, Enabled, Do, PermitsKept, Unblocked;
    st :| Internal(st) && !Loses(st) && Enabled(s, st);
    StaysUnstuck(s, st);
  }

  lemma {:induction false} Returning(ss: seq<State>) returns (ss': seq<State>)
    requires Run(ss) && Closing(ss[|ss| - 1])
    ensures Run(ss') && ss <= ss' && ss'[|ss'| - 1].phase.Exited?
    decreases WorkLeft(ss[|ss| - 1])
  {
    if ss[|ss| - 1].phase.Exited? {
      return ss;
    }
    hide WorkLeft, Closing, Run, Enabled, Do;
    var st := ClosingStep(ss);
    var longer := ExtendRun(ss, st);
    ss' := Returning(longer);
  }

  lemma StaysUnstuck(s: State, st: Step)
    requires PermitsKept(s) && Enabled(s, st) && s.stopping != Open && Unblocked(s) && !Loses(st)
    ensures Do(s, st).stopping != Open && Unblocked(Do(s, st))
  {
    hide Chunks;
    if IsWorkerStep(st) {
      WorkerStepMoves(s, st);
      assert !Do(s, st).core.workers[MovedWorker(s, st)].Stuck? && Do(s, st).core.lost == s.core.lost;
      hide Do, Enabled, PermitsKept;
    } else {
      hide PermitsKept;
    }
  }

  lemma ExtendRun(ss: seq<State>, st: Step) returns (ss': seq<State>)
    requires Run(ss) && Enabled(ss[|ss| - 1], st)
    ensures Run(ss') && |ss'| == |ss| + 1 && ss <= ss' && ss'[|ss'| - 1] == Do(ss[|ss| - 1], st)
  {
    hide Enabled;
    ss' := ss + [Do(ss[|ss| - 1], st)];
    assert Do(ss[|ss| - 1], st).capacity == ss[|ss| - 1].capacity;
    assert Next(ss[|ss| - 1], ss'[|ss'| - 1]);
    forall i | 0 <= i < |ss'| - 1 ensures Next(ss'[i], ss'[i + 1]) {
      if i < |ss| - 1 {
        assert Next(ss[i], ss[i + 1]);
      }
    }
  }

  /** A drained batch is within the limit, and a dispatcher that is to stop never blocks on an empty inbox. */
  ghost predicate NeverStarves(s: State) {
    && (s.phase.Draining? ==> |s.phase.got| <= BATCH_SIZE)
    && (s.phase == Draining([]) && s.stopping in {Marked, Requested} ==> s.inbox != [])
    && (s.stopping == Marked && !ShuttingDown(s) ==> exists i :: 0 <= i < |s.Drained() + s.inbox| && (s.Drained() + s.inbox)[i].ShutdownMessage?)
  }

  lemma {:induction false} RunNeverStarves(ss: seq<State>, i: nat)
    requires Run(ss) && i < |ss|
    ensures NeverStarves(ss[i])
  {
    if i > 0 {
      RunNeverStarves(ss, i - 1);
      RunKeepsInv(ss, i - 1);
      assert Next(ss[i - 1], ss[i]);
      hide NeverStarves, Enabled, Inv;
      var st :| Enabled(ss[i - 1], st) && ss[i] == Do(ss[i - 1], st);
      StepNeverStarves(ss[i - 1], st);
    }
  }

  lemma ProcessNeverStarves(s: State, raises: bool)
    requires MarkerLast(s) && NeverStarves(s) && Enabled(s, ProcessNext(raises))
    ensures NeverStarves(Do(s, ProcessNext(raises)))
  {
    hide Flushed, Buffered;
    var s' := Do(s, ProcessNext(raises));
    var ms, ms' := s.Drained() + s.inbox, s'.Drained() + s'.inbox;
    if !s.phase.todo[0].ShutdownMessage? && s.stopping == Marked {
      assert ms' == ms[1..];
      var k :| 0 <= k < |ms| && ms[k].ShutdownMessage?;
      assert k > 0 && ms'[k - 1].ShutdownMessage?;
    }
  }

  /** The steps of flushes move no message, and the dispatcher only from sleep or to its end. */
  lemma WorkerNeverStarves(s: State, st: Step)
    requires NeverStarves(s) && Enabled(s, st) && IsWorkerStep(st)
    ensures NeverStarves(Do(s, st))
  {
    hide Chunks;
    var s' := Do(s, st);
    assert s'.phase == s.phase || ShuttingDown(s');
    assert s'.inbox == s.inbox && s'.stopping == s.stopping;
    assert s'.phase == s.phase ==> s'.Drained() + s'.inbox == s.Drained() + s.inbox;
    hide Do, Enabled;
  }

  lemma MarkerNeverStarves(s: State)
    requires NeverStarves(s) && Enabled(s, PutMarker)
    ensures NeverStarves(Do(s, PutMarker))
  {
    var s' := Do(s, PutMarker);
    var ms, ms' := s.Drained() + s.inbox, s'.Drained() + s'.inbox;
    assert ms' == ms + [ShutdownMessage] && ms'[|ms|].ShutdownMessage?;
  }

  lemma StepNeverStarves(s: State, st: Step)
    requires Inv(s) && NeverStarves(s) && Enabled(s, st)
    ensures NeverStarves(Do(s, st))
  {
    hide Chunks, Conserved, PermitsKept, PostsKept, HandedOver;
    if st.ProcessNext? {
      ProcessNeverStarves(s, st.raises);
    } else if st.PutMarker? {
      MarkerNeverStarves(s);
    } else if IsWorkerStep(st) {
      WorkerNeverStarves(s, st);
    } else if st.SendEvent? || st.RequestFlush? {
      assert s.stopping == Open || Do(s, st) == s;
    } else {
      assert Do(s, st).Drained() + Do(s, st).inbox == s.Drained() + s.inbox;
    }
  }

  lemma SomeStep(ss: seq<State>, i: nat)
    requires Run(ss) && i < |ss| && ss[i].stopping != Open && !ss[i].phase.Exited? && Unblocked(ss[i])
    ensures exists st :: Internal(st) && !Loses(st) && Enabled(ss[i], st)
  {
    var s := ss[i];
    RunKeepsInv(ss, i);
    RunNeverStarves(ss, i);
    if s.phase.Asleep? {
      SleeperWillWake(ss, i);
      var k: nat :| WorkerCanMove(s, k);
      assert Internal(WorkerPost(k)) && Internal(WorkerReturn(k)) && Internal(WorkerRelease(k)) && Internal(WorkerNotify(k));
    } else {
      hide Inv, NeverStarves, Partition;
      var st := DispatcherStep(s);
      assert Internal(st) && Enabled(s, st);
    }
  }

  /** What the pipeline can do next when its dispatcher is awake. */
  ghost function DispatcherStep(s: State): (st: Step)
    requires Inv(s) && NeverStarves(s) && s.stopping != Open && !s.phase.Exited? && !s.phase.Asleep?
    ensures Internal(st) && Enabled(s, st)
  {
    match s.phase
    case Draining(got) =>
      if |got| < BATCH_SIZE && s.inbox != [] then Get
      else if got != [] then DrainDone
      else PutMarker
    case Processing(todo) => if todo != [] then ProcessNext(false) else BatchDone
    case CheckingPermits => CheckPermits
    case FinalSend => FinalPost
    case _ => BatchDone
  }
}
