/** The notice broadcaster: a registry of listeners, a queue, and one dispatching thread. */
module NoticeBroadcaster {
  import opened Common

  datatype Notice = Notice(noticeType: string, flagKey: string)

  /** A queue entry: an accepted notice, or the sentinel that ends the thread. */
  datatype Entry = Accepted(notice: Notice) | StopNotice

  /** A registered callable, by identity. */
  type ListenerId = nat

  /** Everything the lock protects. */
  datatype Shared = Shared(closed: bool, listeners: map<string, seq<ListenerId>>, queue: seq<Entry>)

  function ListenersOf(sh: Shared, noticeType: string): seq<ListenerId> {
    if noticeType in sh.listeners then sh.listeners[noticeType] else []
  }

  /** Type names that consist of spaces only are refused; `blank` says which those are. */
  function Added(sh: Shared, noticeType: string, blank: bool, l: ListenerId): Shared {
    if blank || sh.closed then sh
    else sh.(listeners := sh.listeners[noticeType := ListenersOf(sh, noticeType) + [l]])
  }

  function Removed(sh: Shared, noticeType: string, l: ListenerId): Shared {
    if l !in ListenersOf(sh, noticeType) then sh else
      var left := RemoveFirst(ListenersOf(sh, noticeType), l);
      sh.(listeners := if left == [] then sh.listeners - {noticeType} else sh.listeners[noticeType := left])
  }

  function Broadcasted(sh: Shared, n: Notice): Shared {
    if sh.closed then sh else sh.(queue := sh.queue + [Accepted(n)])
  }

  /** The registry operations, field by field; each body runs under the lock. */
  class NoticeBroadcater {
    var closed: bool
    var listeners: map<string, seq<ListenerId>>
    var queue: seq<Entry>

    function View(): Shared
      reads this
    {
      Shared(closed, listeners, queue)
    }

    constructor ()
      ensures View() == Shared(false, map[], [])
    {
      closed, listeners, queue := false, map[], [];
    }

    method AddListener(noticeType: string, blank: bool, l: ListenerId)
      modifies this
      ensures View() == Added(old(View()), noticeType, blank, l)
    {
      if !blank {
        if closed {
          return;
        }
        if noticeType !in listeners {
          listeners := listeners[noticeType := []];
        }
        listeners := listeners[noticeType := listeners[noticeType] + [l]];
      }
    }

    method RemoveListener(noticeType: string, l: ListenerId)
      modifies this
      ensures View() == Removed(old(View()), noticeType, l)
    {
      if noticeType !in listeners || listeners[noticeType] == [] {
        return;
      }
      var notifiers := listeners[noticeType];
      if l !in notifiers {
        return;
      }
      notifiers := RemoveFirst(notifiers, l);
      listeners := listeners[noticeType := notifiers];
      if notifiers == [] {
        listeners := listeners - {noticeType};
      }
    }

    method Broadcast(n: Notice)
      modifies this
      ensures View() == Broadcasted(old(View()), n)
    {
      if closed {
        return;
      }
      queue := queue + [Accepted(n)];
    }

    /** The locked part of `stop`: closes the gate; only the caller that closed it goes on to enqueue the sentinel. */
    method Close() returns (owner: bool)
      modifies this
      ensures View() == old(View()).(closed := true)
      ensures owner <==> !old(View()).closed
    {
      if closed {
        return false;
      }
      closed := true;
      return true;
    }
  }

  // ---------- the registry ----------

  function Registrations(sh: Shared, noticeType: string): multiset<ListenerId> {
    multiset(ListenersOf(sh, noticeType))
  }

  /** Adding to an open broadcaster is one registration more, removing, closed or not, is one less. */
  lemma RegistrationsCounted(sh: Shared, noticeType: string, l: ListenerId)
    ensures !sh.closed ==> Registrations(Added(sh, noticeType, false, l), noticeType) == Registrations(sh, noticeType) + multiset{l}
    ensures Registrations(Removed(sh, noticeType, l), noticeType) == Registrations(sh, noticeType) - multiset{l}
    ensures forall t :: t != noticeType ==> ListenersOf(Removed(sh, noticeType, l), t) == ListenersOf(sh, t)
  {
    RemoveFirstCounts(ListenersOf(sh, noticeType), l);
  }

  /** A closed broadcaster, or a blank type, registers nobody; an open one puts the listener behind the others of its type. */
  lemma AddsWhileOpen(sh: Shared, noticeType: string, blank: bool, l: ListenerId)
    ensures sh.closed || blank ==> Added(sh, noticeType, blank, l) == sh
    ensures !sh.closed && !blank ==> ListenersOf(Added(sh, noticeType, blank, l), noticeType) == ListenersOf(sh, noticeType) + [l]
    ensures forall t :: t != noticeType ==> ListenersOf(Added(sh, noticeType, blank, l), t) == ListenersOf(sh, t)
  {
  }

  /** A listener that was added can be removed again, with no trace among the registrations. */
  lemma AddThenRemove(sh: Shared, noticeType: string, l: ListenerId)
    requires !sh.closed
    ensures Registrations(Removed(Added(sh, noticeType, false, l), noticeType, l), noticeType) == Registrations(sh, noticeType)
  {
    RegistrationsCounted(sh, noticeType, l);
    RegistrationsCounted(Added(sh, noticeType, false, l), noticeType, l);
    hide Registrations, Added, Removed;
  }

  // ---------- all threads together ----------

  /** The dispatching thread: waiting for an entry, calling the listeners of a notice, or gone. */
  datatype Thread =
    | Waiting
    | Calling(notice: Notice, snapshot: seq<ListenerId>, done: nat)
    | Exited

  /** A dispatched notice with the listeners it was dispatched to. */
  datatype Dispatch = Dispatch(notice: Notice, snapshot: seq<ListenerId>)

  /**
   * `stopPending`: a caller of `stop` has closed the gate and not yet enqueued the sentinel.
   * `accepted`, `dispatched` and `calls` are histories; `calls[k]` are the listeners called for dispatch number `k`.
   */
  datatype State = State(shared: Shared, thread: Thread, stopPending: bool,
                         accepted: seq<Notice>, dispatched: seq<Dispatch>, calls: seq<seq<ListenerId>>)

  datatype Step =
    | AddStep(noticeType: string, blank: bool, l: ListenerId)
    | RemoveStep(noticeType: string, l: ListenerId)
    | BroadcastStep(n: Notice)
    | CloseStep
    | EnqueueStopStep
    | TakeStep
    | CallStep

  const START := State(Shared(false, map[], []), Waiting, false, [], [], [])

  predicate Enabled(s: State, st: Step) {
    match st
    case EnqueueStopStep => s.stopPending
    case TakeStep => s.thread.Waiting? && s.shared.queue != []
    case CallStep => s.thread.Calling?
    case _ => true
  }

  /** One more call for the latest dispatch. */
  function Called(calls: seq<seq<ListenerId>>, l: ListenerId): seq<seq<ListenerId>> {
    if calls == [] then [[l]] else calls[..|calls| - 1] + [calls[|calls| - 1] + [l]]
  }

  function Do(s: State, st: Step): State
    requires Enabled(s, st)
  {
    match st
    case AddStep(t, blank, l) => s.(shared := Added(s.shared, t, blank, l))
    case RemoveStep(t, l) => s.(shared := Removed(s.shared, t, l))
    case BroadcastStep(n) =>
      s.(shared := Broadcasted(s.shared, n), accepted := if s.shared.closed then s.accepted else s.accepted + [n])
    case CloseStep =>
      s.(shared := s.shared.(closed := true), stopPending := s.stopPending || !s.shared.closed)
    case EnqueueStopStep =>
      s.(shared := s.shared.(queue := s.shared.queue + [StopNotice]), stopPending := false)
    case TakeStep =>
      var rest := s.shared.(queue := s.shared.queue[1..]);
      if s.shared.queue[0].StopNotice? then s.(shared := rest, thread := Exited) else
        var n := s.shared.queue[0].notice;
        var snapshot := ListenersOf(s.shared, n.noticeType);
        s.(shared := rest, thread := Calling(n, snapshot, 0), dispatched := s.dispatched + [Dispatch(n, snapshot)], calls := s.calls + [[]])
    case CallStep =>
      if s.thread.done < |s.thread.snapshot| then
        // an exception in the listener is caught: the call has happened all the same
        s.(thread := s.thread.(done := s.thread.done + 1), calls := Called(s.calls, s.thread.snapshot[s.thread.done]))
      else s.(thread := Waiting)
  }

  ghost predicate Next(s: State, s': State) {
    exists st :: Enabled(s, st) && s' == Do(s, st)
  }

  ghost predicate Run(ss: seq<State>) {
    && |ss| > 0 && ss[0] == START
    && forall i :: 0 <= i < |ss| - 1 ==> Next(ss[i], ss[i + 1])
  }

  /** The number of notices in the queue, which holds the sentinel at its end if at all. */
  function Pending(queue: seq<Entry>): nat {
    if queue != [] && queue[|queue| - 1].StopNotice? then |queue| - 1 else |queue|
  }

  /** The accepted notices are those dispatched, then those in the queue, in this order and each once. */
  ghost predicate AcceptedKept(s: State) {
    var d := |s.dispatched|;
    && |s.accepted| == d + Pending(s.shared.queue)
    && (forall i :: 0 <= i < d ==> s.dispatched[i].notice == s.accepted[i])
    && (forall i :: 0 <= i < Pending(s.shared.queue) ==> s.shared.queue[i] == Accepted(s.accepted[d + i]))
  }

  /** The sentinel is still to come, is the last entry of the queue, or has ended the thread. */
  ghost predicate StopOnce(s: State) {
    && (forall i :: 0 <= i < |s.shared.queue| && s.shared.queue[i].StopNotice? ==>
          i == |s.shared.queue| - 1 && s.shared.closed && !s.stopPending && !s.thread.Exited?)
    && (s.stopPending ==> s.shared.closed && !s.thread.Exited?)
    && (s.thread.Exited? ==> s.shared.closed && s.shared.queue == [])
  }

  /** Every dispatch but the current one has called its whole snapshot, the current one a first part of it. */
  ghost predicate CallsInOrder(s: State) {
    var n := |s.dispatched|;
    && |s.calls| == n
    && (forall k :: 0 <= k < n - 1 ==> s.calls[k] == s.dispatched[k].snapshot)
    && (if s.thread.Calling? then
          && n > 0 && s.thread.done <= |s.thread.snapshot|
          && s.dispatched[n - 1] == Dispatch(s.thread.notice, s.thread.snapshot)
          && s.calls[n - 1] == s.thread.snapshot[..s.thread.done]
        else n > 0 ==> s.calls[n - 1] == s.dispatched[n - 1].snapshot)
  }

  ghost predicate Inv(s: State) {
    AcceptedKept(s) && StopOnce(s) && CallsInOrder(s)
  }

  lemma StepKeepsAccepted(s: State, st: Step)
    requires AcceptedKept(s) && StopOnce(s) && Enabled(s, st)
    ensures AcceptedKept(Do(s, st))
  {
    hide ListenersOf, Added, Removed, Called;
    if st.AddStep? || st.RemoveStep? {
      RegistryLeavesQueue(s.shared, st);
    }
  }

  lemma RegistryLeavesQueue(sh: Shared, st: Step)
    requires st.AddStep? || st.RemoveStep?
    ensures st.AddStep? ==> Added(sh, st.noticeType, st.blank, st.l) == sh.(listeners := Added(sh, st.noticeType, st.blank, st.l).listeners)
    ensures st.RemoveStep? ==> Removed(sh, st.noticeType, st.l) == sh.(listeners := Removed(sh, st.noticeType, st.l).listeners)
  {
  }

  lemma StepKeepsStopOnce(s: State, st: Step)
    requires StopOnce(s) && Enabled(s, st)
    ensures StopOnce(Do(s, st))
  {
    if st.TakeStep? && s.shared.queue[0].StopNotice? {
      assert |s.shared.queue| == 1;
    }
  }

  lemma StepKeepsCalls(s: State, st: Step)
    requires CallsInOrder(s) && Enabled(s, st)
    ensures CallsInOrder(Do(s, st))
  {
    hide ListenersOf;
    if st.CallStep? && s.thread.done < |s.thread.snapshot| {
      assert s.thread.snapshot[..s.thread.done + 1] == s.thread.snapshot[..s.thread.done] + [s.thread.snapshot[s.thread.done]];
    }
  }

  lemma StepKeepsInv(s: State, st: Step)
    requires Inv(s) && Enabled(s, st)
    ensures Inv(Do(s, st))
  {
    StepKeepsAccepted(s, st);
    StepKeepsStopOnce(s, st);
    StepKeepsCalls(s, st);
  }

  lemma {:induction false} RunKeepsInv(ss: seq<State>, i: nat)
    requires Run(ss) && i < |ss|
    ensures Inv(ss[i])
  {
    if i > 0 {
      hide Inv, Enabled;
      RunKeepsInv(ss, i - 1);
      assert Next(ss[i - 1], ss[i]);
      var st :| Enabled(ss[i - 1], st) && ss[i] == Do(ss[i - 1], st);
      StepKeepsInv(ss[i - 1], st);
    }
  }

  /**
   * In every interleaving: the sentinel enters the queue at most once and behind every accepted notice, dispatches
   * follow the order of acceptance, and all but the latest have called their whole snapshot. Once the thread is gone
   * every accepted notice has been dispatched exactly once, and every dispatch has called its whole snapshot in
   * order, repetitions included.
   */
  lemma EveryNoticeDelivered(ss: seq<State>, i: nat)
    requires Run(ss) && i < |ss|
    ensures forall k :: 0 <= k < |ss[i].shared.queue| && ss[i].shared.queue[k].StopNotice? ==> k == |ss[i].shared.queue| - 1
    ensures |ss[i].dispatched| <= |ss[i].accepted| && |ss[i].calls| == |ss[i].dispatched|
    ensures forall k :: 0 <= k < |ss[i].dispatched| ==> ss[i].dispatched[k].notice == ss[i].accepted[k]
    ensures forall k :: 0 <= k < |ss[i].dispatched| ==> ss[i].calls[k] <= ss[i].dispatched[k].snapshot
    ensures forall k :: 0 <= k < |ss[i].dispatched| - 1 ==> ss[i].calls[k] == ss[i].dispatched[k].snapshot
    ensures ss[i].thread.Exited? ==>
              && |ss[i].dispatched| == |ss[i].accepted|
              && forall k :: 0 <= k < |ss[i].dispatched| ==> ss[i].calls[k] == ss[i].dispatched[k].snapshot
  {
    RunKeepsInv(ss, i);
  }

  /** A dispatch takes the listeners registered at that moment; histories only grow, and calls only at their end. */
  lemma DispatchTakesSnapshot(s: State, s': State)
    requires Inv(s) && Next(s, s')
    ensures s.accepted <= s'.accepted && |s.calls| <= |s'.calls|
    ensures forall k :: 0 <= k < |s.calls| ==> s.calls[k] <= s'.calls[k]
    ensures forall k :: 0 <= k < |s.calls| - 1 ==> s.calls[k] == s'.calls[k]
    ensures s'.dispatched == s.dispatched ||
            exists n :: s.shared.queue != [] && s.shared.queue[0] == Accepted(n)
                        && s'.dispatched == s.dispatched + [Dispatch(n, ListenersOf(s.shared, n.noticeType))]
    ensures s.thread.Exited? ==> s'.accepted == s.accepted && s'.calls == s.calls
  {
    hide ListenersOf, AcceptedKept;
  }

  // ---------- stopping ends the thread ----------

  lemma ExtendRun(ss: seq<State>, st: Step) returns (ss': seq<State>)
    requires Run(ss) && Enabled(ss[|ss| - 1], st)
    ensures Run(ss') && ss <= ss' && ss'[|ss'| - 1] == Do(ss[|ss| - 1], st)
  {
    hide Enabled;
    ss' := ss + [Do(ss[|ss| - 1], st)];
    assert Next(ss[|ss| - 1], ss'[|ss'| - 1]);
    forall i | 0 <= i < |ss'| - 1 ensures Next(ss'[i], ss'[i + 1]) {
      if i < |ss| - 1 {
        assert Next(ss[i], ss[i + 1]);
      }
    }
  }

  /** The sentinel is in the queue, or has done its work. */
  ghost predicate Ending(s: State) {
    s.thread.Exited? || (s.shared.queue != [] && s.shared.queue[|s.shared.queue| - 1].StopNotice?)
  }

  function CallsLeft(t: Thread): nat {
    match t
    case Waiting => 0
    case Calling(_, snapshot, done) => if done < |snapshot| then 1 + |snapshot| - done else 1
    case Exited => 0
  }

  /** What the thread does next. */
  lemma ThreadStep(s: State) returns (st: Step)
    requires Ending(s) && !s.thread.Exited?
    ensures Enabled(s, st) && Ending(Do(s, st)) && Do(s, st).accepted == s.accepted
    ensures var s' := Do(s, st);
            |s'.shared.queue| < |s.shared.queue| || (s'.shared.queue == s.shared.queue && CallsLeft(s'.thread) < CallsLeft(s.thread))
  {
    hide ListenersOf;
    st := if s.thread.Waiting? then TakeStep else CallStep;
  }

  lemma {:induction false} ThreadEnds(ss: seq<State>) returns (ss': seq<State>)
    requires Run(ss) && Ending(ss[|ss| - 1])
    ensures Run(ss') && ss <= ss' && ss'[|ss'| - 1].thread.Exited? && ss'[|ss'| - 1].accepted == ss[|ss| - 1].accepted
    decreases |ss[|ss| - 1].shared.queue|, CallsLeft(ss[|ss| - 1].thread)
  {
    if ss[|ss| - 1].thread.Exited? {
      return ss;
    }
    hide Run, Ending, Enabled, Do, CallsLeft;
    var st := ThreadStep(ss[|ss| - 1]);
    var longer := ExtendRun(ss, st);
    ss' := ThreadEnds(longer);
  }

  /** From any state of any run in which it is open, a stop leads to the end of the thread, with all accepted notices dispatched. */
  lemma StopEndsThread(ss: seq<State>) returns (ss': seq<State>)
    requires Run(ss) && !ss[|ss| - 1].shared.closed
    ensures Run(ss') && ss <= ss' && ss'[|ss'| - 1].thread.Exited? && ss'[|ss'| - 1].accepted == ss[|ss| - 1].accepted
    ensures var (dispatched, accepted) := (ss'[|ss'| - 1].dispatched, ss[|ss| - 1].accepted);
            |dispatched| == |accepted| && forall k :: 0 <= k < |accepted| ==> dispatched[k].notice == accepted[k]
  {
    var s := ss[|ss| - 1];
    var closed := ExtendRun(ss, CloseStep);
    hide Run;
    var stopped := ExtendRun(closed, EnqueueStopStep);
    assert Ending(stopped[|stopped| - 1]);
    ss' := ThreadEnds(stopped);
    EveryNoticeDelivered(ss', |ss'| - 1);
  }
}
