/** The data-update status: committed transitions, one elected publisher, waiting threads. */
module Status {
  import opened Common

  datatype StateType = INITIALIZING | OK | INTERRUPTED | OFF

  datatype ErrorTrack = ErrorTrack(errorType: string, message: string)

  datatype State = State(stateType: StateType, since: real, error: Option<ErrorTrack>)

  type ListenerId = nat

  type ThreadId = nat

  /** A committed transition with the listeners registered when it was committed. */
  datatype Notification = Notification(state: State, listeners: seq<ListenerId>)

  /** Everything the lock protects. */
  datatype Shared = Shared(current: State, listeners: seq<ListenerId>, queue: seq<Notification>, publishing: bool)

  /** An interruption before the first success leaves the status at initializing. */
  function EffectiveType(before: StateType, after: StateType): StateType {
    if after == INTERRUPTED && before == INITIALIZING then INITIALIZING else after
  }

  /** Only a new type or an error makes a transition. */
  predicate Commits(sh: Shared, s: State) {
    EffectiveType(sh.current.stateType, s.stateType) != sh.current.stateType || s.error.Some?
  }

  function Committed(sh: Shared, s: State, now: real): State {
    var t := EffectiveType(sh.current.stateType, s.stateType);
    State(t, if t != sh.current.stateType then now else sh.current.since, s.error)
  }

  /** The locked part of `update_state`; the flag says whether the caller is elected to publish. */
  function Updated(sh: Shared, s: State, now: real): (Shared, bool) {
    if !Commits(sh, s) then (sh, false) else
      var state := Committed(sh, s, now);
      (Shared(state, sh.listeners, sh.queue + [Notification(state, sh.listeners)], true), !sh.publishing)
  }

  /** One round of the publishing loop, under the lock. */
  function Popped(sh: Shared): (Shared, Option<Notification>) {
    if sh.queue == [] then (sh.(publishing := false), None)
    else (sh.(queue := sh.queue[1..]), Some(sh.queue[0]))
  }

  /** A call into the provider while a publisher is at work. */
  datatype Action = Updating(s: State, now: real) | Adding(l: ListenerId) | Removing(l: ListenerId)

  function Acted(sh: Shared, a: Action): Shared {
    match a
    case Updating(s, now) => Updated(sh, s, now).0
    case Adding(l) => Subscribed(sh, l)
    case Removing(l) => Unsubscribed(sh, l)
  }

  function ActedAll(sh: Shared, acts: seq<Action>): Shared {
    if acts == [] then sh else Acted(ActedAll(sh, acts[..|acts| - 1]), acts[|acts| - 1])
  }

  function Total(during: seq<seq<Action>>): nat {
    if during == [] then 0 else |during[0]| + Total(during[1..])
  }

  lemma {:induction false} ActedAllGrows(sh: Shared, acts: seq<Action>)
    ensures |ActedAll(sh, acts).queue| <= |sh.queue| + |acts|
    ensures sh.queue <= ActedAll(sh, acts).queue
  {
    if acts != [] {
      ActedAllGrows(sh, acts[..|acts| - 1]);
    }
  }

  /** The publishing loop on values: the final state and the transitions told. */
  function Drained(sh: Shared, during: seq<seq<Action>>): (Shared, seq<Notification>)
    decreases Total(during) + |sh.queue|
  {
    if sh.queue == [] then (Published(sh), []) else
      var acts := if during == [] then [] else during[0];
      var next := ActedAll(sh.(queue := sh.queue[1..]), acts);
      ActedAllGrows(sh.(queue := sh.queue[1..]), acts);
      var (last, told) := Drained(next, if during == [] then [] else during[1..]);
      (last, [sh.queue[0]] + told)
  }

  function Flat(during: seq<seq<Action>>): seq<Action> {
    if during == [] then [] else during[0] + Flat(during[1..])
  }

  /** The actions that happen before the loop ends, which tells `n` transitions. */
  function Used(during: seq<seq<Action>>, n: nat): seq<Action> {
    Flat(if n < |during| then during[..n] else during)
  }

  lemma {:induction false} ActedAllConcat(sh: Shared, a: seq<Action>, b: seq<Action>)
    ensures ActedAll(sh, a + b) == ActedAll(ActedAll(sh, a), b)
  {
    if b == [] {
      assert a + b == a;
    } else {
      assert (a + b)[..|a + b| - 1] == a + b[..|b| - 1];
      ActedAllConcat(sh, a, b[..|b| - 1]);
    }
  }

  /** Taking the oldest transition first or last makes no difference to what actions do. */
  lemma {:induction false} PopFirst(sh: Shared, acts: seq<Action>)
    requires sh.queue != []
    ensures ActedAll(sh, acts).queue != []
    ensures ActedAll(sh.(queue := sh.queue[1..]), acts) == ActedAll(sh, acts).(queue := ActedAll(sh, acts).queue[1..])
    ensures ActedAll(sh, acts).queue[0] == sh.queue[0]
  {
    if acts != [] {
      PopFirst(sh, acts[..|acts| - 1]);
    }
  }

  /**
   * The loop tells exactly the transitions that were queued and those that are committed while it runs, in commit
   * order, and steps down with an empty queue in the state that the actions have made.
   */
  lemma {:induction false} DrainedTells(sh: Shared, during: seq<seq<Action>>)
    ensures var (last, told) := Drained(sh, during);
            var made := ActedAll(sh, Used(during, |told|));
            told == made.queue && last == Published(made)
    decreases Total(during) + |sh.queue|
  {
    if sh.queue == [] {
      assert during[..0] == [];
    } else {
      var acts, rest := if during == [] then [] else during[0], if during == [] then [] else during[1..];
      var popped := sh.(queue := sh.queue[1..]);
      var next := ActedAll(popped, acts);
      ActedAllGrows(popped, acts);
      DrainedTells(next, rest);
      var n := |Drained(next, rest).1|;
      UsedStep(during, n);
      ActedAllConcat(popped, acts, Used(rest, n));
      PopFirst(sh, acts + Used(rest, n));
      hide ActedAll, Used;
    }
  }

  lemma UsedStep(during: seq<seq<Action>>, n: nat)
    ensures Used(during, n + 1) == (if during == [] then [] else during[0]) + Used(if during == [] then [] else during[1..], n)
  {
    if during != [] && n + 1 < |during| {
      assert during[..n + 1][1..] == during[1..][..n];
    }
  }

  function Prepend(told: seq<Notification>, r: (Shared, seq<Notification>)): (Shared, seq<Notification>) {
    (r.0, told + r.1)
  }

  /** The end of the publishing loop. */
  function Published(sh: Shared): Shared {
    sh.(queue := [], publishing := false)
  }

  /** An update followed by its publishing, if the caller is elected. */
  function Reported(sh: Shared, s: State, now: real, during: seq<seq<Action>>): Shared {
    var (updated, publish) := Updated(sh, s, now);
    if publish then Drained(updated, during).0 else updated
  }

  class DataUpdateStatusProvider {
    var currentState: State
    var listeners: seq<ListenerId>
    var notificationQueue: seq<Notification>
    var isPublishing: bool

    function View(): Shared
      reads this
    {
      Shared(currentState, listeners, notificationQueue, isPublishing)
    }

    constructor (now: real)
      ensures View() == Shared(State(INITIALIZING, now, None), [], [], false)
    {
      currentState := State(INITIALIZING, now, None);
      listeners, notificationQueue, isPublishing := [], [], false;
    }

    method UpdateState(s: State, now: real) returns (publish: bool)
      modifies this
      ensures (View(), publish) == Updated(old(View()), s, now)
    {
      publish := false;
      var oldType, newType := currentState.stateType, s.stateType;
      if newType == INTERRUPTED && oldType == INITIALIZING {
        newType := INITIALIZING;
      }
      if newType != oldType || s.error.Some? {
        var since := if newType != oldType then now else currentState.since;
        currentState := State(newType, since, s.error);
        notificationQueue := notificationQueue + [Notification(currentState, listeners)];
        if !isPublishing {
          isPublishing := true;
          publish := true;
        }
      }
    }

    method PopNotification() returns (n: Option<Notification>)
      modifies this
      ensures (View(), n) == Popped(old(View()))
    {
      if notificationQueue == [] {
        isPublishing := false;
        return None;
      }
      n := Some(notificationQueue[0]);
      notificationQueue := notificationQueue[1..];
    }

    /** What a listener, or another thread, does while the publisher is calling; it is never elected itself. */
    method Act(a: Action)
      requires isPublishing
      modifies this
      ensures View() == Acted(old(View()), a) && isPublishing
    {
      match a {
        case Updating(s, now) => var elected := UpdateState(s, now);
        case Adding(l) => AddListener(l);
        case Removing(l) => RemoveListener(l);
      }
    }

    /** The publishing loop; `during[k]` is what happens to the provider while the k-th transition is being told. */
    method PublishPending(during: seq<seq<Action>>) returns (told: seq<Notification>)
      requires isPublishing
      modifies this
      ensures (View(), told) == Drained(old(View()), during)
    {
      told := [];
      var rest := during;
      assert [] + Drained(View(), rest).1 == Drained(View(), rest).1;
      while true
        invariant isPublishing && Prepend(told, Drained(View(), rest)) == Drained(old(View()), during)
        decreases Total(rest) + |notificationQueue|
      {
        ghost var before := View();
        var n := PopNotification();
        if n.None? {
          assert told + [] == told;
          return;
        }
        var acts := if rest == [] then [] else rest[0];
        ActAll(acts);
        ActedAllGrows(before.(queue := before.queue[1..]), acts);
        assert told + ([n.value] + Drained(View(), if rest == [] then [] else rest[1..]).1)
            == told + [n.value] + Drained(View(), if rest == [] then [] else rest[1..]).1;
        told := told + [n.value];
        rest := if rest == [] then [] else rest[1..];
      }
    }

    method ActAll(acts: seq<Action>)
      requires isPublishing
      modifies this
      ensures View() == ActedAll(old(View()), acts) && isPublishing
    {
      for i := 0 to |acts|
        invariant isPublishing && View() == ActedAll(old(View()), acts[..i])
      {
        assert acts[..i + 1][..i] == acts[..i];
        Act(acts[i]);
      }
      assert acts[..|acts|] == acts;
    }

    method AddListener(l: ListenerId)
      modifies this
      ensures View() == Subscribed(old(View()), l)
    {
      if l !in listeners {
        listeners := listeners + [l];
      }
    }

    method RemoveListener(l: ListenerId)
      modifies this
      ensures View() == Unsubscribed(old(View()), l)
    {
      listeners := RemoveFirst(listeners, l);
    }
  }

  function Subscribed(sh: Shared, l: ListenerId): Shared {
    if l in sh.listeners then sh else sh.(listeners := sh.listeners + [l])
  }

  function Unsubscribed(sh: Shared, l: ListenerId): Shared {
    sh.(listeners := RemoveFirst(sh.listeners, l))
  }

  // ---------- all threads together ----------

  /** A publishing thread: about to pop, or calling the listeners of one notification. */
  datatype Publisher = Popping | Calling(current: Notification, done: nat)

  datatype Delivery = Delivery(state: State, listener: ListenerId)

  /**
   * `publishers` are the threads inside the publishing loop; a listener called by one of them may itself call
   * `update_state`. `sleepers` wait for a usable state. `history` and `log` are the committed transitions and
   * the calls made; `finished` counts the transitions whose calls are all made.
   */
  datatype System = System(shared: Shared, publishers: map<ThreadId, Publisher>, sleepers: set<ThreadId>,
                           history: seq<Notification>, finished: nat, log: seq<Delivery>)

  datatype Step =
    | Update(t: ThreadId, s: State, now: real)
    | Pop(t: ThreadId)
    | Call(t: ThreadId)
    | Subscribe(l: ListenerId)
    | Unsubscribe(l: ListenerId)
    | Wait(t: ThreadId)
    | GiveUp(t: ThreadId)

  function Start(now: real): System {
    System(Shared(State(INITIALIZING, now, None), [], [], false), map[], {}, [], 0, [])
  }

  predicate Settled(t: StateType) {
    t == OK || t == OFF
  }

  /** Any thread may call in, be it from a listener that a publisher is calling; a publisher between calls does not. */
  predicate FreeToCall(y: System, t: ThreadId) {
    t !in y.sleepers && (t in y.publishers ==> y.publishers[t].Calling? && y.publishers[t].done < |y.publishers[t].current.listeners|)
  }

  predicate Enabled(y: System, st: Step) {
    match st
    case Update(t, _, _) => FreeToCall(y, t)
    case Pop(t) => t in y.publishers && y.publishers[t].Popping?
    case Call(t) => t in y.publishers && y.publishers[t].Calling? && t !in y.sleepers
    case Subscribe(_) => true
    case Unsubscribe(_) => true
    case Wait(t) => FreeToCall(y, t)
    case GiveUp(t) => t in y.sleepers
  }

  function Do(y: System, st: Step): System
    requires Enabled(y, st)
  {
    match st
    case Update(t, s, now) =>
      var (shared, publish) := Updated(y.shared, s, now);
      if !Commits(y.shared, s) then y else
        y.(shared := shared, sleepers := {},
           history := y.history + [Notification(shared.current, shared.listeners)],
           publishers := if publish then y.publishers[t := Popping] else y.publishers)
    case Pop(t) =>
      var (shared, n) := Popped(y.shared);
      y.(shared := shared,
         publishers := if n.None? then y.publishers - {t} else y.publishers[t := Calling(n.value, 0)])
    case Call(t) =>
      var Calling(n, done) := y.publishers[t];
      // an exception in a listener is caught: it has been called all the same
      if done < |n.listeners|
      then y.(publishers := y.publishers[t := Calling(n, done + 1)], log := y.log + [Delivery(n.state, n.listeners[done])])
      else y.(publishers := y.publishers[t := Popping], finished := y.finished + 1)
    case Subscribe(l) => y.(shared := Subscribed(y.shared, l))
    case Unsubscribe(l) => y.(shared := Unsubscribed(y.shared, l))
    // under the lock: a thread that finds a settled state returns, any other falls asleep
    case Wait(t) => if Settled(y.shared.current.stateType) then y else y.(sleepers := y.sleepers + {t})
    case GiveUp(t) => y.(sleepers := y.sleepers - {t})
  }

  ghost predicate Next(y: System, y': System) {
    exists st :: Enabled(y, st) && y' == Do(y, st)
  }

  ghost predicate Run(ys: seq<System>) {
    && |ys| > 0 && ys[0] == Start(ys[0].shared.current.since)
    && forall i :: 0 <= i < |ys| - 1 ==> Next(ys[i], ys[i + 1])
  }

  // ---------- the publishing invariant ----------

  function DeliveriesTo(n: Notification): (ds: seq<Delivery>)
    ensures |ds| == |n.listeners| && forall i :: 0 <= i < |ds| ==> ds[i] == Delivery(n.state, n.listeners[i])
  {
    seq(|n.listeners|, i requires 0 <= i < |n.listeners| => Delivery(n.state, n.listeners[i]))
  }

  /** All calls for a list of transitions, one transition after the other. */
  function Deliveries(ns: seq<Notification>): seq<Delivery> {
    if ns == [] then [] else Deliveries(ns[..|ns| - 1]) + DeliveriesTo(ns[|ns| - 1])
  }

  /** There is a publisher exactly while the flag is set, never two, and a queued transition has one. */
  ghost predicate OnePublisher(y: System) {
    && (forall t, t' :: t in y.publishers && t' in y.publishers ==> t == t')
    && (y.shared.publishing <==> y.publishers != map[])
    && (y.shared.queue != [] ==> y.shared.publishing)
  }

  /** The transition being delivered, if any, and how far. */
  ghost predicate InOrder(y: System) {
    && y.finished <= |y.history|
    && (forall t :: t in y.publishers && y.publishers[t].Calling? ==>
          && y.publishers[t].done <= |y.publishers[t].current.listeners|
          && y.finished < |y.history| && y.history[y.finished] == y.publishers[t].current
          && y.shared.queue == y.history[y.finished + 1..]
          && y.log == Deliveries(y.history[..y.finished]) + DeliveriesTo(y.publishers[t].current)[..y.publishers[t].done])
    && ((forall t :: t in y.publishers ==> y.publishers[t].Popping?) ==>
          y.shared.queue == y.history[y.finished..] && y.log == Deliveries(y.history[..y.finished]))
  }

  /** Nobody sleeps while the state is settled. */
  ghost predicate NoLostWakeup(y: System) {
    y.sleepers != {} ==> !Settled(y.shared.current.stateType)
  }

  ghost predicate Inv(y: System) {
    OnePublisher(y) && InOrder(y) && NoLostWakeup(y)
  }

  lemma UpdateKeepsInv(y: System, t: ThreadId, s: State, now: real)
    requires Inv(y) && Enabled(y, Update(t, s, now))
    ensures Inv(Do(y, Update(t, s, now)))
  {
    var y' := Do(y, Update(t, s, now));
    if y' != y {
      var n := y'.history[|y.history|];
      assert y'.history == y.history + [n];
      assert y'.history[..y.finished] == y.history[..y.finished];
      if t' :| t' in y.publishers {
        assert y.shared.publishing;
        assert y'.publishers == y.publishers;
      } else {
        assert y.publishers == map[];
      }
    }
  }

  lemma PopKeepsInv(y: System, t: ThreadId)
    requires Inv(y) && Enabled(y, Pop(t))
    ensures Inv(Do(y, Pop(t)))
  {
    var y' := Do(y, Pop(t));
    assert forall t' :: t' in y.publishers ==> t' == t;
    if y.shared.queue != [] {
      assert y'.publishers.Keys == {t};
      assert DeliveriesTo(y.shared.queue[0])[..0] == [];
    } else {
      assert y'.publishers == map[];
    }
  }

  lemma CallKeepsInv(y: System, t: ThreadId)
    requires Inv(y) && Enabled(y, Call(t))
    ensures Inv(Do(y, Call(t)))
  {
    var y' := Do(y, Call(t));
    var Calling(n, done) := y.publishers[t];
    assert forall t' :: t' in y.publishers ==> t' == t;
    var all := DeliveriesTo(n);
    if done < |n.listeners| {
      assert all[..done + 1] == all[..done] + [all[done]];
    } else {
      assert all[..done] == all;
      assert y.history[..y.finished + 1][..y.finished] == y.history[..y.finished];
    }
  }

  lemma StepKeepsInv(y: System, st: Step)
    requires Inv(y) && Enabled(y, st)
    ensures Inv(Do(y, st))
  {
    match st {
      case Update(t, s, now) => UpdateKeepsInv(y, t, s, now);
      case Pop(t) => PopKeepsInv(y, t);
      case Call(t) => CallKeepsInv(y, t);
      case _ =>
    }
  }

  lemma {:induction false} RunKeepsInv(ys: seq<System>, i: nat)
    requires Run(ys) && i < |ys|
    ensures Inv(ys[i])
  {
    if i > 0 {
      RunKeepsInv(ys, i - 1);
      assert Next(ys[i - 1], ys[i]);
      hide Inv, Enabled;
      var st :| Enabled(ys[i - 1], st) && ys[i] == Do(ys[i - 1], st);
      StepKeepsInv(ys[i - 1], st);
    }
  }

  /**
   * With any number of updating threads and of listeners that update again: one publisher at most, a queued
   * transition always has one, and the calls made are, in commit order, those of the finished transitions
   * followed by a first part of the current one. When nobody publishes, every committed transition has
   * reached each listener of its snapshot exactly once.
   */
  lemma TransitionsDelivered(ys: seq<System>, i: nat)
    requires Run(ys) && i < |ys|
    ensures forall t, t' :: t in ys[i].publishers && t' in ys[i].publishers ==> t == t'
    ensures ys[i].shared.queue != [] ==> ys[i].publishers != map[]
    ensures ys[i].finished <= |ys[i].history| && Deliveries(ys[i].history[..ys[i].finished]) <= ys[i].log
    ensures forall t :: t in ys[i].publishers && ys[i].publishers[t].Calling? ==>
              var (y, Calling(current, done)) := (ys[i], ys[i].publishers[t]);
              && done <= |current.listeners|
              && y.history == y.history[..y.finished] + [current] + y.shared.queue
              && y.log == Deliveries(y.history[..y.finished]) + DeliveriesTo(current)[..done]
    ensures forall t :: t in ys[i].publishers && ys[i].publishers[t].Popping? ==>
              && ys[i].history == ys[i].history[..ys[i].finished] + ys[i].shared.queue
              && ys[i].log == Deliveries(ys[i].history[..ys[i].finished])
    ensures ys[i].publishers == map[] ==> ys[i].log == Deliveries(ys[i].history)
  {
    RunKeepsInv(ys, i);
    hide Run, Deliveries;
    var y := ys[i];
    forall t | t in y.publishers && y.publishers[t].Calling?
      ensures y.history == y.history[..y.finished] + [y.publishers[t].current] + y.shared.queue
    {
      assert y.history[y.finished..] == [y.history[y.finished]] + y.history[y.finished + 1..];
    }
    if y.publishers == map[] {
      assert y.history[..y.finished] == y.history;
    }
  }

  /** Waiting for a usable state cannot miss it: whoever sleeps does so while the state is neither OK nor OFF. */
  lemma SleepersAreRight(ys: seq<System>, i: nat)
    requires Run(ys) && i < |ys| && ys[i].sleepers != {}
    ensures ys[i].shared.current.stateType in {INITIALIZING, INTERRUPTED}
  {
    RunKeepsInv(ys, i);
  }

  /** A thread that waits falls asleep exactly while the state is neither OK nor OFF. */
  lemma WaitsExactly(y: System, t: ThreadId)
    requires Enabled(y, Wait(t))
    ensures t in Do(y, Wait(t)).sleepers <==> y.shared.current.stateType in {INITIALIZING, INTERRUPTED}
    ensures Do(y, Wait(t)).shared == y.shared
  {
  }

  /** Every transition wakes all sleepers, which look at the new state. */
  lemma TransitionWakes(y: System, t: ThreadId, s: State, now: real)
    requires Enabled(y, Update(t, s, now)) && Do(y, Update(t, s, now)).history != y.history
    ensures Do(y, Update(t, s, now)).sleepers == {}
  {
  }

  /** Listeners form a set: subscribing twice is subscribing once, and unsubscribing takes away the one subscription. */
  lemma SubscriptionsAreASet(sh: Shared, l: ListenerId)
    requires NoDuplicates(sh.listeners)
    ensures NoDuplicates(Subscribed(sh, l).listeners) && NoDuplicates(Unsubscribed(sh, l).listeners)
    ensures forall k :: k in Subscribed(sh, l).listeners <==> k in sh.listeners || k == l
    ensures forall k :: k in Unsubscribed(sh, l).listeners <==> k in sh.listeners && k != l
  {
    RemoveFirstOfSet(sh.listeners, l);
  }

  lemma {:induction false} RemoveFirstOfSet(xs: seq<ListenerId>, x: ListenerId)
    requires NoDuplicates(xs)
    ensures NoDuplicates(RemoveFirst(xs, x)) && forall y :: y in RemoveFirst(xs, x) <==> y in xs && y != x
  {
    if xs != [] {
      RemoveFirstOfSet(xs[1..], x);
      var rest := RemoveFirst(xs[1..], x);
      assert xs[0] !in xs[1..];
      if xs[0] != x {
        assert xs[0] !in rest && RemoveFirst(xs, x) == [xs[0]] + rest;
      }
    }
  }

  // ---------- the transitions themselves ----------

  /**
   * An update with a new type, or with an error, is a transition: to the requested type, except that an
   * interruption leaves an initialization as it is; since the time of the update if that is a new type, and else
   * since when it was; with the error of the update. It is queued for the listeners of the moment. Any other update
   * changes nothing.
   */
  lemma UpdateTransition(sh: Shared, s: State, now: real)
    ensures var (r, publish) := Updated(sh, s, now);
            var kept := s.stateType == sh.current.stateType || (s.stateType == INTERRUPTED && sh.current.stateType == INITIALIZING);
            && (kept && s.error == None ==> r == sh && !publish)
            && (!kept || s.error != None ==>
                  && r.current.stateType == (if kept then sh.current.stateType else s.stateType)
                  && r.current.since == (if kept then sh.current.since else now)
                  && r.current.error == s.error
                  && r.queue == sh.queue + [Notification(r.current, sh.listeners)]
                  && r.listeners == sh.listeners && r.publishing && (publish <==> !sh.publishing))
  {
  }

  /** The committed transitions, from a starting state: an interruption is only ever reported after OK or OFF. */
  ghost predicate Legal(start: State, history: seq<Notification>, current: State)
    decreases |history|
  {
    if history == [] then current == start else
      var last := history[|history| - 1].state;
      var before := history[..|history| - 1];
      && current == last
      && exists previous ::
           && Legal(start, before, previous)
           && (last.stateType == INTERRUPTED ==> previous.stateType != INITIALIZING)
           && (last.stateType == previous.stateType ==> last.since == previous.since && last.error.Some?)
  }

  lemma {:induction false} HistoryLegal(ys: seq<System>, i: nat)
    requires Run(ys) && i < |ys|
    ensures Legal(ys[0].shared.current, ys[i].history, ys[i].shared.current)
  {
    if i > 0 {
      hide Legal, Enabled;
      HistoryLegal(ys, i - 1);
      assert Next(ys[i - 1], ys[i]);
      var st :| Enabled(ys[i - 1], st) && ys[i] == Do(ys[i - 1], st);
      StepLegal(ys[0].shared.current, ys[i - 1], st);
    } else {
      hide Enabled;
    }
  }

  lemma StepLegal(start: State, y: System, st: Step)
    requires Enabled(y, st) && Legal(start, y.history, y.shared.current)
    ensures Legal(start, Do(y, st).history, Do(y, st).shared.current)
  {
    hide Legal;
    if st.Update? && Commits(y.shared, st.s) {
      LegalAppend(start, y.history, y.shared.current, Notification(Do(y, st).shared.current, Do(y, st).shared.listeners));
    }
  }

  lemma LegalAppend(start: State, history: seq<Notification>, previous: State, n: Notification)
    requires Legal(start, history, previous)
    requires n.state.stateType == INTERRUPTED ==> previous.stateType != INITIALIZING
    requires n.state.stateType == previous.stateType ==> n.state.since == previous.since && n.state.error.Some?
    ensures Legal(start, history + [n], n.state)
  {
    assert (history + [n])[..|history|] == history;
  }

  /** In particular no listener hears of an interruption before a success or a shutdown. */
  lemma {:induction false} InterruptionNeedsSettling(start: State, history: seq<Notification>, current: State, k: nat)
    requires Legal(start, history, current) && start.stateType == INITIALIZING
    requires k < |history| && history[k].state.stateType == INTERRUPTED
    ensures exists j :: 0 <= j < k && Settled(history[j].state.stateType)
    decreases |history|
  {
    var last, before := history[|history| - 1].state, history[..|history| - 1];
    var previous :| Legal(start, before, previous)
      && (last.stateType == INTERRUPTED ==> previous.stateType != INITIALIZING)
      && (last.stateType == previous.stateType ==> last.since == previous.since && last.error.Some?);
    if k < |before| {
      InterruptionNeedsSettling(start, before, previous, k);
      var j :| 0 <= j < k && Settled(before[j].state.stateType);
      assert Settled(history[j].state.stateType);
    } else if before != [] {
      var b := before[|before| - 1].state;
      assert history[|before| - 1].state == b == previous;
      if b.stateType == INTERRUPTED {
        InterruptionNeedsSettling(start, before, previous, |before| - 1);
        var j :| 0 <= j < |before| - 1 && Settled(before[j].state.stateType);
        assert Settled(history[j].state.stateType);
      }
    }
  }

  // ---------- publishing comes to an end ----------

  lemma ExtendRun(ys: seq<System>, st: Step) returns (ys': seq<System>)
    requires Run(ys) && Enabled(ys[|ys| - 1], st)
    ensures Run(ys') && ys <= ys' && ys'[|ys'| - 1] == Do(ys[|ys| - 1], st)
  {
    hide Enabled;
    ys' := ys + [Do(ys[|ys| - 1], st)];
    assert Next(ys[|ys| - 1], ys'[|ys'| - 1]);
    forall i | 0 <= i < |ys'| - 1 ensures Next(ys'[i], ys'[i + 1]) {
      if i < |ys| - 1 {
        assert Next(ys[i], ys[i + 1]);
      }
    }
  }

  /** What a publisher has still to do for the transition that it is telling. */
  function CallsLeft(p: Publisher): nat {
    match p
    case Popping => 0
    case Calling(n, done) => if done < |n.listeners| then 1 + |n.listeners| - done else 1
  }

  /** What the one publisher `t` does next. */
  function NextOf(y: System, t: ThreadId): Step
    requires t in y.publishers
  {
    if y.publishers[t].Popping? then Pop(t) else Call(t)
  }

  lemma PublisherStep(y: System, t: ThreadId)
    requires OnePublisher(y) && t in y.publishers && t !in y.sleepers
    ensures Enabled(y, NextOf(y, t)) && Do(y, NextOf(y, t)).history == y.history && Do(y, NextOf(y, t)).sleepers == y.sleepers
    ensures var y' := Do(y, NextOf(y, t));
            if t in y'.publishers
            then |y'.shared.queue| < |y.shared.queue|
                 || (y'.shared.queue == y.shared.queue && CallsLeft(y'.publishers[t]) < CallsLeft(y.publishers[t]))
            else y'.publishers == map[]
  {
  }

  /** When no more updates come and its listeners return, the publisher tells all that is queued and steps down. */
  lemma {:induction false} PublisherEnds(ys: seq<System>, t: ThreadId) returns (ys': seq<System>)
    requires Run(ys) && t in ys[|ys| - 1].publishers && t !in ys[|ys| - 1].sleepers
    ensures Run(ys') && ys <= ys' && ys'[|ys'| - 1].publishers == map[] && ys'[|ys'| - 1].history == ys[|ys| - 1].history
    ensures ys'[|ys'| - 1].log == Deliveries(ys[|ys| - 1].history)
    decreases |ys[|ys| - 1].shared.queue|, CallsLeft(ys[|ys| - 1].publishers[t])
  {
    var y := ys[|ys| - 1];
    RunKeepsInv(ys, |ys| - 1);
    PublisherStep(y, t);
    hide Run, Enabled, Do, NextOf, CallsLeft, OnePublisher, InOrder, NoLostWakeup, Deliveries;
    ys' := ExtendRun(ys, NextOf(y, t));
    if t in ys'[|ys'| - 1].publishers {
      ys' := PublisherEnds(ys', t);
    } else {
      TransitionsDelivered(ys', |ys'| - 1);
    }
  }
}
