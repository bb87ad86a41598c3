/** Handing the process-global WebSocket timeout from client to client. */
module WebSocketTimeout {
  import opened Common

  type ClientId = nat

  /** A timeout setting; `None` means none. */
  type Timeout = Option<real>

  /**
   * Where a streaming thread is: before a connection attempt, holding the process lock, about to set the
   * timeout, in its attempt, or inside a call of the restoring method. `last` marks the call in the `finally`
   * block, after which the thread goes on to its next attempt.
   */
  datatype Pc =
    | Ready
    | Acquired
    | Configuring
    | Attempting
    | Restoring(previous: Timeout, last: bool)
    | Releasing(last: bool)

  /** One client: its configured timeout, and the fields guarded by its own state lock. */
  datatype Client = Client(timeout: Timeout, pc: Pc, lockHeld: bool, previous: Timeout)

  /**
   * The process lock, the global setting with its value at the start, and histories: the numbers of acquisitions
   * and releases, and how often the library refused to put a setting back. `kept` is the setting that was in effect
   * at the last refusal, or else the original one.
   */
  datatype State = State(lock: Option<ClientId>, setting: Timeout, original: Timeout, clients: map<ClientId, Client>,
                         acquired: nat, released: nat, refusals: nat, kept: Timeout)

  datatype Step =
    | NewClient(c: ClientId, timeout: Timeout)
    | TryAcquire(c: ClientId)
    | Remember(c: ClientId)
    | Configure(c: ClientId, raises: bool)
    | Restore(c: ClientId, last: bool)
    | PutBack(c: ClientId, refuses: bool)
    | Release(c: ClientId)

  predicate Enabled(s: State, st: Step) {
    if st.NewClient? then st.c !in s.clients else
      && st.c in s.clients
      && var pc := s.clients[st.c].pc;
         match st
         case NewClient(_, _) => true
         case TryAcquire(_) => pc.Ready?
         case Remember(_) => pc.Acquired?
         case Configure(_, _) => pc.Configuring?
         // called on open, on close, on error, after the attempt and finally: any number of times
         case Restore(_, _) => pc.Attempting?
         case PutBack(_, _) => pc.Restoring?
         case Release(_) => pc.Releasing?
  }

  function Do(s: State, st: Step): State
    requires Enabled(s, st)
  {
    if st.NewClient? then s.(clients := s.clients[st.c := Client(st.timeout, Ready, false, None)]) else
      var k := s.clients[st.c];
      match st
      case NewClient(_, _) => s
      case TryAcquire(c) =>
        // never blocks: without the lock the attempt uses the setting in effect
        if s.lock.None? then s.(lock := Some(c), acquired := s.acquired + 1, clients := s.clients[c := k.(pc := Acquired)])
        else s.(clients := s.clients[c := k.(pc := Attempting)])
      case Remember(c) =>
        s.(clients := s.clients[c := k.(pc := Configuring, lockHeld := true, previous := s.setting)])
      case Configure(c, raises) =>
        s.(setting := if raises then s.setting else k.timeout, clients := s.clients[c := k.(pc := Attempting)])
      case Restore(c, last) =>
        if !k.lockHeld then s.(clients := s.clients[c := k.(pc := if last then Ready else Attempting)])
        else s.(clients := s.clients[c := k.(pc := Restoring(k.previous, last), lockHeld := false, previous := None)])
      case PutBack(c, refuses) =>
        // a refusal raises, but the lock is released all the same
        s.(setting := if refuses then s.setting else k.pc.previous, clients := s.clients[c := k.(pc := Releasing(k.pc.last))],
           refusals := if refuses then s.refusals + 1 else s.refusals, kept := if refuses then s.setting else s.kept)
      case Release(c) =>
        s.(lock := None, released := s.released + 1,
           clients := s.clients[c := k.(pc := if k.pc.last then Ready else Attempting)])
  }

  // ---------- the two methods of a streaming client ----------

  /** What the process shares: the lock and the default timeout of the WebSocket library. */
  class ProcessTimeout {
    var locked: bool
    var setting: Timeout

    constructor (setting: Timeout)
      ensures !locked && this.setting == setting
    {
      this.locked, this.setting := false, setting;
    }
  }

  /** The timeout fields of one streaming client, each method run without interruption. */
  class ConnectionTimeout {
    const process: ProcessTimeout
    const timeout: Timeout
    var lockHeld: bool
    var previous: Timeout

    constructor (process: ProcessTimeout, timeout: Timeout)
      ensures this.process == process && this.timeout == timeout && !lockHeld && previous == None
    {
      this.process, this.timeout := process, timeout;
      lockHeld, previous := false, None;
    }

    /** The objects agree with a state of the whole system in which the client is at `pc`. */
    ghost predicate Shows(s: State, c: ClientId, pc: Pc)
      reads this, process
    {
      && (s.lock.Some? <==> process.locked) && s.setting == process.setting
      && c in s.clients && s.clients[c] == Client(timeout, pc, lockHeld, previous)
    }

    /**
     * `raises`: the library refuses the configured timeout; the exception goes on to the caller. `refuses`: it
     * then refuses its earlier setting, too.
     */
    method Prepare(raises: bool, refuses: bool)
      modifies this, process
      ensures forall s: State, c: ClientId :: old(Shows(s, c, Ready)) ==> Shows(Prepared(s, c, raises, refuses), c, Attempting)
    {
      if !process.locked {
        process.locked := true;
        lockHeld, previous := true, process.setting;
        if raises {
          Restore(refuses);
        } else {
          process.setting := timeout;
        }
      }
    }

    method Restore(refuses: bool)
      modifies this, process
      ensures forall s: State, c: ClientId, last: bool :: old(Shows(s, c, Attempting)) ==>
                Shows(Restored(s, c, last, refuses), c, if last then Ready else Attempting)
      ensures !lockHeld
      ensures old(lockHeld) ==>
                && process.setting == (if refuses then old(process.setting) else old(previous))
                && !process.locked && previous == None
      ensures !old(lockHeld) ==> process.setting == old(process.setting) && process.locked == old(process.locked) && previous == old(previous)
    {
      if !lockHeld {
        return;
      }
      var previousTimeout := previous;
      previous := None;
      lockHeld := false;
      if !refuses {
        process.setting := previousTimeout;
      }
      process.locked := false;
    }
  }

  /** `prepare`, access by access. */
  function Prepared(s: State, c: ClientId, raises: bool, refuses: bool): State
    requires c in s.clients && s.clients[c].pc == Ready
  {
    var tried := Do(s, TryAcquire(c));
    if s.lock.Some? then tried else
      var configured := Do(Do(tried, Remember(c)), Configure(c, raises));
      if raises then Restored(configured, c, false, refuses) else configured
  }

  /** `restore`, access by access. */
  function Restored(s: State, c: ClientId, last: bool, refuses: bool): State
    requires c in s.clients && s.clients[c].pc == Attempting
  {
    var entered := Do(s, Restore(c, last));
    if s.clients[c].lockHeld then Do(Do(entered, PutBack(c, refuses)), Release(c)) else entered
  }

  function Start(original: Timeout): State {
    State(None, original, original, map[], 0, 0, 0, original)
  }

  ghost predicate Next(s: State, s': State) {
    exists st :: Enabled(s, st) && s' == Do(s, st)
  }

  ghost predicate Run(ss: seq<State>) {
    |ss| > 0 && ss[0] == Start(ss[0].original) && forall i :: 0 <= i < |ss| - 1 ==> Next(ss[i], ss[i + 1])
  }

  /** The client has acquired the lock and not yet released it. */
  predicate Owns(k: Client) {
    k.lockHeld || k.pc.Acquired? || k.pc.Restoring? || k.pc.Releasing?
  }

  /** What an owner keeps so that it can put the setting back that it found. */
  ghost predicate OwnerKeeps(s: State, k: Client) {
    && (k.pc.Acquired? || k.pc.Configuring? || k.pc.Releasing? ==> s.setting == s.kept)
    && (k.lockHeld ==> k.previous == s.kept && (k.pc.Configuring? || k.pc.Attempting?))
    && (k.pc.Restoring? ==> k.pc.previous == s.kept)
  }

  ghost predicate Inv(s: State) {
    && (forall c :: c in s.clients && Owns(s.clients[c]) <==> s.lock == Some(c))
    && (forall c :: c in s.clients && Owns(s.clients[c]) ==> OwnerKeeps(s, s.clients[c]))
    && (forall c :: c in s.clients && s.clients[c].pc.Configuring? ==> s.clients[c].lockHeld)
    && (s.lock.None? ==> s.setting == s.kept)
    && (s.refusals == 0 ==> s.kept == s.original)
    && s.acquired == s.released + (if s.lock.None? then 0 else 1)
  }

  lemma StepKeepsInv(s: State, st: Step)
    requires Inv(s) && Enabled(s, st)
    ensures Inv(Do(s, st))
  {
  }

  lemma {:induction false} RunKeepsInv(ss: seq<State>, i: nat)
    requires Run(ss) && i < |ss|
    ensures Inv(ss[i]) && ss[i].original == ss[0].original
  {
    if i > 0 {
      RunKeepsInv(ss, i - 1);
      assert Next(ss[i - 1], ss[i]);
      var st :| Enabled(ss[i - 1], st) && ss[i] == Do(ss[i - 1], st);
      StepKeepsInv(ss[i - 1], st);
    }
  }

  /**
   * With any number of clients, in every interleaving of their single accesses: at most one owns the setting,
   * acquisitions and releases match, and whenever the lock is free the setting is the one kept: the original one,
   * unless the library has refused to put a setting back. In particular a client between two attempts owns nothing,
   * however often it called the restoring method.
   */
  lemma TimeoutHandedBack(ss: seq<State>, i: nat)
    requires Run(ss) && i < |ss|
    ensures ss[i].lock.None? ==> ss[i].setting == ss[i].kept && ss[i].acquired == ss[i].released
    ensures ss[i].refusals == 0 ==> ss[i].kept == ss[0].original
    ensures ss[i].lock.Some? ==> ss[i].acquired == ss[i].released + 1
    ensures forall c, c' :: c in ss[i].clients && c' in ss[i].clients && Owns(ss[i].clients[c]) && Owns(ss[i].clients[c']) ==> c == c'
    ensures (forall c :: c in ss[i].clients ==> ss[i].clients[c].pc.Ready?) ==> ss[i].lock.None? && ss[i].setting == ss[i].kept
  {
    RunKeepsInv(ss, i);
  }

  /** What is kept changes at a refusal only, to the setting that stays in effect; later owners put that one back. */
  lemma RefusalKeeps(s: State, s': State)
    requires Next(s, s')
    ensures s'.refusals == s.refusals ==> s'.kept == s.kept
    ensures s'.refusals != s.refusals ==> s'.refusals == s.refusals + 1 && s'.kept == s.setting == s'.setting
  {
  }

  lemma ExtendRun(ss: seq<State>, st: Step) returns (ss': seq<State>)
    requires Run(ss) && Enabled(ss[|ss| - 1], st)
    ensures Run(ss') && ss'[|ss'| - 1] == Do(ss[|ss| - 1], st) && ss'[0] == ss[0]
  {
    hide Enabled;
    ss' := ss + [Do(ss[|ss| - 1], st)];
    assert Next(ss[|ss| - 1], ss'[|ss'| - 1]);
    forall i | 0 <= i < |ss'| - 1 ensures Next(ss'[i], ss'[i + 1]) {
      if i < |ss| - 1 {
        assert Next(ss[i], ss[i + 1]);
      }
    }
  }

  /** One refusal leaves the timeout of a client in effect for all, with nobody holding the lock. */
  lemma RefusedPutBack(original: Timeout, timeout: Timeout) returns (ss: seq<State>)
    ensures Run(ss) && ss[0].original == original
    ensures var s := ss[|ss| - 1]; s.lock.None? && s.refusals == 1 && s.setting == timeout && forall c :: c in s.clients ==> s.clients[c].pc.Ready?
  {
    ss := ExtendRun([Start(original)], NewClient(0, timeout));
    hide Run;
    ss := ExtendRun(ss, TryAcquire(0));
    ss := ExtendRun(ss, Remember(0));
    ss := ExtendRun(ss, Configure(0, false));
    ss := ExtendRun(ss, Restore(0, true));
    ss := ExtendRun(ss, PutBack(0, true));
    ss := ExtendRun(ss, Release(0));
  }
}
