/**
 The SSH server's life cycle: Serve, HandleConn, Close and Shutdown interleaved at
 the granularity of the server mutex. `Core` holds the fields of the Server struct
 (the Server class refines the functions on it); `State` adds the activations in flight.
 */
module Lifecycle {
  import opened Common

  type Listener = nat
  type Chan = nat        // identity of a done channel
  type ServeId = nat     // one activation of Serve
  type HandleId = nat    // one activation of HandleConn, and the connection it makes
  type ShutdownId = nat  // one call of Shutdown

  // ---------------------------------------------------------------- Server fields

  datatype Core = Core(
    listeners: set<Listener>,
    conns: set<HandleId>,
    listenerWg: int,
    connWg: int,
    doneChan: Option<Chan>,
    nextChan: nat,                  // channels below this number have been made
    closes: seq<Chan>,              // every close(ch) executed, in order
    closedListeners: set<Listener>,
    closedConns: set<HandleId>)
  {
    predicate DoneClosed() { doneChan.Some? && doneChan.value in closes }

    function EnsureDone(): Core {
      if doneChan.Some? then this
      else this.(doneChan := Some(nextChan), nextChan := nextChan + 1)
    }

    function CloseDone(): Core {
      var c := EnsureDone();
      if c.doneChan.value in c.closes then c else c.(closes := c.closes + [c.doneChan.value])
    }

    function CloseListeners(): Core {
      this.(listeners := {}, closedListeners := closedListeners + listeners)
    }

    function Close(): Core {
      var c := CloseDone().CloseListeners();
      c.(conns := {}, closedConns := c.closedConns + c.conns)
    }

    function Shutdown(): Core { CloseListeners().CloseDone() }

    /** The done channel is dropped when a listener joins an empty server. */
    predicate Resets() { listeners == {} && conns == {} }

    function AddListener(ln: Listener): Core {
      this.(doneChan := if Resets() then None else doneChan,
            listeners := listeners + {ln},
            listenerWg := listenerWg + 1)
    }

    function RemoveListener(ln: Listener): Core {
      this.(listeners := listeners - {ln}, listenerWg := listenerWg - 1)
    }

    function AddConn(c: HandleId): Core {
      this.(conns := conns + {c}, connWg := connWg + 1)
    }

    function RemoveConn(c: HandleId): Core {
      this.(conns := conns - {c}, connWg := connWg - 1)
    }
  }

  const EMPTY_CORE := Core({}, {}, 0, 0, None, 0, [], {}, {})

  // ---------------------------------------------------------------- activations

  datatype ServeError = ErrServerClosed | AcceptError

  datatype ServePhase =
    | Accepting(delay: nat)
    | AcceptFailed(temporary: bool, delay: nat)       // about to call getDoneChan
    | Polling(ch: Chan, temporary: bool, delay: nat)  // about to test the channel it got
    | Returning(err: ServeError)                      // deferred trackListener(l, false) to come
    | Closing(err: ServeError)                        // deferred l.Close() to come
    | Returned(err: ServeError)
  {
    predicate Tracked() { !Closing? && !Returned? }
  }

  datatype Serve = Serve(listener: Listener, phase: ServePhase)

  datatype HandlePhase = Handshaking | Ready | Tracked | Finished

  datatype ShutdownPhase = WaitListeners | WaitConns | Done

  /** A Shutdown call remembers, for the statements only, what was tracked when it ran. */
  datatype Shutdown = Shutdown(phase: ShutdownPhase, serves: set<ServeId>, handles: set<HandleId>)

  datatype State = State(
    core: Core,
    serves: map<ServeId, Serve>,
    handles: map<HandleId, HandlePhase>,
    shutdowns: map<ShutdownId, Shutdown>)
  {
    function TrackedServes(): set<ServeId> {
      set s | s in serves && serves[s].phase.Tracked()
    }

    function TrackedHandles(): set<HandleId> {
      set h | h in handles && handles[h].Tracked?
    }

    /** Listeners that a Serve has untracked and is about to close. */
    function ClosingListeners(): set<Listener> {
      set s | s in serves && serves[s].phase.Closing? :: serves[s].listener
    }

    function WithPhase(s: ServeId, p: ServePhase): State
      requires s in serves
    {
      this.(serves := serves[s := serves[s].(phase := p)])
    }
  }

  const INIT := State(EMPTY_CORE, map[], map[], map[])

  /** Serve's back-off in milliseconds after one more temporary Accept error. */
  function NextDelay(d: nat): nat {
    var e := if d == 0 then 5 else 2 * d;
    if e > 1000 then 1000 else e
  }

  function Backoff(failures: nat): nat {
    if failures == 0 then 0 else NextDelay(Backoff(failures - 1))
  }

  function Pow2(n: nat): nat { if n == 0 then 1 else 2 * Pow2(n - 1) }

  /** 5 ms doubled at each temporary failure, never above one second. */
  lemma {:induction false} BackoffDoublesUpToOneSecond(failures: nat)
    requires failures > 0
    ensures Backoff(failures) == if 5 * Pow2(failures - 1) > 1000 then 1000 else 5 * Pow2(failures - 1)
  {
    if failures > 1 {
      BackoffDoublesUpToOneSecond(failures - 1);
    }
  }

  // ---------------------------------------------------------------- steps

  datatype Step =
    | StartServe(s: ServeId, ln: Listener)     // trackListener(l, true)
    | Accept(s: ServeId, h: HandleId)          // go srv.HandleConn(conn)
    | FailAccept(s: ServeId, temporary: bool)
    | FetchDone(s: ServeId)                    // getDoneChan()
    | PollDone(s: ServeId)                     // the select on the channel it returned
    | UntrackListener(s: ServeId)              // deferred trackListener(l, false)
    | CloseListener(s: ServeId)                // deferred l.Close()
    | StartConn(h: HandleId)                   // HandleConn called directly
    | Handshake(h: HandleId, ok: bool)
    | TrackConn(h: HandleId)
    | UntrackConn(h: HandleId)
    | CloseServer
    | ShutdownServer(d: ShutdownId)
    | WaitedListeners(d: ShutdownId)           // listenerWg.Wait() returned
    | WaitedConns(d: ShutdownId)               // connWg.Wait() returned, finished is sent

  predicate IsStop(e: Step) { e.CloseServer? || e.ShutdownServer? }

  predicate Enabled(t: State, e: Step) {
    match e
    case StartServe(s, _) => s !in t.serves
    case Accept(s, h) => s in t.serves && t.serves[s].phase.Accepting? && h !in t.handles
    case FailAccept(s, _) => s in t.serves && t.serves[s].phase.Accepting?
    case FetchDone(s) => s in t.serves && t.serves[s].phase.AcceptFailed?
    case PollDone(s) => s in t.serves && t.serves[s].phase.Polling?
    case UntrackListener(s) => s in t.serves && t.serves[s].phase.Returning?
    case CloseListener(s) => s in t.serves && t.serves[s].phase.Closing?
    case StartConn(h) => h !in t.handles
    case Handshake(h, _) => h in t.handles && t.handles[h].Handshaking?
    case TrackConn(h) => h in t.handles && t.handles[h].Ready?
    case UntrackConn(h) => h in t.handles && t.handles[h].Tracked?
    case CloseServer => true
    case ShutdownServer(d) => d !in t.shutdowns
    case WaitedListeners(d) =>
      d in t.shutdowns && t.shutdowns[d].phase.WaitListeners? && t.core.listenerWg == 0
    case WaitedConns(d) =>
      d in t.shutdowns && t.shutdowns[d].phase.WaitConns? && t.core.connWg == 0
  }

  function Apply(t: State, e: Step): State
    requires Enabled(t, e)
  {
    match e
    case StartServe(s, ln) =>
      t.(core := t.core.AddListener(ln), serves := t.serves[s := Serve(ln, Accepting(0))])
    case Accept(s, h) => t.(handles := t.handles[h := Handshaking])
    case FailAccept(s, temporary) =>
      t.WithPhase(s, AcceptFailed(temporary, t.serves[s].phase.delay))
    case FetchDone(s) =>
      var c := t.core.EnsureDone();
      var p := t.serves[s].phase;
      t.(core := c).WithPhase(s, Polling(c.doneChan.value, p.temporary, p.delay))
    case PollDone(s) =>
      var p := t.serves[s].phase;
      t.WithPhase(s,
        if p.ch in t.core.closes then Returning(ErrServerClosed)
        else if p.temporary then Accepting(NextDelay(p.delay))
        else Returning(AcceptError))
    case UntrackListener(s) =>
      t.(core := t.core.RemoveListener(t.serves[s].listener))
       .WithPhase(s, Closing(t.serves[s].phase.err))
    case CloseListener(s) =>
      t.(core := t.core.(closedListeners := t.core.closedListeners + {t.serves[s].listener}))
       .WithPhase(s, Returned(t.serves[s].phase.err))
    case StartConn(h) => t.(handles := t.handles[h := Handshaking])
    case Handshake(h, ok) => t.(handles := t.handles[h := if ok then Ready else Finished])
    case TrackConn(h) => t.(core := t.core.AddConn(h), handles := t.handles[h := Tracked])
    case UntrackConn(h) => t.(core := t.core.RemoveConn(h), handles := t.handles[h := Finished])
    case CloseServer => t.(core := t.core.Close())
    case ShutdownServer(d) =>
      t.(core := t.core.Shutdown(),
         shutdowns := t.shutdowns[d := Shutdown(WaitListeners, t.TrackedServes(), t.TrackedHandles())])
    case WaitedListeners(d) =>
      t.(shutdowns := t.shutdowns[d := t.shutdowns[d].(phase := WaitConns)])
    case WaitedConns(d) =>
      t.(shutdowns := t.shutdowns[d := t.shutdowns[d].(phase := Done)])
  }

  /** Steps from any state: ts[k] is the state before es[k]. */
  ghost predicate IsPath(ts: seq<State>, es: seq<Step>) {
    && |ts| == |es| + 1
    && forall k :: 0 <= k < |es| ==> Enabled(ts[k], es[k]) && ts[k + 1] == Apply(ts[k], es[k])
  }

  /** A run starts with a server that has done nothing. */
  ghost predicate IsRun(ts: seq<State>, es: seq<Step>) {
    IsPath(ts, es) && ts[0] == INIT
  }

  // ---------------------------------------------------------------- invariant

  ghost predicate CountsAgree(t: State) {
    && t.core.listenerWg == |t.TrackedServes()|
    && t.core.connWg == |t.TrackedHandles()|
  }

  /** Sets hold only live activations, and whatever left them early has been closed. */
  ghost predicate ConnsAgree(t: State) {
    && t.core.conns <= t.TrackedHandles() <= t.core.conns + t.core.closedConns
    && forall h :: h in t.core.closedConns ==> h in t.handles && (t.handles[h].Tracked? || t.handles[h].Finished?)
  }

  ghost predicate ListenersAgree(t: State) {
    && (forall s :: s in t.TrackedServes() ==>
          t.serves[s].listener in t.core.listeners + t.core.closedListeners + t.ClosingListeners())
    && (forall ln :: ln in t.core.listeners ==>
          exists s :: s in t.TrackedServes() && t.serves[s].listener == ln)
    && (forall s :: s in t.serves && t.serves[s].phase.Returned? ==> t.serves[s].listener in t.core.closedListeners)
  }

  ghost predicate ChannelsAgree(t: State) {
    && Distinct(t.core.closes)
    && (forall c :: c in t.core.closes ==> c < t.core.nextChan)
    && (t.core.doneChan.Some? ==> t.core.doneChan.value < t.core.nextChan)
    && (forall s :: s in t.serves && t.serves[s].phase.Polling? ==> t.serves[s].phase.ch < t.core.nextChan)
  }

  /** What this Shutdown has waited for is over. */
  ghost predicate WaitAgrees(t: State, sd: Shutdown) {
    && sd.serves <= t.serves.Keys
    && sd.handles <= t.handles.Keys
    && (forall h :: h in sd.handles ==> t.handles[h].Tracked? || t.handles[h].Finished?)
    && (!sd.phase.WaitListeners? ==> sd.serves !! t.TrackedServes())
    && (sd.phase.Done? ==> sd.handles !! t.TrackedHandles())
  }

  ghost predicate WaitsAgree(t: State) {
    forall d :: d in t.shutdowns ==> WaitAgrees(t, t.shutdowns[d])
  }

  ghost predicate Inv(t: State) {
    CountsAgree(t) && ConnsAgree(t) && ListenersAgree(t) && ChannelsAgree(t) && WaitsAgree(t)
  }

  /** How each step changes the two sets of tracked activations. */
  lemma TrackedChange(t: State, e: Step)
    requires Enabled(t, e)
    ensures Apply(t, e).TrackedServes() ==
            (if e.StartServe? then t.TrackedServes() + {e.s}
             else if e.UntrackListener? then t.TrackedServes() - {e.s}
             else t.TrackedServes())
    ensures Apply(t, e).TrackedHandles() ==
            (if e.TrackConn? then t.TrackedHandles() + {e.h}
             else if e.UntrackConn? then t.TrackedHandles() - {e.h}
             else t.TrackedHandles())
    ensures e.StartServe? ==> e.s !in t.TrackedServes()
    ensures e.UntrackListener? ==> e.s in t.TrackedServes()
    ensures e.TrackConn? ==> e.h !in t.TrackedHandles()
    ensures e.UntrackConn? ==> e.h in t.TrackedHandles()
  {
  }

  /** How each step changes the two wait groups. */
  lemma WaitGroupChange(t: State, e: Step)
    requires Enabled(t, e)
    ensures Apply(t, e).core.listenerWg ==
            t.core.listenerWg + (if e.StartServe? then 1 else if e.UntrackListener? then -1 else 0)
    ensures Apply(t, e).core.connWg ==
            t.core.connWg + (if e.TrackConn? then 1 else if e.UntrackConn? then -1 else 0)
  {
  }

  lemma Cardinality<T>(a: set<T>, x: T)
    ensures x !in a ==> |a + {x}| == |a| + 1
    ensures x in a ==> |a - {x}| == |a| - 1
  {
  }

  lemma CountsStep(t: State, e: Step)
    requires Enabled(t, e) && CountsAgree(t)
    ensures CountsAgree(Apply(t, e))
  {
    hide Enabled, Apply;
    TrackedChange(t, e);
    WaitGroupChange(t, e);
    if e.StartServe? || e.UntrackListener? {
      Cardinality(t.TrackedServes(), e.s);
    } else if e.TrackConn? || e.UntrackConn? {
      Cardinality(t.TrackedHandles(), e.h);
    }
  }

  /** How each step changes the channels made and closed. */
  lemma ChannelsChange(t: State, e: Step)
    requires Enabled(t, e)
    ensures var c, d := t.core, Apply(t, e).core;
      var ch := if c.doneChan.Some? then c.doneChan.value else c.nextChan;
      && c.nextChan <= d.nextChan
      && (d.closes == c.closes || (ch !in c.closes && d.closes == c.closes + [ch] && d.doneChan == Some(ch)))
      && (d.doneChan == None || d.doneChan == c.doneChan || (d.doneChan == Some(ch) && ch < d.nextChan))
  {
  }

  lemma PollingChange(t: State, e: Step, s: ServeId)
    requires Enabled(t, e) && s in Apply(t, e).serves && Apply(t, e).serves[s].phase.Polling?
    ensures var u := Apply(t, e);
      || (s in t.serves && t.serves[s].phase == u.serves[s].phase)
      || u.core.doneChan == Some(u.serves[s].phase.ch)
  {
  }

  lemma ChannelsStep(t: State, e: Step)
    requires Enabled(t, e) && ChannelsAgree(t)
    ensures ChannelsAgree(Apply(t, e))
  {
    hide Apply, Enabled;
    var u := Apply(t, e);
    ChannelsChange(t, e);
    forall s | s in u.serves && u.serves[s].phase.Polling?
      ensures u.serves[s].phase.ch < u.core.nextChan
    {
      PollingChange(t, e, s);
    }
  }

  lemma HandlesChange(t: State, e: Step, h: HandleId)
    requires Enabled(t, e) && h in t.handles
    ensures h in Apply(t, e).handles
    ensures t.handles[h].Finished? ==> Apply(t, e).handles[h].Finished?
    ensures t.handles[h].Tracked? ==>
              Apply(t, e).handles[h] == if e == UntrackConn(h) then Finished else Tracked
  {
  }

  lemma ShutdownsChange(t: State, e: Step, d: ShutdownId)
    requires Enabled(t, e)
    ensures t.serves.Keys <= Apply(t, e).serves.Keys
    ensures d in t.shutdowns ==>
              d in Apply(t, e).shutdowns &&
              Apply(t, e).shutdowns[d] ==
                if e == WaitedListeners(d) then t.shutdowns[d].(phase := WaitConns)
                else if e == WaitedConns(d) then t.shutdowns[d].(phase := Done)
                else t.shutdowns[d]
    ensures d !in t.shutdowns && d in Apply(t, e).shutdowns ==>
              && e == ShutdownServer(d)
              && Apply(t, e).shutdowns[d] == Shutdown(WaitListeners, t.TrackedServes(), t.TrackedHandles())
    ensures e == ShutdownServer(d) ==> d !in t.shutdowns && d in Apply(t, e).shutdowns
    ensures e == WaitedListeners(d) ==> t.core.listenerWg == 0
    ensures e == WaitedConns(d) ==>
              t.core.connWg == 0 && d in t.shutdowns && t.shutdowns[d].phase.WaitConns?
  {
  }

  lemma TrackedInDomain(t: State)
    ensures t.TrackedServes() <= t.serves.Keys
  {
  }

  lemma StartServeFresh(t: State, e: Step)
    requires Enabled(t, e)
    ensures e.StartServe? ==> e.s !in t.serves
    ensures e.TrackConn? ==> e.h in t.handles && t.handles[e.h].Ready?
  {
  }

  /** A condition on one Shutdown record carries over to the next state, whatever the step. */
  lemma WaitKept(t: State, e: Step, sd: Shutdown)
    requires Enabled(t, e) && WaitAgrees(t, sd)
    ensures WaitAgrees(Apply(t, e), sd)
  {
    hide Enabled, Apply, State.TrackedServes;
    TrackedChange(t, e);
    StartServeFresh(t, e);
    ShutdownsChange(t, e, 0);
    forall h | h in sd.handles
      ensures h in Apply(t, e).handles && (Apply(t, e).handles[h].Tracked? || Apply(t, e).handles[h].Finished?)
    {
      HandlesChange(t, e, h);
    }
  }

  lemma WaitsStep(t: State, e: Step)
    requires Enabled(t, e) && CountsAgree(t) && WaitsAgree(t)
    ensures WaitsAgree(Apply(t, e))
  {
    hide Enabled, Apply;
    var u := Apply(t, e);
    forall d | d in u.shutdowns
      ensures WaitAgrees(u, u.shutdowns[d])
    {
      ShutdownsChange(t, e, d);
      if d in t.shutdowns {
        assert WaitAgrees(t, t.shutdowns[d]);
        assert e == WaitedListeners(d) ==> t.TrackedServes() == {};
        assert e == WaitedConns(d) ==> t.TrackedHandles() == {};
        WaitKept(t, e, u.shutdowns[d]);
      } else {
        TrackedInDomain(t);
        WaitKept(t, e, u.shutdowns[d]);
      }
    }
  }

  lemma ConnsStep(t: State, e: Step)
    requires Enabled(t, e) && ConnsAgree(t)
    ensures ConnsAgree(Apply(t, e))
  {
    TrackedChange(t, e);
  }

  /** How each step changes the sets of listeners. */
  lemma ListenersChange(t: State, e: Step)
    requires Enabled(t, e)
    ensures e.UntrackListener? || e.CloseListener? ==> e.s in t.serves
    ensures var c, d := t.core, Apply(t, e).core;
      && d.listeners == (if IsStop(e) then {}
                         else if e.StartServe? then c.listeners + {e.ln}
                         else if e.UntrackListener? then c.listeners - {t.serves[e.s].listener}
                         else c.listeners)
      && d.closedListeners == c.closedListeners + (if IsStop(e) then c.listeners
                                                   else if e.CloseListener? then {t.serves[e.s].listener}
                                                   else {})
  {
  }

  /** How each step changes one Serve. */
  lemma ServeChange(t: State, e: Step, s: ServeId)
    requires Enabled(t, e) && s in Apply(t, e).serves
    ensures var u := Apply(t, e);
      && (s !in t.serves ==> e.StartServe? && e.s == s && u.serves[s].listener == e.ln)
      && (s in t.serves ==> u.serves[s].listener == t.serves[s].listener)
      && (s in t.serves && t.serves[s].phase.Closing? ==> u.serves[s].phase.Closing? || e == CloseListener(s))
      && (e == UntrackListener(s) ==> u.serves[s].phase.Closing?)
      && (u.serves[s].phase.Returned? ==>
            e == CloseListener(s) || (s in t.serves && t.serves[s].phase.Returned?))
  {
  }

  lemma ServesKept(t: State, e: Step)
    requires Enabled(t, e)
    ensures t.serves.Keys <= Apply(t, e).serves.Keys
    ensures e.StartServe? ==> e.s in Apply(t, e).serves
  {
  }

  /** A tracked Serve's listener is known, closed or about to be closed. */
  lemma ListenerKept(t: State, e: Step, s: ServeId)
    requires Enabled(t, e) && ListenersAgree(t) && s in Apply(t, e).TrackedServes()
    ensures var u := Apply(t, e);
      u.serves[s].listener in u.core.listeners + u.core.closedListeners + u.ClosingListeners()
  {
    hide Apply, Enabled;
    var u := Apply(t, e);
    TrackedChange(t, e);
    ListenersChange(t, e);
    ServesKept(t, e);
    ServeChange(t, e, s);
    if s in t.TrackedServes() {
      var ln := t.serves[s].listener;
      if ln in t.ClosingListeners() {
        var s' :| s' in t.serves && t.serves[s'].phase.Closing? && t.serves[s'].listener == ln;
        ServeChange(t, e, s');
      } else if e.UntrackListener? && t.serves[e.s].listener == ln {
        ServeChange(t, e, e.s);
      }
    } else {
      StartServeFresh(t, e);
    }
  }

  lemma ListenersStep(t: State, e: Step)
    requires Enabled(t, e) && ListenersAgree(t)
    ensures ListenersAgree(Apply(t, e))
  {
    hide Apply, Enabled;
    var u := Apply(t, e);
    forall s | s in u.TrackedServes()
      ensures u.serves[s].listener in u.core.listeners + u.core.closedListeners + u.ClosingListeners()
    {
      ListenerKept(t, e, s);
    }
    TrackedChange(t, e);
    ListenersChange(t, e);
    ServesKept(t, e);
    forall s | s in u.serves && u.serves[s].phase.Returned?
      ensures u.serves[s].listener in u.core.closedListeners
    {
      ServeChange(t, e, s);
    }
    forall ln | ln in u.core.listeners
      ensures exists s :: s in u.TrackedServes() && u.serves[s].listener == ln
    {
      if ln in t.core.listeners {
        var s :| s in t.TrackedServes() && t.serves[s].listener == ln;
        ServeChange(t, e, s);
        assert s in u.TrackedServes();
      } else {
        ServeChange(t, e, e.s);
        StartServeFresh(t, e);
        assert e.s in u.TrackedServes();
      }
    }
  }

  // ---------------------------------------------------------------- theorems over runs

  /** Every step keeps the invariant. */
  lemma {:induction false} PathKeepsInv(ts: seq<State>, es: seq<Step>, k: nat)
    requires IsPath(ts, es) && Inv(ts[0]) && k <= |es|
    ensures Inv(ts[k])
  {
    if k > 0 {
      PathKeepsInv(ts, es, k - 1);
      var t, e := ts[k - 1], es[k - 1];
      assert ts[k - 1 + 1] == Apply(t, e);
      CountsStep(t, e);
      ConnsStep(t, e);
      ListenersStep(t, e);
      ChannelsStep(t, e);
      WaitsStep(t, e);
    }
  }

  /** Every reachable state satisfies the invariant. */
  lemma RunKeepsInv(ts: seq<State>, es: seq<Step>, k: nat)
    requires IsRun(ts, es) && k <= |es|
    ensures Inv(ts[k])
  {
    assert Inv(INIT) by {
      assert INIT.TrackedServes() == {} && INIT.TrackedHandles() == {};
    }
    PathKeepsInv(ts, es, k);
  }

  /**
   In every interleaving each wait group counts exactly the activations between
   their add and their remove, and the Done of a remove never finds a zero counter.
   */
  lemma WaitGroupsCountActivations(ts: seq<State>, es: seq<Step>, k: nat)
    requires IsRun(ts, es) && k <= |es|
    ensures ts[k].core.listenerWg == |ts[k].TrackedServes()|
    ensures ts[k].core.connWg == |ts[k].TrackedHandles()|
    ensures k < |es| && es[k].UntrackListener? ==> ts[k].core.listenerWg > 0
    ensures k < |es| && es[k].UntrackConn? ==> ts[k].core.connWg > 0
  {
    RunKeepsInv(ts, es, k);
    if k < |es| {
      TrackedChange(ts[k], es[k]);
    }
  }

  /** A tracked connection that is missing from the set was closed by Close. */
  lemma TrackedConnectionsAreKnownOrClosed(ts: seq<State>, es: seq<Step>, k: nat, h: HandleId)
    requires IsRun(ts, es) && k <= |es|
    requires h in ts[k].TrackedHandles()
    ensures h in ts[k].core.conns || h in ts[k].core.closedConns
    ensures ts[k].core.conns <= ts[k].TrackedHandles()
  {
    RunKeepsInv(ts, es, k);
  }

  lemma ClosedConnsChange(t: State, e: Step)
    requires Enabled(t, e)
    ensures Apply(t, e).core.closedConns == t.core.closedConns + if e.CloseServer? then t.core.conns else {}
  {
  }

  /** Until the first Close, no connection is interrupted and the set is exactly the tracked connections. */
  lemma {:induction false} OnlyCloseInterrupts(ts: seq<State>, es: seq<Step>, k: nat)
    requires IsRun(ts, es) && k <= |es|
    requires forall j :: 0 <= j < k ==> es[j] != CloseServer
    ensures ts[k].core.closedConns == {} && ts[k].core.conns == ts[k].TrackedHandles()
  {
    hide Apply, Enabled;
    RunKeepsInv(ts, es, k);
    if k > 0 {
      OnlyCloseInterrupts(ts, es, k - 1);
      assert ts[k - 1 + 1] == Apply(ts[k - 1], es[k - 1]);
      ClosedConnsChange(ts[k - 1], es[k - 1]);
    }
  }

  lemma StopChange(t: State, e: Step)
    requires Enabled(t, e) && IsStop(e)
    ensures var u := Apply(t, e);
      && u.core.listeners == {} && u.serves == t.serves && u.handles == t.handles
      && u.core.conns == if e.CloseServer? then {} else t.core.conns
  {
  }

  /**
   After Close or Shutdown every listener then served is closed or about to be; after
   Close so is every connection then tracked, after Shutdown no connection is touched.
   */
  lemma StopClosesEverything(ts: seq<State>, es: seq<Step>, k: nat)
    requires IsRun(ts, es) && k < |es| && IsStop(es[k])
    ensures forall s :: s in ts[k].TrackedServes() ==>
              ts[k].serves[s].listener in ts[k + 1].core.closedListeners + ts[k + 1].ClosingListeners()
    ensures es[k].CloseServer? ==> ts[k].TrackedHandles() <= ts[k + 1].core.closedConns
    ensures es[k].ShutdownServer? ==>
              ts[k + 1].core.closedConns == ts[k].core.closedConns && ts[k + 1].core.conns == ts[k].core.conns
  {
    hide Apply;
    RunKeepsInv(ts, es, k + 1);
    assert ts[k + 1] == Apply(ts[k], es[k]);
    StopChange(ts[k], es[k]);
    ClosedConnsChange(ts[k], es[k]);
    assert ts[k + 1].TrackedHandles() == ts[k].TrackedHandles();
    assert ts[k + 1].TrackedServes() == ts[k].TrackedServes();
  }

  lemma {:induction false} ShutdownSnapshot(ts: seq<State>, es: seq<Step>, i: nat, k: nat, d: ShutdownId)
    requires IsPath(ts, es) && i < k <= |es| && es[i] == ShutdownServer(d)
    ensures d in ts[k].shutdowns
    ensures ts[k].shutdowns[d].serves == ts[i].TrackedServes()
    ensures ts[k].shutdowns[d].handles == ts[i].TrackedHandles()
  {
    hide Apply, Enabled;
    assert ts[k - 1 + 1] == Apply(ts[k - 1], es[k - 1]);
    ShutdownsChange(ts[k - 1], es[k - 1], d);
    if i + 1 < k {
      ShutdownSnapshot(ts, es, i, k - 1, d);
    }
  }

  /**
   When Shutdown has been told `finished`, every Serve and every connection tracked
   when it was called has been untracked, and so stays.
   */
  lemma ShutdownWaitsForTracked(ts: seq<State>, es: seq<Step>, i: nat, k: nat, d: ShutdownId)
    requires IsPath(ts, es) && Inv(ts[0]) && i < k <= |es| && es[i] == ShutdownServer(d)
    requires d in ts[k].shutdowns && ts[k].shutdowns[d].phase.Done?
    ensures forall s :: s in ts[i].TrackedServes() ==>
              s in ts[k].serves && (ts[k].serves[s].phase.Closing? || ts[k].serves[s].phase.Returned?)
    ensures forall h :: h in ts[i].TrackedHandles() ==> h in ts[k].handles && ts[k].handles[h].Finished?
  {
    PathKeepsInv(ts, es, k);
    ShutdownSnapshot(ts, es, i, k, d);
    assert WaitAgrees(ts[k], ts[k].shutdowns[d]);
    forall s | s in ts[i].TrackedServes()
      ensures s in ts[k].serves && (ts[k].serves[s].phase.Closing? || ts[k].serves[s].phase.Returned?)
    {
      assert s !in ts[k].TrackedServes();
    }
    forall h | h in ts[i].TrackedHandles()
      ensures h in ts[k].handles && ts[k].handles[h].Finished?
    {
      assert h !in ts[k].TrackedHandles();
    }
  }

  /** No done channel is closed twice, whatever mixes Close, Shutdown and reuse. */
  lemma NoChannelClosedTwice(ts: seq<State>, es: seq<Step>, k: nat, i: nat, j: nat)
    requires IsRun(ts, es) && k <= |es|
    requires i < j < |ts[k].core.closes|
    ensures ts[k].core.closes[i] != ts[k].core.closes[j]
  {
    RunKeepsInv(ts, es, k);
  }

  // ---------------------------------------------------------------- what Serve returns

  /** Step k of the run adds a listener to a server with no listener and no connection in its sets. */
  ghost predicate ResetsAt(ts: seq<State>, es: seq<Step>, k: nat)
    requires |ts| == |es| + 1 && k < |es|
  {
    es[k].StartServe? && ts[k].core.listeners == {} && ts[k].core.conns == {}
  }

  /** Some Close or Shutdown at or after step `from` and before step `to` precedes any reset since `from`. */
  ghost predicate StopBeforeReset(ts: seq<State>, es: seq<Step>, from: nat, to: nat)
    requires |ts| == |es| + 1 && to <= |es|
  {
    exists i :: from <= i < to && IsStop(es[i]) && forall j :: from <= j < i ==> !ResetsAt(ts, es, j)
  }

  /** Some Close or Shutdown before step k is followed by no reset before step k. */
  ghost predicate StoppedAt(ts: seq<State>, es: seq<Step>, k: nat)
    requires |ts| == |es| + 1 && k <= |es|
  {
    exists i :: 0 <= i < k && IsStop(es[i]) && forall j :: i < j < k ==> !ResetsAt(ts, es, j)
  }

  /** A Serve that has returned has closed its listener. */
  lemma ReturnedServeClosedItsListener(ts: seq<State>, es: seq<Step>, k: nat, s: ServeId)
    requires IsRun(ts, es) && k <= |es| && s in ts[k].serves && ts[k].serves[s].phase.Returned?
    ensures ts[k].serves[s].listener in ts[k].core.closedListeners
  {
    RunKeepsInv(ts, es, k);
  }

  /** How each step changes the done channel. */
  lemma DoneChange(t: State, e: Step)
    requires Enabled(t, e)
    ensures IsStop(e) ==> Apply(t, e).core.DoneClosed()
    ensures IsStop(e) && t.core.doneChan.Some? ==>
              && Apply(t, e).core.doneChan == t.core.doneChan
              && forall c :: c in Apply(t, e).core.closes <==> c in t.core.closes || c == t.core.doneChan.value
    ensures !IsStop(e) ==> Apply(t, e).core.closes == t.core.closes
    ensures e.StartServe? && t.core.listeners == {} && t.core.conns == {} ==> Apply(t, e).core.doneChan == None
    ensures !(e.StartServe? && t.core.listeners == {} && t.core.conns == {}) ==>
              || Apply(t, e).core.doneChan == t.core.doneChan
              || (t.core.doneChan == None && Apply(t, e).core.doneChan == Some(t.core.nextChan))
    ensures forall c :: c in Apply(t, e).core.closes && c !in t.core.closes ==>
              t.core.doneChan == Some(c) || c == t.core.nextChan
    ensures forall c :: c in t.core.closes ==> c in Apply(t, e).core.closes
    ensures Apply(t, e).core.nextChan >= t.core.nextChan
  {
  }

  /**
   Adding a listener drops the done channel if and only if no listener and no connection
   is in the sets; before any Close that means that no connection is tracked.
   */
  lemma StartServeDropsDoneIff(ts: seq<State>, es: seq<Step>, k: nat)
    requires IsRun(ts, es) && k < |es| && es[k].StartServe? && ts[k].core.doneChan.Some?
    ensures ts[k + 1].core.doneChan == None <==> ts[k].core.listeners == {} && ts[k].core.conns == {}
    ensures ts[k + 1].core.doneChan != None ==> ts[k + 1].core.doneChan == ts[k].core.doneChan
    ensures (forall j :: 0 <= j < k ==> es[j] != CloseServer) ==>
              (ts[k].core.conns == {} <==> forall h :: h in ts[k].handles ==> !ts[k].handles[h].Tracked?)
  {
    hide Enabled, Apply;
    assert ts[k + 1] == Apply(ts[k], es[k]);
    DoneChange(ts[k], es[k]);
    if forall j :: 0 <= j < k ==> es[j] != CloseServer {
      OnlyCloseInterrupts(ts, es, k);
      assert forall h :: h in ts[k].TrackedHandles() <==> h in ts[k].handles && ts[k].handles[h].Tracked?;
    }
  }

  /**
   The done channel is closed exactly when some earlier Close or Shutdown has not
   been followed by a listener joining an empty server.
   */
  lemma {:induction false} DoneClosedIffStopped(ts: seq<State>, es: seq<Step>, k: nat)
    requires IsRun(ts, es) && k <= |es|
    ensures ts[k].core.DoneClosed() <==> StoppedAt(ts, es, k)
  {
    hide Apply, Enabled;
    if k > 0 {
      DoneClosedIffStopped(ts, es, k - 1);
      RunKeepsInv(ts, es, k - 1);
      var t, e := ts[k - 1], es[k - 1];
      assert ts[k - 1 + 1] == Apply(t, e);
      DoneChange(t, e);
      if IsStop(e) {
        assert StoppedAt(ts, es, k);
      } else if ResetsAt(ts, es, k - 1) {
      } else if StoppedAt(ts, es, k - 1) {
        var i :| 0 <= i < k - 1 && IsStop(es[i]) && forall j :: i < j < k - 1 ==> !ResetsAt(ts, es, j);
        assert IsStop(es[i]) && forall j :: i < j < k ==> !ResetsAt(ts, es, j);
      }
    }
  }

  lemma StopBeforeResetSnoc(ts: seq<State>, es: seq<Step>, from: nat, to: nat)
    requires |ts| == |es| + 1 && from < to <= |es|
    ensures StopBeforeReset(ts, es, from, to) <==>
            || StopBeforeReset(ts, es, from, to - 1)
            || (IsStop(es[to - 1]) && forall j :: from <= j < to - 1 ==> !ResetsAt(ts, es, j))
  {
    if StopBeforeReset(ts, es, from, to - 1) {
      var i :| from <= i < to - 1 && IsStop(es[i]) && forall j :: from <= j < i ==> !ResetsAt(ts, es, j);
      assert from <= i < to && IsStop(es[i]);
    }
  }

  /** From the step that fetched channel ch on: when ch becomes closed. */
  lemma {:induction false} FetchedChannel(ts: seq<State>, es: seq<Step>, f: nat, k: nat, ch: Chan)
    requires IsRun(ts, es) && f <= k <= |es|
    requires ts[f].core.doneChan == Some(ch)
    ensures ch in ts[k].core.closes <==> ts[f].core.DoneClosed() || StopBeforeReset(ts, es, f, k)
    ensures ts[k].core.doneChan == Some(ch) <==> forall j :: f <= j < k ==> !ResetsAt(ts, es, j)
    ensures ch < ts[k].core.nextChan
  {
    hide Apply, Enabled, CountsAgree, ConnsAgree, ListenersAgree, WaitsAgree;
    RunKeepsInv(ts, es, f);
    if f < k {
      FetchedChannel(ts, es, f, k - 1, ch);
      RunKeepsInv(ts, es, k - 1);
      var t, e := ts[k - 1], es[k - 1];
      assert ts[k - 1 + 1] == Apply(t, e);
      DoneChange(t, e);
      StopBeforeResetSnoc(ts, es, f, k);
      hide StopBeforeReset;
      assert (forall j :: f <= j < k ==> !ResetsAt(ts, es, j)) <==>
             (forall j :: f <= j < k - 1 ==> !ResetsAt(ts, es, j)) && !ResetsAt(ts, es, k - 1);
    }
  }

  /** Only its own poll moves a Serve past the channel it fetched. */
  lemma FetchChange(t: State, e: Step, s: ServeId)
    requires Enabled(t, e)
    ensures e == FetchDone(s) ==>
              && s in Apply(t, e).serves && Apply(t, e).serves[s].phase.Polling?
              && Apply(t, e).core.doneChan == Some(Apply(t, e).serves[s].phase.ch)
              && (t.core.doneChan == None || Apply(t, e).core.doneChan == t.core.doneChan)
              && (t.core.doneChan == None ==> Apply(t, e).core.doneChan == Some(t.core.nextChan))
    ensures s in t.serves && t.serves[s].phase.Polling? && e != PollDone(s) ==>
              s in Apply(t, e).serves && Apply(t, e).serves[s].phase == t.serves[s].phase
  {
  }

  /** Serve s keeps the channel it fetched at step f until it polls. */
  lemma {:induction false} PollingKept(ts: seq<State>, es: seq<Step>, f: nat, k: nat, s: ServeId)
    requires IsRun(ts, es) && f < k <= |es| && es[f] == FetchDone(s)
    requires forall j :: f < j < k ==> es[j] != PollDone(s)
    ensures s in ts[k].serves && ts[k].serves[s].phase.Polling?
    ensures ts[f + 1].core.doneChan == Some(ts[k].serves[s].phase.ch)
    ensures ts[f + 1].core.DoneClosed() == ts[f].core.DoneClosed()
  {
    hide Apply, Enabled;
    assert ts[f + 1] == Apply(ts[f], es[f]);
    RunKeepsInv(ts, es, f);
    DoneChange(ts[f], es[f]);
    FetchChange(ts[f], es[f], s);
    if f + 1 < k {
      PollingKept(ts, es, f, k - 1, s);
      assert ts[k - 1 + 1] == Apply(ts[k - 1], es[k - 1]);
      FetchChange(ts[k - 1], es[k - 1], s);
    }
  }

  /**
   A Serve whose Accept failed fetches the done channel at step f and tests it at
   step p. It then returns ErrServerClosed if and only if the server was stopped and
   not reset when it fetched, or is stopped before the next reset while it looks.
   */
  lemma ServeReturnsErrServerClosedIff(ts: seq<State>, es: seq<Step>, f: nat, p: nat, s: ServeId)
    requires IsRun(ts, es) && f < p < |es|
    requires es[f] == FetchDone(s) && es[p] == PollDone(s)
    requires forall j :: f < j < p ==> es[j] != PollDone(s)
    ensures s in ts[p + 1].serves
    ensures ts[p + 1].serves[s].phase == Returning(ErrServerClosed) <==>
            StoppedAt(ts, es, f) || StopBeforeReset(ts, es, f + 1, p)
  {
    PollingKept(ts, es, f, p, s);
    DoneClosedIffStopped(ts, es, f);
    FetchedChannel(ts, es, f + 1, p, ts[p].serves[s].phase.ch);
    assert ts[p + 1] == Apply(ts[p], es[p]);
  }

  /** The documented case: stopped at step i, no listener added before the Serve looks. */
  lemma StoppedServeReturnsErrServerClosed(ts: seq<State>, es: seq<Step>, i: nat, f: nat, p: nat, s: ServeId)
    requires IsRun(ts, es) && i < f < p < |es|
    requires IsStop(es[i]) && forall j :: i < j < f ==> !es[j].StartServe?
    requires es[f] == FetchDone(s) && es[p] == PollDone(s)
    requires forall j :: f < j < p ==> es[j] != PollDone(s)
    ensures s in ts[p + 1].serves && ts[p + 1].serves[s].phase == Returning(ErrServerClosed)
  {
    assert StoppedAt(ts, es, f) by {
      assert forall j :: i < j < f ==> !ResetsAt(ts, es, j);
    }
    ServeReturnsErrServerClosedIff(ts, es, f, p, s);
  }

  /** How often Accept has failed temporarily for Serve s. */
  function TemporaryFailures(es: seq<Step>, s: ServeId): nat {
    if es == [] then 0
    else TemporaryFailures(es[..|es| - 1], s) + if es[|es| - 1] == FailAccept(s, true) then 1 else 0
  }

  /** The delay in phase p after n temporary failures; one that is being handled does not count yet. */
  predicate DelayIs(p: ServePhase, n: nat) {
    && (p.Accepting? ==> p.delay == Backoff(n))
    && (p.AcceptFailed? || p.Polling? ==>
          (p.temporary ==> n > 0) && p.delay == Backoff(if p.temporary then n - 1 else n))
  }

  lemma DelayChange(t: State, e: Step, s: ServeId, n: nat)
    requires Enabled(t, e) && (s in t.serves ==> DelayIs(t.serves[s].phase, n)) && (s !in t.serves ==> n == 0)
    ensures s in Apply(t, e).serves ==>
              DelayIs(Apply(t, e).serves[s].phase, if e == FailAccept(s, true) then n + 1 else n)
    ensures s !in Apply(t, e).serves ==> s !in t.serves && e != FailAccept(s, true)
  {
  }

  /** A Serve's delay is the one its temporary failures so far require; a successful Accept does not reset it. */
  lemma {:induction false} ServeBacksOff(ts: seq<State>, es: seq<Step>, k: nat, s: ServeId)
    requires IsRun(ts, es) && k <= |es|
    ensures s in ts[k].serves ==> DelayIs(ts[k].serves[s].phase, TemporaryFailures(es[..k], s))
    ensures s !in ts[k].serves ==> TemporaryFailures(es[..k], s) == 0
  {
    hide Apply, Enabled, DelayIs;
    if k > 0 {
      ServeBacksOff(ts, es, k - 1, s);
      assert ts[k - 1 + 1] == Apply(ts[k - 1], es[k - 1]);
      assert es[..k][..k - 1] == es[..k - 1];
      DelayChange(ts[k - 1], es[k - 1], s, TemporaryFailures(es[..k - 1], s));
    }
  }

  /** Serve s is handling an Accept error of this kind. */
  predicate Handles(t: State, s: ServeId, temporary: bool) {
    && s in t.serves
    && (t.serves[s].phase.AcceptFailed? || t.serves[s].phase.Polling?)
    && t.serves[s].phase.temporary == temporary
  }

  lemma FailureChange(t: State, e: Step, s: ServeId, temporary: bool)
    requires Enabled(t, e)
    ensures e == FailAccept(s, temporary) ==> Handles(Apply(t, e), s, temporary)
    ensures Handles(t, s, temporary) && e != PollDone(s) ==> Handles(Apply(t, e), s, temporary)
  {
  }

  lemma {:induction false} FailureKept(ts: seq<State>, es: seq<Step>, j: nat, k: nat, s: ServeId)
    requires IsRun(ts, es) && j < k <= |es| && es[j].FailAccept? && es[j].s == s
    requires forall i :: j < i < k ==> es[i] != PollDone(s)
    ensures Handles(ts[k], s, es[j].temporary)
  {
    hide Apply, Enabled, Handles;
    assert ts[k - 1 + 1] == Apply(ts[k - 1], es[k - 1]);
    FailureChange(ts[k - 1], es[k - 1], s, es[j].temporary);
    if j + 1 < k {
      FailureKept(ts, es, j, k - 1, s);
    }
  }

  lemma PollChange(t: State, s: ServeId, temporary: bool)
    requires Enabled(t, PollDone(s)) && Handles(t, s, temporary)
    ensures s in Apply(t, PollDone(s)).serves
    ensures var p := Apply(t, PollDone(s)).serves[s].phase;
      p == Returning(ErrServerClosed) || (if temporary then p.Accepting? else p == Returning(AcceptError))
  {
  }

  /**
   What a Serve does about an Accept error: it came at step j, the done channel is
   fetched at step f and tested at step p. Stopped in the sense above, the Serve returns
   ErrServerClosed. Otherwise it goes back to Accept exactly when the error was temporary,
   after min(5 ms * 2^(n-1), 1 s) for the n-th temporary error, and returns any other error.
   */
  lemma ServeHandlesAcceptError(ts: seq<State>, es: seq<Step>, j: nat, f: nat, p: nat, s: ServeId)
    requires IsRun(ts, es) && j < f < p < |es|
    requires es[j].FailAccept? && es[j].s == s && es[f] == FetchDone(s) && es[p] == PollDone(s)
    requires forall i :: j < i < p ==> es[i] != PollDone(s)
    ensures s in ts[p + 1].serves && TemporaryFailures(es[..p + 1], s) >= if es[j].temporary then 1 else 0
    ensures ts[p + 1].serves[s].phase ==
            if StoppedAt(ts, es, f) || StopBeforeReset(ts, es, f + 1, p) then Returning(ErrServerClosed)
            else if es[j].temporary then
              var wait := 5 * Pow2(TemporaryFailures(es[..p + 1], s) - 1);
              Accepting(if wait > 1000 then 1000 else wait)
            else Returning(AcceptError)
  {
    hide StoppedAt, StopBeforeReset, Backoff, Apply, Enabled;
    ServeReturnsErrServerClosedIff(ts, es, f, p, s);
    FailureKept(ts, es, j, p, s);
    ServeBacksOff(ts, es, p, s);
    ServeBacksOff(ts, es, p + 1, s);
    assert es[..p + 1][..p] == es[..p];
    assert ts[p + 1] == Apply(ts[p], es[p]);
    PollChange(ts[p], s, es[j].temporary);
    if es[j].temporary {
      BackoffDoublesUpToOneSecond(TemporaryFailures(es[..p + 1], s));
    }
  }

  /** A temporary Accept error on a running server: Serve is back at Accept after 5 ms. */
  lemma TemporaryErrorIsRetried() returns (ts: seq<State>, es: seq<Step>)
    ensures IsRun(ts, es) && es == [StartServe(0, 7), FailAccept(0, true), FetchDone(0), PollDone(0)]
    ensures 0 in ts[4].serves && ts[4].serves[0].phase == Accepting(5)
  {
    es := [StartServe(0, 7), FailAccept(0, true), FetchDone(0), PollDone(0)];
    var t1 := Apply(INIT, es[0]);
    var t2 := Apply(t1, es[1]);
    var t3 := Apply(t2, es[2]);
    ts := [INIT, t1, t2, t3, Apply(t3, es[3])];
  }

  /** On its way out Serve s carries this error. */
  predicate Leaving(t: State, s: ServeId, err: ServeError) {
    s in t.serves && t.serves[s].phase in {Returning(err), Closing(err), Returned(err)}
  }

  lemma LeavingChange(t: State, e: Step, s: ServeId, err: ServeError)
    requires Enabled(t, e) && Leaving(t, s, err)
    ensures Leaving(Apply(t, e), s, err)
  {
  }

  /** The error a Serve decided on is the one it returns, whatever its deferred calls meet. */
  lemma {:induction false} ServeKeepsItsError(ts: seq<State>, es: seq<Step>, i: nat, k: nat, s: ServeId,
                                              err: ServeError)
    requires IsRun(ts, es) && i <= k <= |es|
    requires s in ts[i].serves && ts[i].serves[s].phase == Returning(err)
    ensures Leaving(ts[k], s, err)
  {
    hide Apply, Enabled;
    if i < k {
      ServeKeepsItsError(ts, es, i, k - 1, s, err);
      assert ts[k - 1 + 1] == Apply(ts[k - 1], es[k - 1]);
      LeavingChange(ts[k - 1], es[k - 1], s, err);
    }
  }

  // ---------------------------------------------------------------- connections

  ghost predicate Started(es: seq<Step>, h: HandleId) {
    StartConn(h) in es || exists s :: Accept(s, h) in es
  }

  /** Where connection h is, from the steps taken. */
  ghost predicate PhaseFits(t: State, es: seq<Step>, h: HandleId) {
    && (h in t.handles <==> Started(es, h))
    && (h !in t.handles ==> forall ok :: Handshake(h, ok) !in es)
    && (h !in t.handles ==> TrackConn(h) !in es && UntrackConn(h) !in es)
    && (h in t.handles ==>
          && (t.handles[h].Handshaking? <==> Handshake(h, true) !in es && Handshake(h, false) !in es)
          && (t.handles[h].Ready? <==> Handshake(h, true) in es && TrackConn(h) !in es)
          && (t.handles[h].Tracked? <==> TrackConn(h) in es && UntrackConn(h) !in es)
          && (t.handles[h].Finished? <==> Handshake(h, false) in es || UntrackConn(h) in es))
    && (TrackConn(h) in es ==> Handshake(h, true) in es)
    && (UntrackConn(h) in es ==> TrackConn(h) in es)
    && !(Handshake(h, true) in es && Handshake(h, false) in es)
  }

  lemma StartedSnoc(es: seq<Step>, e: Step, h: HandleId)
    ensures Started(es + [e], h) <==> Started(es, h) || e == StartConn(h) || (e.Accept? && e.h == h)
  {
    if Started(es, h) && StartConn(h) !in es {
      var s :| Accept(s, h) in es;
      assert Accept(s, h) in es + [e];
    }
    if e.Accept? && e.h == h {
      assert Accept(e.s, h) in es + [e];
    }
  }

  lemma HandleStep(t: State, e: Step, h: HandleId)
    requires Enabled(t, e)
    ensures h in Apply(t, e).handles <==> h in t.handles || e == StartConn(h) || (e.Accept? && e.h == h)
    ensures e == StartConn(h) || (e.Accept? && e.h == h) ==> h !in t.handles && Apply(t, e).handles[h].Handshaking?
    ensures e == Handshake(h, true) ==> h in t.handles && t.handles[h].Handshaking? && Apply(t, e).handles[h].Ready?
    ensures e == Handshake(h, false) ==> h in t.handles && t.handles[h].Handshaking? && Apply(t, e).handles[h].Finished?
    ensures e == TrackConn(h) ==> h in t.handles && t.handles[h].Ready? && Apply(t, e).handles[h].Tracked?
    ensures e == UntrackConn(h) ==> h in t.handles && t.handles[h].Tracked? && Apply(t, e).handles[h].Finished?
    ensures h in t.handles && e !in {Handshake(h, true), Handshake(h, false), TrackConn(h), UntrackConn(h)} ==>
              Apply(t, e).handles[h] == t.handles[h]
  {
  }

  lemma PhaseStep(t: State, es: seq<Step>, e: Step, h: HandleId)
    requires Enabled(t, e) && PhaseFits(t, es, h)
    ensures PhaseFits(Apply(t, e), es + [e], h)
  {
    hide Apply, Enabled, Started;
    HandleStep(t, e, h);
    StartedSnoc(es, e, h);
    assert forall x :: x in es + [e] <==> x in es || x == e;
  }

  /**
   In every run a connection exists once it was accepted or handed in, is tracked exactly
   between its trackConn calls, and never without a handshake that succeeded; a failed
   handshake ends it.
   */
  lemma {:induction false} ConnectionHistory(ts: seq<State>, es: seq<Step>, k: nat, h: HandleId)
    requires IsRun(ts, es) && k <= |es|
    ensures PhaseFits(ts[k], es[..k], h)
  {
    hide Apply, Enabled;
    if k > 0 {
      ConnectionHistory(ts, es, k - 1, h);
      assert ts[k - 1 + 1] == Apply(ts[k - 1], es[k - 1]);
      assert es[..k] == es[..k - 1] + [es[k - 1]];
      PhaseStep(ts[k - 1], es[..k - 1], es[k - 1], h);
    }
  }

  /** A connection is tracked only after its handshake succeeded, and never after one that failed. */
  lemma TrackedOnlyAfterHandshake(ts: seq<State>, es: seq<Step>, k: nat, h: HandleId)
    requires IsRun(ts, es) && k <= |es|
    ensures h in ts[k].TrackedHandles() <==> TrackConn(h) in es[..k] && UntrackConn(h) !in es[..k]
    ensures h in ts[k].TrackedHandles() ==> Handshake(h, true) in es[..k]
    ensures Handshake(h, false) in es[..k] ==>
              TrackConn(h) !in es[..k] && h in ts[k].handles && ts[k].handles[h].Finished?
  {
    ConnectionHistory(ts, es, k, h);
  }

  // ---------------------------------------------------------------- limits of the design

  /** A server with a Serve in phase p on listener 7 and one accepting on listener 8, closed and then reused. */
  function Reused(p: ServePhase, fetched: bool): State {
    var core := EMPTY_CORE.AddListener(7).Close().AddListener(8);
    State(if fetched then core.EnsureDone() else core,
          map[0 := Serve(7, p), 1 := Serve(8, Accepting(0))], map[], map[])
  }

  lemma ReuseSteps()
    ensures var t := Reused(Accepting(0), false);
      Enabled(t, FailAccept(0, false)) && Apply(t, FailAccept(0, false)) == Reused(AcceptFailed(false, 0), false)
    ensures var t := Reused(AcceptFailed(false, 0), false);
      Enabled(t, FetchDone(0)) && Apply(t, FetchDone(0)) == Reused(Polling(1, false, 0), true)
    ensures var t := Reused(Polling(1, false, 0), true);
      Enabled(t, PollDone(0)) && Apply(t, PollDone(0)) == Reused(Returning(AcceptError), true)
  {
  }

  lemma CloseAndReuse()
    ensures Enabled(INIT, StartServe(0, 7))
    ensures Enabled(Apply(INIT, StartServe(0, 7)), CloseServer)
    ensures var t := Apply(Apply(INIT, StartServe(0, 7)), CloseServer);
      Enabled(t, StartServe(1, 8)) && Apply(t, StartServe(1, 8)) == Reused(Accepting(0), false)
  {
  }

  /**
   "Provided no listener is added" is needed: after Close, a second Serve resets the
   done channel, and the first Serve then returns its Accept error instead.
   */
  lemma ReuseMasksErrServerClosed() returns (ts: seq<State>, es: seq<Step>)
    ensures IsRun(ts, es) && |es| == 6
    ensures es[1] == CloseServer && es[2].StartServe? && es[4] == FetchDone(0) && es[5] == PollDone(0)
    ensures 0 in ts[6].serves && ts[6].serves[0].phase == Returning(AcceptError)
  {
    hide Apply, Enabled;
    es := [StartServe(0, 7), CloseServer, StartServe(1, 8), FailAccept(0, false), FetchDone(0), PollDone(0)];
    CloseAndReuse();
    ReuseSteps();
    var t1 := Apply(INIT, es[0]);
    ts := [INIT, t1, Apply(t1, es[1]), Reused(Accepting(0), false), Reused(AcceptFailed(false, 0), false),
           Reused(Polling(1, false, 0), true), Reused(Returning(AcceptError), true)];
  }

  // ---------------------------------------------------------------- steps of the Server fields

  /** What each step does to the fields of the server; `ln` is the listener of the Serve that moves. */
  function CoreStep(c: Core, e: Step, ln: Listener): Core {
    match e
    case StartServe(_, l) => c.AddListener(l)
    case FetchDone(_) => c.EnsureDone()
    case UntrackListener(_) => c.RemoveListener(ln)
    case CloseListener(_) => c.(closedListeners := c.closedListeners + {ln})
    case TrackConn(h) => c.AddConn(h)
    case UntrackConn(h) => c.RemoveConn(h)
    case CloseServer => c.Close()
    case ShutdownServer(_) => c.Shutdown()
    case _ => c
  }

  lemma ApplyCore(t: State, e: Step)
    requires Enabled(t, e)
    ensures e.UntrackListener? || e.CloseListener? ==> e.s in t.serves
    ensures Apply(t, e).core ==
            CoreStep(t.core, e, if e.UntrackListener? || e.CloseListener? then t.serves[e.s].listener else 0)
    ensures forall s :: s in t.serves ==>
              s in Apply(t, e).serves && Apply(t, e).serves[s].listener == t.serves[s].listener
    ensures forall s :: s in Apply(t, e).serves && s !in t.serves ==>
              e.StartServe? && e.s == s && Apply(t, e).serves[s].listener == e.ln
  {
  }
}
