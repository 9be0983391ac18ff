/** Which connections Shutdown waits for and Close closes, from every state the life cycle can be in. */
module Stopping {
  import opened Lifecycle

  // ---------------------------------------------------------------- building runs

  lemma Extend(ts: seq<State>, es: seq<Step>, e: Step)
    requires IsPath(ts, es) && Enabled(ts[|es|], e)
    ensures IsPath(ts + [Apply(ts[|es|], e)], es + [e])
  {
    hide Enabled, Apply;
  }

  lemma Join(ts: seq<State>, es: seq<Step>, us: seq<State>, fs: seq<Step>)
    requires IsPath(ts, es) && IsPath(us, fs) && us[0] == ts[|es|]
    ensures IsPath(ts + us[1..], es + fs)
    ensures (ts + us[1..])[|es + fs|] == us[|fs|]
  {
    hide Enabled, Apply;
    var all, steps := ts + us[1..], es + fs;
    forall k | 0 <= k < |steps|
      ensures Enabled(all[k], steps[k]) && all[k + 1] == Apply(all[k], steps[k])
    {
      if k >= |es| {
        var j := k - |es|;
        assert steps[k] == fs[j] && all[k] == us[j] && all[k + 1] == us[j + 1];
      }
    }
  }

  // ---------------------------------------------------------------- every Serve can leave

  /** Steps a tracked Serve is from leaving when its next Accept fails for good. */
  function Rank(p: ServePhase): nat {
    match p
    case Returning(_) => 1
    case Polling(_, temporary, _) => if temporary then 5 else 2
    case AcceptFailed(temporary, _) => if temporary then 6 else 3
    case Accepting(_) => 4
    case _ => 0
  }

  function Leaves(p: ServePhase, s: ServeId): Step
    requires p.Tracked()
  {
    match p
    case Returning(_) => UntrackListener(s)
    case Polling(_, _, _) => PollDone(s)
    case AcceptFailed(_, _) => FetchDone(s)
    case Accepting(_) => FailAccept(s, false)
  }

  /** Only Serves move from t to u, and none joins. */
  ghost predicate ServesMove(t: State, u: State) {
    && CountsAgree(u) && u.handles == t.handles && u.shutdowns == t.shutdowns
    && u.TrackedServes() <= t.TrackedServes()
  }

  lemma LeaveStep(t: State, s: ServeId)
    requires CountsAgree(t) && s in t.TrackedServes()
    ensures var e := Leaves(t.serves[s].phase, s);
      && Enabled(t, e)
      && ServesMove(t, Apply(t, e))
      && s in Apply(t, e).serves && Rank(Apply(t, e).serves[s].phase) < Rank(t.serves[s].phase)
      && (s in Apply(t, e).TrackedServes() || |Apply(t, e).TrackedServes()| < |t.TrackedServes()|)
  {
    var e := Leaves(t.serves[s].phase, s);
    TrackedChange(t, e);
    CountsStep(t, e);
    if e.UntrackListener? {
      Cardinality(t.TrackedServes(), s);
    }
  }

  lemma {:induction false} ServeLeaves(t: State, s: ServeId) returns (ts: seq<State>, es: seq<Step>)
    requires CountsAgree(t) && s in t.TrackedServes()
    ensures IsPath(ts, es) && ts[0] == t && ServesMove(t, ts[|es|])
    ensures |ts[|es|].TrackedServes()| < |t.TrackedServes()|
    decreases Rank(t.serves[s].phase)
  {
    hide Enabled, Apply;
    var e := Leaves(t.serves[s].phase, s);
    LeaveStep(t, s);
    ts, es := [t], [];
    Extend(ts, es, e);
    ts, es := [t, Apply(t, e)], [e];
    if s in Apply(t, e).TrackedServes() {
      var us, fs := ServeLeaves(Apply(t, e), s);
      CardinalityMonotone(Apply(t, e).TrackedServes(), t.TrackedServes());
      Join(ts, es, us, fs);
      ts, es := ts + us[1..], es + fs;
    }
  }

  lemma {:induction false} CardinalityMonotone<T>(a: set<T>, b: set<T>)
    requires a <= b
    ensures |a| <= |b|
  {
    assert b == a + (b - a);
  }

  lemma {:induction false} ServesDrain(t: State) returns (ts: seq<State>, es: seq<Step>)
    requires CountsAgree(t)
    ensures IsPath(ts, es) && ts[0] == t && ServesMove(t, ts[|es|])
    ensures ts[|es|].TrackedServes() == {}
    decreases |t.TrackedServes()|
  {
    hide Enabled, Apply;
    if t.TrackedServes() == {} {
      return [t], [];
    }
    var s :| s in t.TrackedServes();
    ts, es := ServeLeaves(t, s);
    var us, fs := ServesDrain(ts[|es|]);
    Join(ts, es, us, fs);
    ts, es := ts + us[1..], es + fs;
  }

  // ---------------------------------------------------------------- every tracked connection can leave

  /** Only tracked connections end from t to u. */
  ghost predicate ConnsLeave(t: State, u: State) {
    && CountsAgree(u) && u.shutdowns == t.shutdowns && u.handles.Keys == t.handles.Keys
    && forall h :: h in t.handles && !t.handles[h].Tracked? ==> u.handles[h] == t.handles[h]
  }

  lemma ConnLeaves(t: State, h: HandleId)
    requires CountsAgree(t) && h in t.TrackedHandles()
    ensures Enabled(t, UntrackConn(h)) && ConnsLeave(t, Apply(t, UntrackConn(h)))
    ensures |Apply(t, UntrackConn(h)).TrackedHandles()| < |t.TrackedHandles()|
  {
    TrackedChange(t, UntrackConn(h));
    CountsStep(t, UntrackConn(h));
    Cardinality(t.TrackedHandles(), h);
  }

  lemma {:induction false} ConnsDrain(t: State) returns (ts: seq<State>, es: seq<Step>)
    requires CountsAgree(t)
    ensures IsPath(ts, es) && ts[0] == t && ConnsLeave(t, ts[|es|])
    ensures ts[|es|].TrackedHandles() == {}
    decreases |t.TrackedHandles()|
  {
    hide Enabled, Apply;
    ts, es := [t], [];
    if h :| h in t.TrackedHandles() {
      ConnLeaves(t, h);
      var u := Apply(t, UntrackConn(h));
      Extend(ts, es, UntrackConn(h));
      var us, fs := ConnsDrain(u);
      Join([t, u], [UntrackConn(h)], us, fs);
      ts, es := [t, u] + us[1..], [UntrackConn(h)] + fs;
    }
  }

  // ---------------------------------------------------------------- Shutdown

  ghost predicate Untracked(t: State, h: HandleId) {
    h in t.handles && (t.handles[h].Handshaking? || t.handles[h].Ready?)
  }

  /** The Shutdown call d has been told `finished`. */
  ghost predicate ShutdownDone(t: State, d: ShutdownId) {
    d in t.shutdowns && t.shutdowns[d].phase.Done?
  }

  lemma ShutdownBegins(t: State, d: ShutdownId)
    requires CountsAgree(t) && d !in t.shutdowns
    ensures Enabled(t, ShutdownServer(d))
    ensures var u := Apply(t, ShutdownServer(d));
      CountsAgree(u) && u.handles == t.handles && d in u.shutdowns && u.shutdowns[d].phase.WaitListeners?
  {
    CountsStep(t, ShutdownServer(d));
  }

  lemma ListenersWaited(t: State, d: ShutdownId)
    requires CountsAgree(t) && t.TrackedServes() == {} && d in t.shutdowns && t.shutdowns[d].phase.WaitListeners?
    ensures Enabled(t, WaitedListeners(d))
    ensures var u := Apply(t, WaitedListeners(d));
      CountsAgree(u) && u.handles == t.handles && d in u.shutdowns && u.shutdowns[d].phase.WaitConns?
  {
    CountsStep(t, WaitedListeners(d));
  }

  lemma ConnsWaited(t: State, d: ShutdownId)
    requires CountsAgree(t) && t.TrackedHandles() == {} && d in t.shutdowns && t.shutdowns[d].phase.WaitConns?
    ensures Enabled(t, WaitedConns(d))
    ensures Apply(t, WaitedConns(d)).handles == t.handles && ShutdownDone(Apply(t, WaitedConns(d)), d)
  {
  }

  /**
   From every state a Shutdown can finish while any connection not yet tracked at the
   call is still where it was.
   */
  lemma HandshakeOutlivesShutdown(t: State, d: ShutdownId, h: HandleId) returns (ts: seq<State>, es: seq<Step>)
    requires CountsAgree(t) && d !in t.shutdowns && Untracked(t, h)
    ensures IsPath(ts, es) && ts[0] == t && es != [] && es[0] == ShutdownServer(d)
    ensures ShutdownDone(ts[|es|], d)
    ensures h in ts[|es|].handles && ts[|es|].handles[h] == t.handles[h]
  {
    hide Enabled, Apply, CountsAgree;
    ShutdownBegins(t, d);
    var t1 := Apply(t, ShutdownServer(d));
    Extend([t], [], ShutdownServer(d));
    var us, fs := ServesDrain(t1);
    ListenersWaited(us[|fs|], d);
    Extend(us, fs, WaitedListeners(d));
    var t2 := Apply(us[|fs|], WaitedListeners(d));
    var vs, gs := ConnsDrain(t2);
    ConnsWaited(vs[|gs|], d);
    Extend(vs, gs, WaitedConns(d));
    ts, es := [t, t1], [ShutdownServer(d)];
    us, fs := us + [t2], fs + [WaitedListeners(d)];
    Join(ts, es, us, fs);
    ts, es := ts + us[1..], es + fs;
    vs, gs := vs + [Apply(vs[|gs|], WaitedConns(d))], gs + [WaitedConns(d)];
    Join(ts, es, vs, gs);
    ts, es := ts + vs[1..], es + gs;
  }

  /** Whenever the Shutdown called now is done, h has ended. */
  ghost predicate ShutdownAwaits(t: State, d: ShutdownId, h: HandleId) {
    forall ts: seq<State>, es: seq<Step> |
      IsPath(ts, es) && ts[0] == t && es != [] && es[0] == ShutdownServer(d) && ShutdownDone(ts[|es|], d) ::
      h in ts[|es|].handles && ts[|es|].handles[h].Finished?
  }

  /** Of the connections alive when it is called, Shutdown waits exactly for those already tracked. */
  lemma ShutdownAwaitsIffTracked(t: State, d: ShutdownId, h: HandleId)
    requires Inv(t) && d !in t.shutdowns && h in t.handles && !t.handles[h].Finished?
    ensures ShutdownAwaits(t, d, h) <==> t.handles[h].Tracked?
  {
    hide Enabled, Apply, Inv;
    if t.handles[h].Tracked? {
      forall ts: seq<State>, es: seq<Step> |
        IsPath(ts, es) && ts[0] == t && es != [] && es[0] == ShutdownServer(d) && ShutdownDone(ts[|es|], d)
        ensures h in ts[|es|].handles && ts[|es|].handles[h].Finished?
      {
        ShutdownWaitsForTracked(ts, es, 0, |es|, d);
      }
    } else {
      InvCounts(t);
      var ts, es := HandshakeOutlivesShutdown(t, d, h);
      assert IsPath(ts, es) && !ts[|es|].handles[h].Finished?;
    }
  }

  lemma InvCounts(t: State)
    requires Inv(t)
    ensures CountsAgree(t) && ConnsAgree(t)
  {
  }

  // ---------------------------------------------------------------- Close

  /** Only another Close adds to the connections that have been closed. */
  lemma {:induction false} ClosedConnsKept(ts: seq<State>, es: seq<Step>, k: nat)
    requires IsPath(ts, es) && 1 <= k <= |es| && es[0].CloseServer?
    ensures ts[0].core.closedConns + ts[0].core.conns <= ts[k].core.closedConns
    ensures (forall j :: 1 <= j < k ==> !es[j].CloseServer?) ==>
              ts[k].core.closedConns == ts[0].core.closedConns + ts[0].core.conns
  {
    hide Enabled, Apply;
    assert ts[k - 1 + 1] == Apply(ts[k - 1], es[k - 1]);
    ClosedConnsChange(ts[k - 1], es[k - 1]);
    if k > 1 {
      ClosedConnsKept(ts, es, k - 1);
    }
  }

  /** A Close closes, of the connections alive when it is called, exactly those tracked, until the next Close. */
  lemma CloseClosesExactlyTracked(ts: seq<State>, es: seq<Step>, h: HandleId)
    requires IsPath(ts, es) && Inv(ts[0]) && es != [] && es[0].CloseServer?
    requires forall j :: 1 <= j < |es| ==> !es[j].CloseServer?
    requires h in ts[0].handles && !ts[0].handles[h].Finished?
    ensures h in ts[|es|].core.closedConns <==> ts[0].handles[h].Tracked?
  {
    hide Enabled, Apply, Inv;
    InvCounts(ts[0]);
    ClosedConnsKept(ts, es, |es|);
    assert h in ts[0].TrackedHandles() <==> ts[0].handles[h].Tracked?;
  }

  lemma HandshakeCompletes(t: State, h: HandleId) returns (ts: seq<State>, es: seq<Step>)
    requires Untracked(t, h)
    ensures IsPath(ts, es) && ts[0] == t && forall j :: 0 <= j < |es| ==> !es[j].CloseServer?
    ensures h in ts[|es|].TrackedHandles()
  {
    if t.handles[h].Ready? {
      ts, es := [t, Apply(t, TrackConn(h))], [TrackConn(h)];
    } else {
      var u := Apply(t, Handshake(h, true));
      ts, es := [t, u, Apply(u, TrackConn(h))], [Handshake(h, true), TrackConn(h)];
    }
  }

  /** From every state: a connection not yet tracked at a Close can be served, unclosed, after it. */
  lemma HandshakeOutlivesClose(t: State, h: HandleId) returns (ts: seq<State>, es: seq<Step>)
    requires Inv(t) && Untracked(t, h)
    ensures IsPath(ts, es) && ts[0] == t && es != [] && es[0].CloseServer?
    ensures h in ts[|es|].TrackedHandles() && h !in ts[|es|].core.closedConns
  {
    hide Enabled, Apply, Inv;
    CloseEnabled(t);
    var u := Apply(t, CloseServer);
    Extend([t], [], CloseServer);
    var us, fs := HandshakeCompletes(u, h);
    Join([t, u], [CloseServer], us, fs);
    ts, es := [t, u] + us[1..], [CloseServer] + fs;
    assert forall j :: 1 <= j < |es| ==> es[j] == fs[j - 1];
    CloseClosesExactlyTracked(ts, es, h);
  }

  lemma CloseEnabled(t: State)
    ensures Enabled(t, CloseServer)
    ensures Apply(t, CloseServer).handles == t.handles
  {
  }

  /** Whatever follows the Close called now, h has been closed. */
  ghost predicate CloseReaches(t: State, h: HandleId) {
    forall ts: seq<State>, es: seq<Step> | IsPath(ts, es) && ts[0] == t && es != [] && es[0].CloseServer? ::
      h in ts[|es|].core.closedConns
  }

  /** Of the connections alive when it is called, Close closes exactly those already tracked. */
  lemma CloseReachesIffTracked(t: State, h: HandleId)
    requires Inv(t) && h in t.handles && !t.handles[h].Finished?
    ensures CloseReaches(t, h) <==> t.handles[h].Tracked?
  {
    hide Enabled, Apply, Inv;
    InvCounts(t);
    assert h in t.TrackedHandles() <==> t.handles[h].Tracked?;
    if t.handles[h].Tracked? {
      forall ts: seq<State>, es: seq<Step> | IsPath(ts, es) && ts[0] == t && es != [] && es[0].CloseServer?
        ensures h in ts[|es|].core.closedConns
      {
        ClosedConnsKept(ts, es, |es|);
      }
    } else {
      var ts, es := HandshakeOutlivesClose(t, h);
      assert IsPath(ts, es) && h !in ts[|es|].core.closedConns;
    }
  }
}
