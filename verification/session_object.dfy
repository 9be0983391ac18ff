/**
 The session object with the fields of the source. The ghost history is what has happened
 to it so far; `Valid` ties the fields to that history, and the methods say what they
 answer and whom they start in terms of it.
 */
module SessionObject {
  import opened Common
  import opened Payload
  import opened SessionMachine

  /** What one turn of the request loop comes to. */
  datatype Outcome =
    | Replied(ok: bool)
    | Broke(ch: nat)                       // notified ch of a break, then replied true
    | Silent(sent: Option<(nat, string)>)  // no reply; the signal went to a channel or was kept or dropped
    | Waits(win: Window)                   // the loop waits to send this on winch
    | Panicked                             // a payload that overflows

  /** What the client, the handlers and the loop's stack have seen of the session. */
  datatype Wire = Wire(
    seen: nat,
    pending: Option<nat>,      // the request being answered, while the loop waits
    waiting: Option<Window>,   // the window it waits to send
    replies: seq<Reply>,
    launches: seq<Launch>,
    received: seq<Window>,
    winchCloses: nat,
    delivered: seq<(nat, string)>,
    breaks: seq<nat>,
    statuses: seq<Uint32>)
  {
    function Turn(out: Outcome, launch: Option<Launch>): Wire {
      var w := this.(seen := seen + 1, launches := launches + if launch.Some? then [launch.value] else []);
      match out
      case Replied(ok) => w.(replies := replies + [Reply(seen, ok)])
      case Broke(ch) => w.(replies := replies + [Reply(seen, true)], breaks := breaks + [ch])
      case Silent(sent) => w.(delivered := delivered + if sent.Some? then [sent.value] else [])
      case Waits(win) => w.(pending := Some(seen), waiting := Some(win))
      case Panicked => w.(pending := Some(seen))
    }
  }

  ghost function WireOf(s: State): Wire {
    Wire(s.ledger.seen, s.ledger.current, s.tty.blocked, s.ledger.replies, s.setup.launches,
         s.tty.received, s.tty.winchCloses, s.ints.delivered, s.ints.breaks, s.ending.statuses)
  }

  /** The step from s to t gives this outcome and starts this handler. */
  ghost predicate Shows(s: State, t: State, out: Outcome, launch: Option<Launch>) {
    WireOf(t) == WireOf(s).Turn(out, launch) && (out.Panicked? <==> t.crashed)
  }

  /** What the requests before r prescribe for it. */
  ghost predicate Meets(cfg: Config, rs: seq<Request>, r: Request, out: Outcome, launch: Option<Launch>) {
    && (out.Silent? <==> r.Signal?)
    && (out.Broke? ==> r.BreakReq?)
    && (out.Replied? ==> RightAnswer(cfg, rs, r, out.ok))
    && (out.Waits? <==> r.WindowChange? && HasPty(cfg, rs) && ParseWinchRequest(r.payload).Some?)
    && (out.Waits? ==> ParseWinchRequest(r.payload) == Some(out.win))
    && (out.Panicked? <==>
          r.PtyReq? && !AnyAcceptable(cfg, rs) && !HasPty(cfg, rs) && ParsePtyRequest(r.payload).Panic?)
    && RightLaunch(cfg, rs, r, launch)
  }

  /** A break or a signal goes to the channel registered at the time. */
  ghost predicate InterruptsMeet(es: seq<Event>, r: Request, out: Outcome) {
    && (r.BreakReq? ==> out == if BreakChannel(es).Some? then Broke(BreakChannel(es).value) else Replied(false))
    && (r.Signal? ==>
          out == Silent(if SignalChannel(es).Some? then Some((SignalChannel(es).value, r.name)) else None))
  }

  /** A handler starts exactly for the first acceptable request, with all that was asked for before it. */
  ghost predicate RightLaunch(cfg: Config, rs: seq<Request>, r: Request, launch: Option<Launch>) {
    && (launch.Some? <==> Acceptable(cfg, r) && !AnyAcceptable(cfg, rs))
    && (launch.Some? ==>
          && launch.value.rawCmd == (if r.Start? then r.command else "")
          && launch.value.subsystem == LastSubsystem(rs + [r])
          && launch.value.env == Envs(rs)
          && (launch.value.term.Some? <==> HasPty(cfg, rs)))
  }

  lemma LaunchIsRight(cfg: Config, s: State, rs: seq<Request>, r: Request, launch: Option<Launch>)
    requires StartAgrees(cfg, s, rs) && PtyAgrees(cfg, s, rs)
    requires Handle(cfg, s, r).setup.launches == s.setup.launches + if launch.Some? then [launch.value] else []
    ensures RightLaunch(cfg, rs, r, launch)
  {
    hide Handle, AnyAcceptable, HasPty;
    StartEffect(cfg, s, r);
    assert (rs + [r])[..|rs|] == rs;
    var before, after := s.setup.launches, Handle(cfg, s, r).setup.launches;
    assert launch.Some? <==> |after| == |before| + 1;
    if launch.Some? {
      assert after[|before|] == launch.value;
    }
  }

  /** The loop waits exactly for a window change of an accepted pty, and for that window. */
  lemma WaitEffect(cfg: Config, s: State, r: Request)
    requires s.tty.blocked == None
    ensures Handle(cfg, s, r).tty.blocked ==
            if r.WindowChange? && s.tty.pty.Some? then ParseWinchRequest(r.payload) else None
  {
    hide ParsePtyRequest, ParseWinchRequest;
  }

  /** Only a signal is left without a reply, and only a break notifies the break channel. */
  lemma OutcomeKind(cfg: Config, s: State, r: Request, out: Outcome, launch: Option<Launch>)
    requires Enabled(s, Incoming(r)) && s.tty.blocked == None && Shows(s, Handle(cfg, s, r), out, launch)
    ensures (out.Silent? <==> r.Signal?) && (out.Broke? ==> r.BreakReq?)
  {
    ReplyEffect(cfg, s, r);
    OtherEffect(cfg, s, Incoming(r));
    hide Handle;
    var v, w := WireOf(s), WireOf(Handle(cfg, s, r));
    assert out.Replied? || out.Broke? <==> |w.replies| == |v.replies| + 1;
    assert out.Broke? <==> |w.breaks| == |v.breaks| + 1;
    assert out.Waits? || out.Panicked? <==> w.pending.Some?;
  }

  lemma OutcomeMeets(cfg: Config, s: State, rs: seq<Request>, r: Request, out: Outcome, launch: Option<Launch>)
    requires StartAgrees(cfg, s, rs) && PtyAgrees(cfg, s, rs) && Enabled(s, Incoming(r))
    requires Shows(s, Handle(cfg, s, r), out, launch)
    ensures Meets(cfg, rs, r, out, launch)
  {
    hide Handle, ParsePtyRequest, ParseWinchRequest, AnyAcceptable, HasPty, RightAnswer, RightLaunch;
    OutcomeKind(cfg, s, r, out, launch);
    if out.Replied? {
      NewAnswerIsRight(cfg, s, rs, r, out.ok);
    }
    WaitEffect(cfg, s, r);
    CrashEffect(cfg, s, Incoming(r));
    LaunchIsRight(cfg, s, rs, r, launch);
  }

  class Session {
    const cfg: Config
    var handled: bool
    var exited: bool
    var pty: Option<Pty>
    var winch: seq<Window>       // what the channel buffers
    var env: seq<string>
    var rawCmd: string
    var subsystem: string
    var sigCh: Option<nat>
    var sigBuf: seq<string>
    var breakCh: Option<nat>
    var agentRequested: bool     // kept in the session's context
    ghost var state: State
    ghost var history: seq<Event>

    /** The fields are those of s. */
    ghost predicate Mirrors(s: State)
      reads this
    {
      && handled == s.setup.handled && env == s.setup.env
      && rawCmd == s.setup.rawCmd && subsystem == s.setup.subsystem
      && pty == s.tty.pty && winch == s.tty.queue
      && sigCh == s.ints.sigCh && sigBuf == s.ints.sigBuf && breakCh == s.ints.breakCh
      && exited == s.ending.exited && agentRequested == s.agent
    }

    ghost predicate Valid()
      reads this
    {
      Mirrors(state) && Agrees(cfg, state, history)
    }

    constructor (cfg: Config)
      ensures Valid() && this.cfg == cfg && history == [] && state == INIT
    {
      this.cfg := cfg;
      handled, exited, agentRequested := false, false, false;
      pty, winch, env, rawCmd, subsystem := None, [], [], "", "";
      sigCh, sigBuf, breakCh := None, [], None;
      state, history := INIT, [];
      InitAgrees(cfg);
    }

    ghost method Record(e: Event)
      requires Agrees(cfg, state, history) && Enabled(state, e)
      modifies this`state, this`history
      ensures state == Apply(cfg, old(state), e) && history == old(history) + [e]
      ensures Agrees(cfg, state, history)
    {
      hide Agrees, Apply, Enabled;
      var es := history + [e];
      assert es[..|es| - 1] == history;
      AgreesStep(cfg, state, e, es);
      state, history := Apply(cfg, state, e), es;
    }

    method HandleStart(command: string, allowed: bool) returns (out: Outcome, launch: Option<Launch>)
      requires Mirrors(state) && !state.crashed
      modifies this`rawCmd, this`handled
      ensures Mirrors(SessionMachine.HandleStart(state, command, allowed))
      ensures Shows(state, SessionMachine.HandleStart(state, command, allowed), out, launch)
    {
      if handled {
        return Replied(false), None;
      }
      rawCmd := command;
      if !allowed {
        rawCmd := "";
        return Replied(false), None;
      }
      handled := true;
      var term := if pty.Some? then Some(pty.value.term) else None;
      return Replied(true), Some(Launch(rawCmd, subsystem, env, term));
    }

    method HandleSubsystem(name: string, allowed: bool) returns (out: Outcome, launch: Option<Launch>)
      requires Mirrors(state) && !state.crashed
      modifies this`subsystem, this`rawCmd, this`handled
      ensures Mirrors(SessionMachine.HandleSubsystem(cfg, state, name, allowed))
      ensures Shows(state, SessionMachine.HandleSubsystem(cfg, state, name, allowed), out, launch)
    {
      if handled {
        return Replied(false), None;
      }
      subsystem := name;
      if !allowed {
        rawCmd := "";
        return Replied(false), None;
      }
      if name !in cfg.subsystems {
        return Replied(false), None;
      }
      handled := true;
      var term := if pty.Some? then Some(pty.value.term) else None;
      return Replied(true), Some(Launch(rawCmd, subsystem, env, term));
    }

    method HandlePty(payload: seq<Byte>, allowed: bool) returns (out: Outcome)
      requires Mirrors(state) && !state.crashed
      modifies this`pty, this`winch
      ensures Mirrors(SessionMachine.HandlePty(state, payload, allowed))
      ensures Shows(state, SessionMachine.HandlePty(state, payload, allowed), out, None)
    {
      hide ParsePtyRequest;
      if handled || pty.Some? {
        return Replied(false);
      }
      match ParsePtyRequest(payload) {
        case Refused => out := Replied(false);
        case Panic => out := Panicked;
        case Parsed(req, _) =>
          if !allowed {
            return Replied(false);
          }
          pty := Some(req);
          winch := [req.window];
          out := Replied(true);
      }
    }

    method HandleWindowChange(payload: seq<Byte>) returns (out: Outcome)
      requires Mirrors(state) && !state.crashed
      modifies this`pty
      ensures Mirrors(SessionMachine.HandleWindowChange(state, payload))
      ensures Shows(state, SessionMachine.HandleWindowChange(state, payload), out, None)
    {
      hide ParseWinchRequest;
      if pty == None {
        return Replied(false);
      }
      var win := ParseWinchRequest(payload);
      if win == None {
        return Replied(false);
      }
      pty := Some(pty.value.(window := win.value));
      out := Waits(win.value);
    }

    method HandleSignal(name: string) returns (sent: Option<(nat, string)>)
      requires Mirrors(state) && !state.crashed
      modifies this`sigBuf
      ensures Mirrors(SessionMachine.HandleSignal(state, name))
      ensures Shows(state, SessionMachine.HandleSignal(state, name), Silent(sent), None)
    {
      sent := None;
      if sigCh.Some? {
        sent := Some((sigCh.value, name));
      } else if |sigBuf| < MAX_SIG_BUF {
        sigBuf := sigBuf + [name];
      }
    }

    method HandleOther(r: Request) returns (out: Outcome)
      requires Mirrors(state) && !state.crashed && (r.Env? || r.AgentForward? || r.BreakReq? || r.Other?)
      modifies this`env, this`agentRequested
      ensures Mirrors(Handle(cfg, state, r))
      ensures Shows(state, Handle(cfg, state, r), out, None)
    {
      match r {
        case Env(key, value) =>
          if handled {
            return Replied(false);
          }
          env := env + [key + "=" + value];
          out := Replied(true);
        case AgentForward =>
          agentRequested := true;
          out := Replied(true);
        case BreakReq => out := if breakCh.Some? then Broke(breakCh.value) else Replied(false);
        case Other => out := Replied(false);
      }
    }

    method Dispatch(r: Request) returns (out: Outcome, launch: Option<Launch>)
      requires Mirrors(state) && !state.crashed
      modifies this`handled, this`pty, this`winch, this`env, this`rawCmd, this`subsystem, this`sigBuf,
               this`agentRequested
      ensures Mirrors(Handle(cfg, state, r)) && Shows(state, Handle(cfg, state, r), out, launch)
    {
      hide SessionMachine.HandleStart, SessionMachine.HandleSubsystem, SessionMachine.HandlePty;
      hide SessionMachine.HandleWindowChange, SessionMachine.HandleSignal, Shows, Mirrors;
      launch := None;
      match r {
        case Start(_, command, allowed) => out, launch := HandleStart(command, allowed);
        case Subsystem(name, allowed) => out, launch := HandleSubsystem(name, allowed);
        case Signal(name) =>
          var sent := HandleSignal(name);
          out := Silent(sent);
        case PtyReq(payload, allowed) => out := HandlePty(payload, allowed);
        case WindowChange(payload) => out := HandleWindowChange(payload);
        case _ => out := HandleOther(r);
      }
    }

    /** One turn of the loop over reqs: the reply and the handler started are those the earlier requests prescribe. */
    method HandleRequest(r: Request) returns (out: Outcome, launch: Option<Launch>)
      requires Valid() && Enabled(state, Incoming(r))
      modifies this
      ensures Valid() && history == old(history) + [Incoming(r)]
      ensures Meets(cfg, Requests(old(history)), r, out, launch)
      ensures InterruptsMeet(old(history), r, out)
      ensures state == Handle(cfg, old(state), r) && Shows(old(state), state, out, launch)
    {
      hide Handle, Apply, Enabled, Shows, Meets, InterruptsMeet, Agrees;
      ghost var s := state;
      IncomingFacts(cfg, s, r);
      out, launch := Dispatch(r);
      OutcomeFollows(cfg, s, history, r, out, launch);
      Record(Incoming(r));
    }

    /** Only the first Exit sends a status; it succeeds exactly when the send and the Close of the channel do. */
    method Exit(code: int, sendOk: bool, closeOk: bool) returns (ok: bool, sent: Option<Uint32>)
      requires Valid() && !state.crashed
      modifies this`exited, this`state, this`history
      ensures Valid() && history == old(history) + [Event.Exit(code, sendOk)]
      ensures sent == if FirstExit(old(history)) == [] then Some(code % U32) else None
      ensures ok <==> FirstExit(old(history)) == [] && sendOk && closeOk
      ensures state == Apply(cfg, old(state), Event.Exit(code, sendOk))
    {
      hide Agrees, Apply, Enabled;
      ExitFacts(cfg, state, history, code, sendOk);
      Record(Event.Exit(code, sendOk));
      if exited {
        return false, None;
      }
      exited := true;
      sent := Some(code % U32);
      if !sendOk {
        return false, sent;
      }
      ok := closeOk;
    }

    /** The send on winch finds room. */
    method FinishSend(win: Window)
      requires Valid() && Enabled(state, SendWindow) && state.tty.blocked == Some(win)
      modifies this`winch, this`state, this`history
      ensures Valid() && history == old(history) + [SendWindow]
      ensures state == Apply(cfg, old(state), SendWindow)
    {
      hide Agrees;
      Record(SendWindow);
      winch := winch + [win];
    }

    /** The handler receives from the channel that Pty gave it. */
    method Receive() returns (win: Window)
      requires Valid() && Enabled(state, TakeWindow)
      modifies this`winch, this`state, this`history
      ensures Valid() && history == old(history) + [TakeWindow]
      ensures state == Apply(cfg, old(state), TakeWindow) && state.tty.received == old(state.tty.received) + [win]
    {
      hide Agrees;
      Record(TakeWindow);
      win := winch[0];
      winch := winch[1..];
    }

    /** The loop returns: the deferred close of winch was registered exactly if a pty was accepted. */
    method EndLoop() returns (closed: bool)
      requires Valid() && Enabled(state, EndRequests)
      modifies this`state, this`history
      ensures Valid() && history == old(history) + [EndRequests]
      ensures state == Apply(cfg, old(state), EndRequests)
      ensures closed <==> HasPty(cfg, Requests(old(history)))
    {
      hide StartAgrees, RepliesAgree, SignalsAgree, ExitAgrees;
      closed := pty.Some?;
      Record(EndRequests);
    }

    method Signals(ch: Option<nat>)
      requires Valid() && !state.crashed
      modifies this`sigCh, this`state, this`history
      ensures Valid() && history == old(history) + [Event.Signals(ch)]
      ensures state == Apply(cfg, old(state), Event.Signals(ch))
    {
      hide Agrees;
      Record(Event.Signals(ch));
      sigCh := ch;
    }

    method Break(ch: Option<nat>)
      requires Valid() && !state.crashed
      modifies this`breakCh, this`state, this`history
      ensures Valid() && history == old(history) + [Event.Break(ch)]
      ensures state == Apply(cfg, old(state), Event.Break(ch))
    {
      hide Agrees;
      Record(Event.Break(ch));
      breakCh := ch;
    }

    method Step(e: Event, w: Wire) returns (v: Wire)
      requires Valid() && Enabled(state, e) && w == WireOf(state)
      modifies this
      ensures Valid() && history == old(history) + [e] && state == Apply(cfg, old(state), e)
      ensures v == WireOf(state)
    {
      hide Handle, Mirrors;
      hide StartAgrees, RepliesAgree, SignalsAgree, HasPty;
      v := w;
      match e {
        case Incoming(r) =>
          var out, launch := HandleRequest(r);
          v := w.Turn(out, launch);
        case SendWindow =>
          FinishSend(w.waiting.value);
          v := w.(replies := w.replies + [Reply(w.pending.value, true)], pending := None, waiting := None);
        case TakeWindow =>
          var win := Receive();
          v := w.(received := w.received + [win]);
        case EndRequests =>
          var closed := EndLoop();
          v := w.(winchCloses := w.winchCloses + if closed then 1 else 0);
        case Exit(code, sendOk) =>
          var _, sent := Exit(code, sendOk, true);
          v := w.(statuses := w.statuses + if sent.Some? then [sent.value] else []);
        case Signals(ch) => Signals(ch);
        case Break(ch) => Break(ch);
      }
    }

    /**
     The request loop and everything that runs beside it, in the order the events happen.
     What comes out is a function of the requests and calls alone.
     */
    method Run(es: seq<Event>, ghost ss: seq<State>) returns (w: Wire)
      requires Valid() && state == INIT && history == [] && IsRun(cfg, ss, es)
      modifies this
      ensures Valid() && history == es
      ensures RepliesFollow(cfg, Requests(es), w) && LaunchesFollow(cfg, Requests(es), w)
      ensures WindowsFollow(cfg, Requests(es), w)
      ensures FieldsFollow(cfg, Requests(es), env, rawCmd, subsystem)
      ensures sigBuf == First(128, Unclaimed(es)) && sigCh == SignalChannel(es) && breakCh == BreakChannel(es)
      ensures w.delivered == Claimed(es) && w.breaks == Broken(es)
      ensures w.statuses == FirstExit(es) && |w.statuses| <= 1
    {
      hide Enabled, Apply, WireOf, RepliesFollow, LaunchesFollow, WindowsFollow, FieldsFollow;
      hide Mirrors, StartAgrees, PtyAgrees, RepliesAgree;
      w := Wire(0, None, None, [], [], [], 0, [], [], []);
      InitWire();
      for k := 0 to |es|
        invariant Valid() && history == es[..k] && state == ss[k] && w == WireOf(state)
      {
        assert Enabled(ss[k], es[k]) && ss[k + 1] == Apply(cfg, ss[k], es[k]);
        w := Step(es[k], w);
      }
      assert es[..|es|] == es;
      Explain(w);
    }

    lemma Explain(w: Wire)
      requires Valid() && w == WireOf(state)
      ensures RepliesFollow(cfg, Requests(history), w) && LaunchesFollow(cfg, Requests(history), w)
      ensures WindowsFollow(cfg, Requests(history), w)
      ensures FieldsFollow(cfg, Requests(history), env, rawCmd, subsystem)
      ensures sigBuf == First(MAX_SIG_BUF, Unclaimed(history))
      ensures sigCh == SignalChannel(history) && breakCh == BreakChannel(history)
      ensures w.delivered == Claimed(history) && w.breaks == Broken(history)
      ensures w.statuses == FirstExit(history) && |w.statuses| <= 1
    {
      StartExplained(cfg, state, Requests(history));
      PtyExplained(cfg, state, Requests(history));
    }
  }

  // ---------------------------------------------------------------- what the whole history prescribes

  /** Every request but a signal is answered once, in order and rightly; the last may be pending. */
  ghost predicate RepliesFollow(cfg: Config, rs: seq<Request>, w: Wire) {
    && Indices(w.replies) + (if w.pending.Some? then [w.pending.value] else []) == Answerable(rs)
    && forall k :: 0 <= k < |w.replies| ==>
         && w.replies[k].index < |rs|
         && RightAnswer(cfg, rs[..w.replies[k].index], rs[w.replies[k].index], w.replies[k].ok)
  }

  /** One handler starts for the first acceptable request, and none without one. */
  ghost predicate LaunchesFollow(cfg: Config, rs: seq<Request>, w: Wire) {
    && (!AnyAcceptable(cfg, rs) ==> w.launches == [])
    && (AnyAcceptable(cfg, rs) ==> |w.launches| == 1)
    && forall i: nat :: IsFirst(cfg, rs, i) ==>
         && |w.launches| == 1
         && w.launches[0].env == Envs(rs[..i])
         && w.launches[0].rawCmd == (if rs[i].Start? then rs[i].command else "")
         && w.launches[0].subsystem == LastSubsystem(rs[..i + 1])
  }

  /** The handler receives a prefix of the windows asked for, and the channel is closed at most once. */
  ghost predicate WindowsFollow(cfg: Config, rs: seq<Request>, w: Wire) {
    && w.winchCloses <= (if HasPty(cfg, rs) then 1 else 0)
    && (!HasPty(cfg, rs) ==> w.received == [])
    && forall i: nat :: IsFirstPty(cfg, rs, i) ==> w.received <= Windows(rs, i)
  }

  /** What Environ, RawCommand and Subsystem report. */
  ghost predicate FieldsFollow(cfg: Config, rs: seq<Request>, env: seq<string>, rawCmd: string, subsystem: string) {
    && (!AnyAcceptable(cfg, rs) ==> env == Envs(rs) && rawCmd == "" && subsystem == LastSubsystem(rs))
    && forall i: nat :: IsFirst(cfg, rs, i) ==>
         && env == Envs(rs[..i])
         && rawCmd == (if rs[i].Start? then rs[i].command else "")
         && subsystem == LastSubsystem(rs[..i + 1])
  }

  lemma InitWire()
    ensures WireOf(INIT) == Wire(0, None, None, [], [], [], 0, [], [], [])
  {
  }

  lemma StartExplained(cfg: Config, s: State, rs: seq<Request>)
    requires StartAgrees(cfg, s, rs)
    ensures LaunchesFollow(cfg, rs, WireOf(s))
    ensures FieldsFollow(cfg, rs, s.setup.env, s.setup.rawCmd, s.setup.subsystem)
  {
    if AnyAcceptable(cfg, rs) {
      var i := SomeFirst(cfg, rs);
      assert LaunchedBy(s.setup, s.tty, rs, i);
    }
    assert forall i: nat :: IsFirst(cfg, rs, i) ==> LaunchedBy(s.setup, s.tty, rs, i);
  }

  lemma PtyExplained(cfg: Config, s: State, rs: seq<Request>)
    requires PtyAgrees(cfg, s, rs)
    ensures WindowsFollow(cfg, rs, WireOf(s))
  {
    hide ParsePtyRequest, ParseWinchRequest;
    forall i: nat | IsFirstPty(cfg, rs, i)
      ensures s.tty.received <= Windows(rs, i)
    {
      assert TakenBy(s.tty, rs, i);
    }
  }

  /** Where a break or a signal goes. */
  lemma InterruptOutcome(cfg: Config, s: State, r: Request, out: Outcome, launch: Option<Launch>)
    requires Shows(s, Handle(cfg, s, r), out, launch) && Enabled(s, Incoming(r)) && s.tty.blocked == None
    requires r.BreakReq? || r.Signal?
    ensures r.BreakReq? ==>
              out == if s.ints.breakCh.Some? then Broke(s.ints.breakCh.value) else Replied(false)
    ensures r.Signal? ==>
              out == Silent(if s.ints.sigCh.Some? then Some((s.ints.sigCh.value, r.name)) else None)
  {
    OutcomeKind(cfg, s, r, out, launch);
    var v, w := WireOf(s), WireOf(Handle(cfg, s, r));
    if r.BreakReq? {
      assert |w.replies| == |v.replies| + 1;
      assert w.replies[|v.replies|].ok == s.ints.breakCh.Some?;
      assert s.ints.breakCh.Some? ==> |w.breaks| == |v.breaks| + 1 && w.breaks[|v.breaks|] == s.ints.breakCh.value;
    } else if s.ints.sigCh.Some? {
      assert |w.delivered| == |v.delivered| + 1 && w.delivered[|v.delivered|] == (s.ints.sigCh.value, r.name);
    }
  }

  lemma IncomingFacts(cfg: Config, s: State, r: Request)
    requires Enabled(s, Incoming(r))
    ensures !s.crashed && s.ledger.current == None && Apply(cfg, s, Incoming(r)) == Handle(cfg, s, r)
  {
    hide Handle;
  }

  lemma OutcomeFollows(cfg: Config, s: State, es: seq<Event>, r: Request, out: Outcome, launch: Option<Launch>)
    requires Agrees(cfg, s, es) && Enabled(s, Incoming(r)) && Shows(s, Handle(cfg, s, r), out, launch)
    ensures Meets(cfg, Requests(es), r, out, launch) && InterruptsMeet(es, r, out)
  {
    assert s.tty.blocked == None;
    hide Handle, Shows, Meets, StartAgrees, PtyAgrees, RepliesAgree, ExitAgrees;
    OutcomeMeets(cfg, s, Requests(es), r, out, launch);
    if r.BreakReq? || r.Signal? {
      InterruptOutcome(cfg, s, r, out, launch);
    }
  }

  /** What an Exit finds and does. */
  lemma ExitFacts(cfg: Config, s: State, es: seq<Event>, code: int, sendOk: bool)
    requires Agrees(cfg, s, es) && !s.crashed
    ensures Enabled(s, Exit(code, sendOk)) && (s.ending.exited <==> FirstExit(es) != [])
    ensures Apply(cfg, s, Exit(code, sendOk)) == s.(ending := Apply(cfg, s, Exit(code, sendOk)).ending)
    ensures Apply(cfg, s, Exit(code, sendOk)).ending.exited
  {
    hide StartAgrees, PtyAgrees, RepliesAgree, SignalsAgree;
  }
}
