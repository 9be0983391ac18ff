/**
 One SSH session channel: the request loop of section 6 of RFC 4254, interleaved with
 the handler's calls (Exit, Signals, Break) and with the reader of the window channel.
 A callback's verdict travels with the request that asks for it.
 */
module SessionMachine {
  import opened Common
  import opened Payload

  const MAX_SIG_BUF := 128
  const WINCH_CAPACITY := 1

  /** The subsystems that have a handler of their own name. */
  datatype Config = Config(subsystems: set<string>)

  datatype Request =
    | Start(exec: bool, command: string, allowed: bool)  // "shell" or "exec"
    | Subsystem(name: string, allowed: bool)
    | Env(key: string, value: string)
    | Signal(name: string)
    | PtyReq(payload: seq<Byte>, allowed: bool)
    | WindowChange(payload: seq<Byte>)
    | AgentForward
    | BreakReq
    | Other

  datatype Event =
    | Incoming(req: Request)
    | SendWindow                       // the loop's blocked send on winch completes
    | TakeWindow                       // the handler receives from winch
    | EndRequests                      // reqs is closed and the loop returns
    | Exit(code: int, sendOk: bool)
    | Signals(ch: Option<nat>)
    | Break(ch: Option<nat>)

  /** What a handler finds when it starts. */
  datatype Launch = Launch(rawCmd: string, subsystem: string, env: seq<string>, term: Option<seq<Byte>>)

  datatype Reply = Reply(index: nat, ok: bool)  // index: which request it answers

  /** What a handler is started with, and the starts so far. */
  datatype Setup = Setup(
    handled: bool,
    env: seq<string>,
    rawCmd: string,
    subsystem: string,
    launches: seq<Launch>)
  {
    function Launched(term: Option<seq<Byte>>): Setup {
      this.(handled := true, launches := launches + [Launch(rawCmd, subsystem, env, term)])
    }
  }

  /** The pty and its window channel. */
  datatype Terminal = Terminal(
    pty: Option<Pty>,
    queue: seq<Window>,         // buffered in winch
    blocked: Option<Window>,    // the loop waits to send this on winch
    received: seq<Window>,      // what the handler has read from winch
    winchCloses: nat)
  {
    function Term(): Option<seq<Byte>> {
      if pty.Some? then Some(pty.value.term) else None
    }

    /** The windows sent so far: received, buffered, or about to be sent. */
    function Sent(): seq<Window> {
      received + queue + if blocked.Some? then [blocked.value] else []
    }
  }

  /** Requests received and answers given. */
  datatype Ledger = Ledger(
    seen: nat,
    current: Option<nat>,       // request received and not yet answered
    replies: seq<Reply>)
  {
    function Answer(ok: bool): Ledger { this.(replies := replies + [Reply(seen, ok)], seen := seen + 1) }

    function Defer(): Ledger { this.(current := Some(seen), seen := seen + 1) }
  }

  /** Signals and breaks. */
  datatype Interrupts = Interrupts(
    sigCh: Option<nat>,
    sigBuf: seq<string>,
    delivered: seq<(nat, string)>,
    breakCh: Option<nat>,
    breaks: seq<nat>)

  datatype Ending = Ending(exited: bool, statuses: seq<Uint32>, channelClosed: bool)

  datatype State = State(
    setup: Setup,
    tty: Terminal,
    ledger: Ledger,
    ints: Interrupts,
    ending: Ending,
    agent: bool,
    ended: bool,                // the request loop has returned
    crashed: bool)              // the request loop panicked
  {
    function Answer(ok: bool): State { this.(ledger := ledger.Answer(ok)) }
  }

  const INIT := State(Setup(false, [], "", "", []), Terminal(None, [], None, [], 0), Ledger(0, None, []),
                      Interrupts(None, [], [], None, []), Ending(false, [], false), false, false, false)

  predicate Enabled(s: State, e: Event) {
    && !s.crashed
    && match e
       case Incoming(_) => !s.ended && s.ledger.current == None
       case SendWindow => s.tty.blocked.Some? && |s.tty.queue| < WINCH_CAPACITY && s.ledger.current.Some?
       case TakeWindow => s.tty.queue != []
       case EndRequests => !s.ended && s.ledger.current == None
       case _ => true
  }

  function HandleStart(s: State, command: string, allowed: bool): State {
    if s.setup.handled then s.Answer(false)
    else if !allowed then s.(setup := s.setup.(rawCmd := "")).Answer(false)
    else s.(setup := s.setup.(rawCmd := command).Launched(s.tty.Term())).Answer(true)
  }

  function HandleSubsystem(cfg: Config, s: State, name: string, allowed: bool): State {
    if s.setup.handled then s.Answer(false)
    else
      var named := s.setup.(subsystem := name);
      if !allowed then s.(setup := named.(rawCmd := "")).Answer(false)
      else if name !in cfg.subsystems then s.(setup := named).Answer(false)
      else s.(setup := named.Launched(s.tty.Term())).Answer(true)
  }

  function HandlePty(s: State, payload: seq<Byte>, allowed: bool): State {
    if s.setup.handled || s.tty.pty.Some? then s.Answer(false)
    else
      match ParsePtyRequest(payload)
      case Refused => s.Answer(false)
      case Panic => s.(crashed := true, ledger := s.ledger.Defer())
      case Parsed(pty, _) =>
        if !allowed then s.Answer(false)
        else s.(tty := s.tty.(pty := Some(pty), queue := [pty.window])).Answer(true)
  }

  function HandleWindowChange(s: State, payload: seq<Byte>): State {
    if s.tty.pty == None then s.Answer(false)
    else
      var win := ParseWinchRequest(payload);
      if win == None then s.Answer(false)
      else s.(tty := s.tty.(pty := Some(s.tty.pty.value.(window := win.value)), blocked := win),
              ledger := s.ledger.Defer())
  }

  function HandleSignal(s: State, name: string): State {
    var i := s.ints;
    s.(ledger := s.ledger.(seen := s.ledger.seen + 1),
       ints := if i.sigCh.Some? then i.(delivered := i.delivered + [(i.sigCh.value, name)])
               else if |i.sigBuf| < MAX_SIG_BUF then i.(sigBuf := i.sigBuf + [name])
               else i)
  }

  function Handle(cfg: Config, s: State, r: Request): State {
    match r
    case Start(_, command, allowed) => HandleStart(s, command, allowed)
    case Subsystem(name, allowed) => HandleSubsystem(cfg, s, name, allowed)
    case Env(key, value) =>
      if s.setup.handled then s.Answer(false)
      else s.(setup := s.setup.(env := s.setup.env + [key + "=" + value])).Answer(true)
    case Signal(name) => HandleSignal(s, name)
    case PtyReq(payload, allowed) => HandlePty(s, payload, allowed)
    case WindowChange(payload) => HandleWindowChange(s, payload)
    case AgentForward => s.(agent := true).Answer(true)
    case BreakReq =>
      if s.ints.breakCh.Some? then
        s.(ints := s.ints.(breaks := s.ints.breaks + [s.ints.breakCh.value])).Answer(true)
      else s.Answer(false)
    case Other => s.Answer(false)
  }

  function Apply(cfg: Config, s: State, e: Event): State
    requires Enabled(s, e)
  {
    match e
    case Incoming(r) => Handle(cfg, s, r)
    case SendWindow =>
      s.(tty := s.tty.(queue := s.tty.queue + [s.tty.blocked.value], blocked := None),
         ledger := s.ledger.(replies := s.ledger.replies + [Reply(s.ledger.current.value, true)], current := None))
    case TakeWindow =>
      s.(tty := s.tty.(received := s.tty.received + [s.tty.queue[0]], queue := s.tty.queue[1..]))
    case EndRequests =>
      s.(ended := true,
         tty := if s.tty.pty.Some? then s.tty.(winchCloses := s.tty.winchCloses + 1) else s.tty)
    case Exit(code, sendOk) =>
      if s.ending.exited then s
      else s.(ending := Ending(true, s.ending.statuses + [code % U32], s.ending.channelClosed || sendOk))
    case Signals(ch) => s.(ints := s.ints.(sigCh := ch))
    case Break(ch) => s.(ints := s.ints.(breakCh := ch))
  }

  /** A run: ss[k] is the state before es[k]. */
  ghost predicate IsRun(cfg: Config, ss: seq<State>, es: seq<Event>) {
    && |ss| == |es| + 1
    && ss[0] == INIT
    && forall k :: 0 <= k < |es| ==> Enabled(ss[k], es[k]) && ss[k + 1] == Apply(cfg, ss[k], es[k])
  }

  // ---------------------------------------------------------------- what the client asked for

  /** The requests of a run, in order. */
  function Requests(es: seq<Event>): seq<Request> {
    if es == [] then []
    else
      var e := es[|es| - 1];
      Requests(es[..|es| - 1]) + if e.Incoming? then [e.req] else []
  }

  predicate StartsSession(r: Request) { r.Start? || r.Subsystem? }

  /** A request that would start a handler if none has started. */
  predicate Acceptable(cfg: Config, r: Request) {
    (r.Start? && r.allowed) || (r.Subsystem? && r.allowed && r.name in cfg.subsystems)
  }

  ghost predicate AnyAcceptable(cfg: Config, rs: seq<Request>) {
    exists i :: 0 <= i < |rs| && Acceptable(cfg, rs[i])
  }

  /** rs[i] is the first acceptable request. */
  ghost predicate IsFirst(cfg: Config, rs: seq<Request>, i: nat) {
    i < |rs| && Acceptable(cfg, rs[i]) && !AnyAcceptable(cfg, rs[..i])
  }

  /** rs[i] is a pty request that parses, is allowed, and comes before any handler. */
  ghost predicate PtyOk(cfg: Config, rs: seq<Request>, i: nat) {
    && i < |rs| && rs[i].PtyReq? && rs[i].allowed && ParsePtyRequest(rs[i].payload).Parsed?
    && !AnyAcceptable(cfg, rs[..i])
  }

  ghost predicate HasPty(cfg: Config, rs: seq<Request>) {
    exists i :: PtyOk(cfg, rs, i)
  }

  ghost predicate IsFirstPty(cfg: Config, rs: seq<Request>, i: nat) {
    PtyOk(cfg, rs, i) && !HasPty(cfg, rs[..i])
  }

  function Envs(rs: seq<Request>): seq<string> {
    if rs == [] then []
    else
      var r := rs[|rs| - 1];
      Envs(rs[..|rs| - 1]) + if r.Env? then [r.key + "=" + r.value] else []
  }

  function LastSubsystem(rs: seq<Request>): string {
    if rs == [] then ""
    else if rs[|rs| - 1].Subsystem? then rs[|rs| - 1].name
    else LastSubsystem(rs[..|rs| - 1])
  }

  /** The sizes asked for by well-formed window changes. */
  function Winches(rs: seq<Request>): seq<Window> {
    if rs == [] then []
    else
      var r := rs[|rs| - 1];
      Winches(rs[..|rs| - 1]) +
      if r.WindowChange? && ParseWinchRequest(r.payload).Some? then [ParseWinchRequest(r.payload).value] else []
  }

  /** The size of the accepted pty request rs[i], then every later change. */
  function Windows(rs: seq<Request>, i: nat): (w: seq<Window>)
    requires i < |rs| && rs[i].PtyReq? && ParsePtyRequest(rs[i].payload).Parsed?
    ensures w != []
  {
    [ParsePtyRequest(rs[i].payload).value.window] + Winches(rs[i + 1..])
  }

  /** The indices of the requests that want an answer: all but signals. */
  function Answerable(rs: seq<Request>): seq<nat> {
    if rs == [] then []
    else Answerable(rs[..|rs| - 1]) + if rs[|rs| - 1].Signal? then [] else [|rs| - 1]
  }

  /** The answer to request r after the requests `pre`; break depends on the handler instead. */
  ghost predicate RightAnswer(cfg: Config, pre: seq<Request>, r: Request, ok: bool) {
    match r
    case Start(_, _, _) => ok <==> Acceptable(cfg, r) && !AnyAcceptable(cfg, pre)
    case Subsystem(_, _) => ok <==> Acceptable(cfg, r) && !AnyAcceptable(cfg, pre)
    case Env(_, _) => ok <==> !AnyAcceptable(cfg, pre)
    case Signal(_) => false
    case PtyReq(payload, allowed) =>
      ok <==> allowed && ParsePtyRequest(payload).Parsed? && !AnyAcceptable(cfg, pre) && !HasPty(cfg, pre)
    case WindowChange(payload) => ok <==> HasPty(cfg, pre) && ParseWinchRequest(payload).Some?
    case AgentForward => ok
    case BreakReq => true
    case Other => !ok
  }

  /** The channel registered for signals after the events. */
  function SignalChannel(es: seq<Event>): Option<nat> {
    if es == [] then None
    else if es[|es| - 1].Signals? then es[|es| - 1].ch
    else SignalChannel(es[..|es| - 1])
  }

  /** The signals that arrived while no channel was registered. */
  function Unclaimed(es: seq<Event>): seq<string> {
    if es == [] then []
    else
      var pre, e := es[..|es| - 1], es[|es| - 1];
      Unclaimed(pre) + if e.Incoming? && e.req.Signal? && SignalChannel(pre) == None then [e.req.name] else []
  }

  /** The signals that arrived while a channel was registered, with that channel. */
  function Claimed(es: seq<Event>): seq<(nat, string)> {
    if es == [] then []
    else
      var pre, e := es[..|es| - 1], es[|es| - 1];
      Claimed(pre) +
      if e.Incoming? && e.req.Signal? && SignalChannel(pre).Some? then [(SignalChannel(pre).value, e.req.name)] else []
  }

  /** The channel registered for breaks after the events. */
  function BreakChannel(es: seq<Event>): Option<nat> {
    if es == [] then None
    else if es[|es| - 1].Break? then es[|es| - 1].ch
    else BreakChannel(es[..|es| - 1])
  }

  /** The channels notified of breaks. */
  function Broken(es: seq<Event>): seq<nat> {
    if es == [] then []
    else
      var pre, e := es[..|es| - 1], es[|es| - 1];
      Broken(pre) + if e == Incoming(BreakReq) && BreakChannel(pre).Some? then [BreakChannel(pre).value] else []
  }

  /** The code of the first Exit, as the wire carries it. */
  function FirstExit(es: seq<Event>): seq<Uint32> {
    if es == [] then []
    else
      var first := FirstExit(es[..|es| - 1]);
      if first != [] || !es[|es| - 1].Exit? then first else [es[|es| - 1].code % 0x1_0000_0000]
  }

  /** The first Exit's send worked, so it went on to close the channel. */
  function CloseTried(es: seq<Event>): bool {
    if es == [] then false
    else
      var pre, e := es[..|es| - 1], es[|es| - 1];
      CloseTried(pre) || (e.Exit? && FirstExit(pre) == [] && e.sendOk)
  }

  // ---------------------------------------------------------------- one more request

  lemma AnyAcceptableSnoc(cfg: Config, rs: seq<Request>, r: Request)
    ensures AnyAcceptable(cfg, rs + [r]) <==> AnyAcceptable(cfg, rs) || Acceptable(cfg, r)
  {
    var all := rs + [r];
    if AnyAcceptable(cfg, rs) {
      var i :| 0 <= i < |rs| && Acceptable(cfg, rs[i]);
      assert Acceptable(cfg, all[i]);
    } else if Acceptable(cfg, r) {
      assert Acceptable(cfg, all[|rs|]);
    } else {
      assert forall i :: 0 <= i < |rs| ==> all[i] == rs[i];
    }
  }

  lemma IsFirstSnoc(cfg: Config, rs: seq<Request>, r: Request, i: nat)
    ensures IsFirst(cfg, rs + [r], i) <==>
            if i < |rs| then IsFirst(cfg, rs, i)
            else i == |rs| && Acceptable(cfg, r) && !AnyAcceptable(cfg, rs)
  {
    if i <= |rs| {
      assert (rs + [r])[..i] == rs[..i];
      assert rs[..|rs|] == rs;
    }
  }

  lemma PtyOkSnoc(cfg: Config, rs: seq<Request>, r: Request, i: nat)
    ensures PtyOk(cfg, rs + [r], i) <==>
            if i < |rs| then PtyOk(cfg, rs, i)
            else i == |rs| && r.PtyReq? && r.allowed && ParsePtyRequest(r.payload).Parsed? && !AnyAcceptable(cfg, rs)
  {
    if i <= |rs| {
      assert (rs + [r])[..i] == rs[..i];
      assert rs[..|rs|] == rs;
    }
  }

  lemma HasPtySnoc(cfg: Config, rs: seq<Request>, r: Request)
    ensures HasPty(cfg, rs + [r]) <==> HasPty(cfg, rs) || PtyOk(cfg, rs + [r], |rs|)
  {
    forall i: nat
      ensures PtyOk(cfg, rs + [r], i) && i != |rs| ==> PtyOk(cfg, rs, i)
      ensures PtyOk(cfg, rs, i) ==> PtyOk(cfg, rs + [r], i)
    {
      PtyOkSnoc(cfg, rs, r, i);
    }
  }

  lemma IsFirstPtySnoc(cfg: Config, rs: seq<Request>, r: Request, i: nat)
    ensures IsFirstPty(cfg, rs + [r], i) <==>
            if i < |rs| then IsFirstPty(cfg, rs, i) else PtyOk(cfg, rs + [r], i) && !HasPty(cfg, rs)
  {
    PtyOkSnoc(cfg, rs, r, i);
    if i <= |rs| {
      assert (rs + [r])[..i] == rs[..i];
      assert rs[..|rs|] == rs;
    }
  }

  lemma {:induction false} SomeFirst(cfg: Config, rs: seq<Request>) returns (i: nat)
    requires AnyAcceptable(cfg, rs)
    ensures IsFirst(cfg, rs, i)
  {
    var pre := rs[..|rs| - 1];
    assert pre + [rs[|rs| - 1]] == rs;
    AnyAcceptableSnoc(cfg, pre, rs[|rs| - 1]);
    if AnyAcceptable(cfg, pre) {
      i := SomeFirst(cfg, pre);
    } else {
      i := |rs| - 1;
    }
    IsFirstSnoc(cfg, pre, rs[|rs| - 1], i);
  }

  lemma {:induction false} SomeFirstPty(cfg: Config, rs: seq<Request>) returns (i: nat)
    requires HasPty(cfg, rs)
    ensures IsFirstPty(cfg, rs, i)
  {
    var pre := rs[..|rs| - 1];
    assert pre + [rs[|rs| - 1]] == rs;
    HasPtySnoc(cfg, pre, rs[|rs| - 1]);
    if HasPty(cfg, pre) {
      i := SomeFirstPty(cfg, pre);
    } else {
      i := |rs| - 1;
    }
    IsFirstPtySnoc(cfg, pre, rs[|rs| - 1], i);
  }

  // ---------------------------------------------------------------- invariant

  /** The fields agree with a handler started by rs[i]. */
  ghost predicate LaunchedBy(u: Setup, t: Terminal, rs: seq<Request>, i: nat)
    requires i < |rs|
  {
    && u.rawCmd == (if rs[i].Start? then rs[i].command else "")
    && u.subsystem == LastSubsystem(rs[..i + 1])
    && u.env == Envs(rs[..i])
    && u.launches == [Launch(u.rawCmd, u.subsystem, u.env, t.Term())]
  }

  ghost predicate StartAgrees(cfg: Config, s: State, rs: seq<Request>) {
    var u := s.setup;
    && (u.handled <==> AnyAcceptable(cfg, rs))
    && (!u.handled ==> u.rawCmd == "" && u.subsystem == LastSubsystem(rs) && u.env == Envs(rs) && u.launches == [])
    && (forall i: nat :: IsFirst(cfg, rs, i) ==> LaunchedBy(u, s.tty, rs, i))
  }

  ghost predicate PtyAgrees(cfg: Config, s: State, rs: seq<Request>) {
    var t := s.tty;
    && (t.pty.Some? <==> HasPty(cfg, rs))
    && (t.pty == None ==> t.Sent() == [])
    && (forall i: nat :: IsFirstPty(cfg, rs, i) ==> TakenBy(t, rs, i))
    && |t.queue| <= WINCH_CAPACITY
    && (t.blocked.Some? ==> s.ledger.current.Some?)
    && (s.ledger.current.Some? ==> t.blocked.Some? || s.crashed)
    && (s.ended ==> s.ledger.current == None)
    && t.winchCloses == (if s.ended && t.pty.Some? then 1 else 0)
  }

  function Indices(replies: seq<Reply>): seq<nat> {
    seq(|replies|, k requires 0 <= k < |replies| => replies[k].index)
  }

  ghost predicate RepliesAgree(cfg: Config, s: State, rs: seq<Request>) {
    var l := s.ledger;
    && l.seen == |rs|
    && Indices(l.replies) + (if l.current.Some? then [l.current.value] else []) == Answerable(rs)
    && (forall k :: 0 <= k < |l.replies| ==>
          && l.replies[k].index < |rs|
          && RightAnswer(cfg, rs[..l.replies[k].index], rs[l.replies[k].index], l.replies[k].ok))
    && (s.tty.blocked.Some? ==>
          && l.current.Some? && l.current.value < |rs|
          && RightAnswer(cfg, rs[..l.current.value], rs[l.current.value], true))
  }

  ghost predicate SignalsAgree(s: State, es: seq<Event>) {
    && s.ints.sigCh == SignalChannel(es)
    && s.ints.sigBuf == First(MAX_SIG_BUF, Unclaimed(es))
    && s.ints.delivered == Claimed(es)
    && s.ints.breakCh == BreakChannel(es)
    && s.ints.breaks == Broken(es)
  }

  function First(n: nat, s: seq<string>): seq<string> { if |s| <= n then s else s[..n] }

  ghost predicate ExitAgrees(s: State, es: seq<Event>) {
    && s.ending.statuses == FirstExit(es)
    && (s.ending.exited <==> s.ending.statuses != [])
    && |s.ending.statuses| <= 1
    && s.ending.channelClosed == CloseTried(es)
  }

  // ---------------------------------------------------------------- each request keeps it

  /** What one request does to the fields a handler is started with. */
  lemma StartEffect(cfg: Config, s: State, r: Request)
    ensures var u, v := s.setup, Handle(cfg, s, r).setup;
      && (v.handled <==> u.handled || Acceptable(cfg, r))
      && (u.handled ==> v == u)
      && (!u.handled ==>
            && v.subsystem == (if r.Subsystem? then r.name else u.subsystem)
            && v.env == u.env + (if r.Env? then [r.key + "=" + r.value] else []))
      && (!u.handled && !Acceptable(cfg, r) && u.rawCmd == "" ==> v.rawCmd == "" && v.launches == u.launches)
      && (!u.handled && Acceptable(cfg, r) ==>
            && v.rawCmd == (if r.Start? then r.command else u.rawCmd)
            && v.launches == u.launches + [Launch(v.rawCmd, v.subsystem, v.env, s.tty.Term())])
    ensures s.setup.handled || Acceptable(cfg, r) ==> Handle(cfg, s, r).tty.Term() == s.tty.Term()
  {
    hide ParsePtyRequest, ParseWinchRequest;
  }

  /** What one request does to the pty and its windows. */
  lemma PtyEffect(cfg: Config, s: State, r: Request)
    requires s.tty.blocked == None && |s.tty.queue| <= WINCH_CAPACITY
    ensures var t, u := s.tty, Handle(cfg, s, r).tty;
      var taken := t.pty == None && !s.setup.handled && r.PtyReq? && r.allowed && ParsePtyRequest(r.payload).Parsed?;
      var resized := t.pty.Some? && r.WindowChange? && ParseWinchRequest(r.payload).Some?;
      && (taken && t.Sent() == [] ==>
            u.pty == Some(ParsePtyRequest(r.payload).value) && u.Sent() == [u.pty.value.window])
      && (t.pty.Some? ==> u.Term() == t.Term())
      && (resized ==>
            && u.Sent() == t.Sent() + [ParseWinchRequest(r.payload).value]
            && u.pty == Some(Pty(t.pty.value.term, ParseWinchRequest(r.payload).value)))
      && (!taken && !resized ==> u == t)
      && (u.pty.Some? <==> t.pty.Some? || taken)
      && |u.queue| <= WINCH_CAPACITY
      && u.winchCloses == t.winchCloses
      && (u.blocked.Some? <==> resized)
    ensures Handle(cfg, s, r).ended == s.ended
  {
    hide ParsePtyRequest, ParseWinchRequest;
  }

  /** What one request does to the answers. */
  lemma ReplyEffect(cfg: Config, s: State, r: Request)
    requires s.ledger.current == None && s.tty.blocked == None && !s.crashed
    ensures var l, m, t := s.ledger, Handle(cfg, s, r).ledger, Handle(cfg, s, r);
      && m.seen == l.seen + 1
      && (t.tty.blocked.Some? ==> m.current.Some?)
      && (m.current.Some? ==> t.tty.blocked.Some? || t.crashed)
      && (if r.Signal? then m.replies == l.replies && m.current == None
          else if m.current.Some? then
            && m.replies == l.replies && m.current == Some(l.seen)
            && (t.tty.blocked.Some? ==> r.WindowChange? && s.tty.pty.Some? && ParseWinchRequest(r.payload).Some?)
          else m == l.Answer(true) || m == l.Answer(false))
  {
    hide ParsePtyRequest, ParseWinchRequest;
  }

  lemma AnswerEffect(cfg: Config, s: State, r: Request, ok: bool)
    requires s.ledger.current == None && s.tty.blocked == None && !s.crashed
    requires Handle(cfg, s, r).ledger == s.ledger.Answer(ok) && !r.Signal?
    ensures StartsSession(r) ==> (ok <==> Acceptable(cfg, r) && !s.setup.handled)
    ensures r.Env? ==> (ok <==> !s.setup.handled)
    ensures r.PtyReq? ==>
              (ok <==> r.allowed && ParsePtyRequest(r.payload).Parsed? && !s.setup.handled && s.tty.pty == None)
    ensures r.WindowChange? ==> (ok <==> s.tty.pty.Some? && ParseWinchRequest(r.payload).Some?)
    ensures r.AgentForward? ==> ok
    ensures r.Other? ==> !ok
  {
    hide ParsePtyRequest, ParseWinchRequest;
    var m := Handle(cfg, s, r).ledger;
    assert |m.replies| == |s.ledger.replies| + 1 && m.replies[|s.ledger.replies|].ok == ok;
  }

  lemma StartStep(cfg: Config, s: State, rs: seq<Request>, r: Request)
    requires StartAgrees(cfg, s, rs)
    ensures StartAgrees(cfg, Handle(cfg, s, r), rs + [r])
  {
    hide Handle;
    var all, t := rs + [r], Handle(cfg, s, r);
    AnyAcceptableSnoc(cfg, rs, r);
    StartEffect(cfg, s, r);
    assert all[..|rs|] == rs && all[..|rs| + 1] == all;
    forall i: nat | IsFirst(cfg, all, i)
      ensures LaunchedBy(t.setup, t.tty, all, i)
    {
      IsFirstSnoc(cfg, rs, r, i);
      if i < |rs| {
        assert all[..i] == rs[..i] && all[..i + 1] == rs[..i + 1];
        assert LaunchedBy(s.setup, s.tty, rs, i);
        assert AnyAcceptable(cfg, rs);
      }
    }
  }

  /** The windows after one more request, for the pty request rs[i]. */
  lemma WindowsSnoc(rs: seq<Request>, r: Request, i: nat)
    requires i < |rs| && rs[i].PtyReq? && ParsePtyRequest(rs[i].payload).Parsed?
    ensures Windows(rs + [r], i) == Windows(rs, i) +
            if r.WindowChange? && ParseWinchRequest(r.payload).Some? then [ParseWinchRequest(r.payload).value] else []
  {
    hide ParsePtyRequest, ParseWinchRequest;
    var later := (rs + [r])[i + 1..];
    assert later == rs[i + 1..] + [r];
    assert later[..|later| - 1] == rs[i + 1..];
  }

  /** The terminal agrees with the pty request rs[i]. */
  ghost predicate TakenBy(t: Terminal, rs: seq<Request>, i: nat)
    requires i < |rs| && rs[i].PtyReq? && ParsePtyRequest(rs[i].payload).Parsed?
  {
    && t.Term() == Some(ParsePtyRequest(rs[i].payload).value.term)
    && t.Sent() == Windows(rs, i)
    && t.pty.value.window == Windows(rs, i)[|Windows(rs, i)| - 1]
  }

  lemma TakenStep(cfg: Config, s: State, rs: seq<Request>, r: Request, i: nat)
    requires StartAgrees(cfg, s, rs) && PtyAgrees(cfg, s, rs)
    requires Enabled(s, Incoming(r)) && IsFirstPty(cfg, rs + [r], i)
    ensures TakenBy(Handle(cfg, s, r).tty, rs + [r], i)
  {
    hide Handle, Terminal.Sent, ParsePtyRequest, ParseWinchRequest;
    PtyOkSnoc(cfg, rs, r, |rs|);
    PtyEffect(cfg, s, r);
    IsFirstPtySnoc(cfg, rs, r, i);
    if i < |rs| {
      assert IsFirstPty(cfg, rs, i) && HasPty(cfg, rs);
      assert TakenBy(s.tty, rs, i);
      WindowsSnoc(rs, r, i);
    } else {
      assert (rs + [r])[i + 1..] == [];
    }
  }

  lemma PtyStep(cfg: Config, s: State, rs: seq<Request>, r: Request)
    requires StartAgrees(cfg, s, rs) && PtyAgrees(cfg, s, rs)
    requires Enabled(s, Incoming(r))
    ensures PtyAgrees(cfg, Handle(cfg, s, r), rs + [r])
  {
    hide Handle, Terminal.Sent, ParsePtyRequest, ParseWinchRequest, TakenBy;
    PtyOkSnoc(cfg, rs, r, |rs|);
    HasPtySnoc(cfg, rs, r);
    PtyEffect(cfg, s, r);
    ReplyEffect(cfg, s, r);
    forall i: nat | IsFirstPty(cfg, rs + [r], i)
      ensures TakenBy(Handle(cfg, s, r).tty, rs + [r], i)
    {
      TakenStep(cfg, s, rs, r, i);
    }
  }

  lemma NewAnswerIsRight(cfg: Config, s: State, rs: seq<Request>, r: Request, ok: bool)
    requires StartAgrees(cfg, s, rs) && PtyAgrees(cfg, s, rs) && Enabled(s, Incoming(r))
    requires Handle(cfg, s, r).ledger == s.ledger.Answer(ok) && !r.Signal?
    ensures RightAnswer(cfg, rs, r, ok)
  {
    hide Handle, ParsePtyRequest, ParseWinchRequest, AnyAcceptable, HasPty;
    AnswerEffect(cfg, s, r, ok);
  }

  lemma ResizeIsRight(cfg: Config, s: State, rs: seq<Request>, r: Request)
    requires PtyAgrees(cfg, s, rs) && r.WindowChange? && s.tty.pty.Some? && ParseWinchRequest(r.payload).Some?
    ensures RightAnswer(cfg, rs, r, true)
  {
  }

  lemma IndicesSnoc(replies: seq<Reply>, r: Reply)
    ensures Indices(replies + [r]) == Indices(replies) + [r.index]
  {
  }

  lemma RepliesStep(cfg: Config, s: State, rs: seq<Request>, r: Request)
    requires StartAgrees(cfg, s, rs) && PtyAgrees(cfg, s, rs) && RepliesAgree(cfg, s, rs)
    requires Enabled(s, Incoming(r))
    ensures RepliesAgree(cfg, Handle(cfg, s, r), rs + [r])
  {
    hide Handle, RightAnswer, ParsePtyRequest, ParseWinchRequest, Indices;
    assert s.tty.blocked == None;
    hide StartAgrees, PtyAgrees;
    var all, l, m := rs + [r], s.ledger, Handle(cfg, s, r).ledger;
    assert all[..|rs|] == rs && all[|rs|] == r;
    ReplyEffect(cfg, s, r);
    if Handle(cfg, s, r).tty.blocked.Some? {
      ResizeIsRight(cfg, s, rs, r);
    }
    if !r.Signal? && m.current == None {
      var last := m.replies[|l.replies|];
      NewAnswerIsRight(cfg, s, rs, r, last.ok);
      IndicesSnoc(l.replies, last);
    }
    forall k | 0 <= k < |m.replies|
      ensures m.replies[k].index < |all|
      ensures RightAnswer(cfg, all[..m.replies[k].index], all[m.replies[k].index], m.replies[k].ok)
    {
      if k < |l.replies| {
        assert m.replies[k] == l.replies[k];
        var i := l.replies[k].index;
        assert all[..i] == rs[..i] && all[i] == rs[i];
      }
    }
  }

  // ---------------------------------------------------------------- every run keeps it

  ghost predicate Agrees(cfg: Config, s: State, es: seq<Event>) {
    && StartAgrees(cfg, s, Requests(es))
    && PtyAgrees(cfg, s, Requests(es))
    && RepliesAgree(cfg, s, Requests(es))
    && SignalsAgree(s, es)
    && ExitAgrees(s, es)
  }

  /** Events other than requests: who they leave alone, and what the window channel does. */
  lemma QuietEffect(cfg: Config, s: State, e: Event)
    requires Enabled(s, e) && !e.Incoming?
    ensures var t := Apply(cfg, s, e);
      && t.setup == s.setup && t.crashed == s.crashed
      && t.tty.pty == s.tty.pty && t.tty.Sent() == s.tty.Sent()
      && t.ledger.seen == s.ledger.seen
      && (t.tty.blocked.Some? ==> t.tty.blocked == s.tty.blocked && t.ledger == s.ledger)
      && (!e.SendWindow? ==> t.ledger == s.ledger && t.tty.blocked == s.tty.blocked)
      && (e.SendWindow? ==>
            && s.ledger.current.Some? && t.ledger.current == None && t.tty.blocked == None
            && t.ledger.replies == s.ledger.replies + [Reply(s.ledger.current.value, true)])
      && (|s.tty.queue| <= WINCH_CAPACITY ==> |t.tty.queue| <= WINCH_CAPACITY)
      && t.ended == (s.ended || e.EndRequests?)
      && t.tty.winchCloses == s.tty.winchCloses + (if e.EndRequests? && s.tty.pty.Some? then 1 else 0)
  {
    hide Handle;
  }

  lemma QuietStep(cfg: Config, s: State, e: Event, rs: seq<Request>)
    requires Enabled(s, e) && !e.Incoming?
    requires StartAgrees(cfg, s, rs) && PtyAgrees(cfg, s, rs) && RepliesAgree(cfg, s, rs)
    ensures StartAgrees(cfg, Apply(cfg, s, e), rs)
    ensures PtyAgrees(cfg, Apply(cfg, s, e), rs)
    ensures RepliesAgree(cfg, Apply(cfg, s, e), rs)
  {
    QuietEffect(cfg, s, e);
    assert e.EndRequests? ==> !s.ended;
    hide Apply, Terminal.Sent, ParsePtyRequest, ParseWinchRequest;
    var t := Apply(cfg, s, e);
    assert t.tty.Term() == s.tty.Term();
    assert forall i: nat :: IsFirst(cfg, rs, i) ==> LaunchedBy(s.setup, s.tty, rs, i);
    if e.SendWindow? {
      assert Indices(t.ledger.replies) == Indices(s.ledger.replies) + [s.ledger.current.value];
    }
  }

  lemma OtherEffect(cfg: Config, s: State, e: Event)
    requires Enabled(s, e)
    ensures var i, j := s.ints, Apply(cfg, s, e).ints;
      && j.sigCh == (if e.Signals? then e.ch else i.sigCh)
      && j.sigBuf == i.sigBuf + (if e.Incoming? && e.req.Signal? && i.sigCh == None && |i.sigBuf| < MAX_SIG_BUF
                                 then [e.req.name] else [])
      && j.delivered == i.delivered + (if e.Incoming? && e.req.Signal? && i.sigCh.Some?
                                       then [(i.sigCh.value, e.req.name)] else [])
      && j.breakCh == (if e.Break? then e.ch else i.breakCh)
      && j.breaks == i.breaks + (if e == Incoming(BreakReq) && i.breakCh.Some? then [i.breakCh.value] else [])
    ensures var i, j := s.ending, Apply(cfg, s, e).ending;
      j == if e.Exit? && !i.exited then Ending(true, i.statuses + [e.code % U32], i.channelClosed || e.sendOk) else i
  {
    hide ParsePtyRequest, ParseWinchRequest;
  }

  lemma InterruptStep(cfg: Config, s: State, e: Event, es: seq<Event>)
    requires Enabled(s, e) && es != [] && es[|es| - 1] == e
    requires SignalsAgree(s, es[..|es| - 1]) && ExitAgrees(s, es[..|es| - 1])
    ensures SignalsAgree(Apply(cfg, s, e), es) && ExitAgrees(Apply(cfg, s, e), es)
  {
    hide Apply, Enabled;
    OtherEffect(cfg, s, e);
  }

  /** Every event keeps the agreement with the history. */
  lemma AgreesStep(cfg: Config, s: State, e: Event, es: seq<Event>)
    requires es != [] && es[|es| - 1] == e
    requires Agrees(cfg, s, es[..|es| - 1]) && Enabled(s, e)
    ensures Agrees(cfg, Apply(cfg, s, e), es)
  {
    hide Handle, StartAgrees, PtyAgrees, RepliesAgree, SignalsAgree, ExitAgrees;
    var pre := es[..|es| - 1];
    if e.Incoming? {
      assert Requests(es) == Requests(pre) + [e.req];
      StartStep(cfg, s, Requests(pre), e.req);
      PtyStep(cfg, s, Requests(pre), e.req);
      RepliesStep(cfg, s, Requests(pre), e.req);
    } else {
      assert Requests(es) == Requests(pre);
      QuietStep(cfg, s, e, Requests(pre));
    }
    InterruptStep(cfg, s, e, es);
  }

  lemma {:induction false} RunAgrees(cfg: Config, ss: seq<State>, es: seq<Event>, k: nat)
    requires IsRun(cfg, ss, es) && k <= |es|
    ensures Agrees(cfg, ss[k], es[..k])
  {
    hide Handle, Agrees;
    if k == 0 {
      InitAgrees(cfg);
      assert es[..0] == [];
    } else {
      RunAgrees(cfg, ss, es, k - 1);
      assert ss[k - 1 + 1] == Apply(cfg, ss[k - 1], es[k - 1]);
      assert es[..k][..k - 1] == es[..k - 1];
      AgreesStep(cfg, ss[k - 1], es[k - 1], es[..k]);
    }
  }

  lemma InitAgrees(cfg: Config)
    ensures Agrees(cfg, INIT, [])
  {
  }

  // ---------------------------------------------------------------- theorems

  /**
   Every request except a signal gets exactly one reply, in order (one may be
   outstanding while the loop is blocked), and each reply is the right one.
   */
  lemma OneReplyPerRequest(cfg: Config, ss: seq<State>, es: seq<Event>, k: nat)
    requires IsRun(cfg, ss, es) && k <= |es|
    ensures var l := ss[k].ledger;
      Indices(l.replies) + (if l.current.Some? then [l.current.value] else []) == Answerable(Requests(es[..k]))
    ensures ss[k].ledger.current.Some? ==> ss[k].tty.blocked.Some? || ss[k].crashed
    ensures var rs, l := Requests(es[..k]), ss[k].ledger;
      forall n :: 0 <= n < |l.replies| ==>
        && l.replies[n].index < |rs|
        && RightAnswer(cfg, rs[..l.replies[n].index], rs[l.replies[n].index], l.replies[n].ok)
  {
    RunAgrees(cfg, ss, es, k);
  }

  /** The a-th reply grants a shell, exec or subsystem request. */
  predicate GrantsStart(s: State, rs: seq<Request>, a: nat) {
    var l := s.ledger;
    a < |l.replies| && l.replies[a].ok && l.replies[a].index < |rs| && StartsSession(rs[l.replies[a].index])
  }

  lemma FirstIsUnique(cfg: Config, rs: seq<Request>, i: nat, j: nat)
    requires IsFirst(cfg, rs, i) && IsFirst(cfg, rs, j)
    ensures i == j
  {
  }

  /** At most one shell, exec or subsystem request succeeds, and then one handler has started. */
  lemma AtMostOneStart(cfg: Config, ss: seq<State>, es: seq<Event>, k: nat, a: nat, b: nat)
    requires IsRun(cfg, ss, es) && k <= |es|
    requires GrantsStart(ss[k], Requests(es[..k]), a) && GrantsStart(ss[k], Requests(es[..k]), b)
    ensures ss[k].ledger.replies[a].index == ss[k].ledger.replies[b].index
    ensures |ss[k].setup.launches| == 1
  {
    RunAgrees(cfg, ss, es, k);
    var rs := Requests(es[..k]);
    var i, j := ss[k].ledger.replies[a].index, ss[k].ledger.replies[b].index;
    assert RightAnswer(cfg, rs[..i], rs[i], true) && RightAnswer(cfg, rs[..j], rs[j], true);
    assert LaunchedBy(ss[k].setup, ss[k].tty, rs, i);
    FirstIsUnique(cfg, rs, i, j);
  }

  /** A handler starts exactly when some request is acceptable, and then exactly one. */
  lemma HandlerStartsIffAcceptable(cfg: Config, ss: seq<State>, es: seq<Event>, k: nat)
    requires IsRun(cfg, ss, es) && k <= |es|
    ensures |ss[k].setup.launches| == if AnyAcceptable(cfg, Requests(es[..k])) then 1 else 0
    ensures !AnyAcceptable(cfg, Requests(es[..k])) ==> ss[k].setup.rawCmd == ""
  {
    RunAgrees(cfg, ss, es, k);
    var rs := Requests(es[..k]);
    if AnyAcceptable(cfg, rs) {
      var i := SomeFirst(cfg, rs);
      assert LaunchedBy(ss[k].setup, ss[k].tty, rs, i);
    }
  }

  /**
   The handler started by request i finds every earlier env request in order, the
   accepted command (none for a subsystem), and the last subsystem asked for, granted
   or not. The same values hold at every later point of the run.
   */
  lemma HandlerSees(cfg: Config, ss: seq<State>, es: seq<Event>, k: nat, i: nat)
    requires IsRun(cfg, ss, es) && k <= |es|
    requires IsFirst(cfg, Requests(es[..k]), i)
    ensures var rs, u := Requests(es[..k]), ss[k].setup;
      && u.handled
      && u.env == Envs(rs[..i])
      && u.rawCmd == (if rs[i].Start? then rs[i].command else "")
      && u.subsystem == LastSubsystem(rs[..i + 1])
      && u.launches == [Launch(u.rawCmd, u.subsystem, u.env, ss[k].tty.Term())]
  {
    RunAgrees(cfg, ss, es, k);
    var rs := Requests(es[..k]);
    assert LaunchedBy(ss[k].setup, ss[k].tty, rs, i);
    assert Acceptable(cfg, rs[i]);
  }

  /** Once a handler has started, nothing it was started with changes. */
  lemma {:induction false} SetupNeverChangesAfterStart(cfg: Config, ss: seq<State>, es: seq<Event>, k: nat, m: nat)
    requires IsRun(cfg, ss, es) && k <= m <= |es|
    requires ss[k].setup.handled
    ensures ss[m].setup == ss[k].setup && ss[m].tty.Term() == ss[k].tty.Term()
  {
    hide Handle, ParsePtyRequest, ParseWinchRequest;
    if k < m {
      SetupNeverChangesAfterStart(cfg, ss, es, k, m - 1);
      var s, e := ss[m - 1], es[m - 1];
      assert ss[m - 1 + 1] == Apply(cfg, s, e);
      if e.Incoming? {
        StartEffect(cfg, s, e.req);
      } else {
        QuietEffect(cfg, s, e);
      }
    }
  }

  /** rs[i] is a pty request that reaches the parser and overflows it. */
  ghost predicate Overflows(cfg: Config, rs: seq<Request>, i: nat) {
    && i < |rs| && rs[i].PtyReq? && ParsePtyRequest(rs[i].payload).Panic?
    && !AnyAcceptable(cfg, rs[..i]) && !HasPty(cfg, rs[..i])
  }

  lemma CrashEffect(cfg: Config, s: State, e: Event)
    requires Enabled(s, e)
    ensures Apply(cfg, s, e).crashed <==>
            && e.Incoming? && e.req.PtyReq? && !s.setup.handled && s.tty.pty == None
            && ParsePtyRequest(e.req.payload).Panic?
    ensures Apply(cfg, s, e).agent <==> s.agent || e == Incoming(AgentForward)
  {
    hide ParsePtyRequest, ParseWinchRequest;
  }

  lemma OverflowsSnoc(cfg: Config, rs: seq<Request>, r: Request, i: nat)
    requires i < |rs|
    ensures Overflows(cfg, rs + [r], i) <==> Overflows(cfg, rs, i)
  {
    assert (rs + [r])[..i] == rs[..i] && (rs + [r])[i] == rs[i];
  }

  /** The loop panics if and only if some pty request reaches the parser with a length that overflows. */
  lemma {:induction false} CrashesIffOverflow(cfg: Config, ss: seq<State>, es: seq<Event>, k: nat)
    requires IsRun(cfg, ss, es) && k <= |es|
    ensures ss[k].crashed <==> exists i :: Overflows(cfg, Requests(es[..k]), i)
  {
    hide Enabled, Apply, ParsePtyRequest, AnyAcceptable, HasPty, PtyOk;
    if k > 0 {
      CrashesIffOverflow(cfg, ss, es, k - 1);
      RunAgrees(cfg, ss, es, k - 1);
      var s, e, pre := ss[k - 1], es[k - 1], Requests(es[..k - 1]);
      assert Enabled(s, e) && ss[k - 1 + 1] == Apply(cfg, s, e);
      NotCrashed(s, e);
      CrashEffect(cfg, s, e);
      assert es[..k][..k - 1] == es[..k - 1];
      if e.Incoming? {
        var rs := pre + [e.req];
        assert Requests(es[..k]) == rs && rs[..|pre|] == pre;
        forall i: nat | i < |pre|
          ensures !Overflows(cfg, rs, i)
        {
          OverflowsSnoc(cfg, pre, e.req, i);
        }
        assert ss[k].crashed <==> Overflows(cfg, rs, |pre|);
      } else {
        assert Requests(es[..k]) == pre;
      }
    }
  }

  lemma NotCrashed(s: State, e: Event)
    requires Enabled(s, e)
    ensures !s.crashed
  {
  }

  lemma EndEffect(cfg: Config, s: State, e: Event)
    requires Enabled(s, e)
    ensures Apply(cfg, s, e).ended <==> s.ended || e.EndRequests?
  {
    hide ParsePtyRequest, ParseWinchRequest;
  }

  lemma {:induction false} EndedIffRequestsEnded(cfg: Config, ss: seq<State>, es: seq<Event>, k: nat)
    requires IsRun(cfg, ss, es) && k <= |es|
    ensures ss[k].ended <==> EndRequests in es[..k]
  {
    hide Enabled, Apply;
    if k > 0 {
      EndedIffRequestsEnded(cfg, ss, es, k - 1);
      assert Enabled(ss[k - 1], es[k - 1]) && ss[k - 1 + 1] == Apply(cfg, ss[k - 1], es[k - 1]);
      EndEffect(cfg, ss[k - 1], es[k - 1]);
      assert es[..k] == es[..k - 1] + [es[k - 1]];
    }
  }

  /**
   The loop takes the next request, of whatever kind, exactly when it has not ended or
   panicked and is not waiting to send a window; that send goes on as soon as the channel
   is empty; the handler's own calls are always possible until a panic.
   */
  lemma LoopReadyIff(cfg: Config, ss: seq<State>, es: seq<Event>, k: nat, r: Request, e: Event)
    requires IsRun(cfg, ss, es) && k <= |es|
    ensures Enabled(ss[k], Incoming(r)) <==>
            && EndRequests !in es[..k] && !(exists i :: Overflows(cfg, Requests(es[..k]), i))
            && ss[k].tty.blocked == None
    ensures Enabled(ss[k], SendWindow) <==> !ss[k].crashed && ss[k].tty.blocked.Some? && ss[k].tty.queue == []
    ensures e.Exit? || e.Signals? || e.Break? ==> (Enabled(ss[k], e) <==> !ss[k].crashed)
  {
    hide Apply, Overflows, StartAgrees;
    RunAgrees(cfg, ss, es, k);
    EndedIffRequestsEnded(cfg, ss, es, k);
    CrashesIffOverflow(cfg, ss, es, k);
  }

  /** Agent forwarding is on exactly once it has been asked for. */
  lemma {:induction false} AgentForwardIffRequested(cfg: Config, ss: seq<State>, es: seq<Event>, k: nat)
    requires IsRun(cfg, ss, es) && k <= |es|
    ensures ss[k].agent <==> Incoming(AgentForward) in es[..k]
  {
    hide Enabled, Apply;
    if k > 0 {
      AgentForwardIffRequested(cfg, ss, es, k - 1);
      assert Enabled(ss[k - 1], es[k - 1]) && ss[k - 1 + 1] == Apply(cfg, ss[k - 1], es[k - 1]);
      CrashEffect(cfg, ss[k - 1], es[k - 1]);
      assert es[..k] == es[..k - 1] + [es[k - 1]];
    }
  }

  /**
   The windows received are a prefix of the pty's window followed by the accepted
   changes, at most two short of it; the pty holds the last one; the channel's first
   send finds it empty.
   */
  lemma WindowsReceived(cfg: Config, ss: seq<State>, es: seq<Event>, k: nat, i: nat)
    requires IsRun(cfg, ss, es) && k <= |es|
    requires IsFirstPty(cfg, Requests(es[..k]), i)
    ensures var w, t := Windows(Requests(es[..k]), i), ss[k].tty;
      && t.received <= w
      && |w| <= |t.received| + 2
      && (ss[k].ledger.current == None ==> |w| <= |t.received| + 1)
      && t.pty.Some? && t.pty.value.window == w[|w| - 1]
      && t.Sent() == w
  {
    RunAgrees(cfg, ss, es, k);
    assert TakenBy(ss[k].tty, Requests(es[..k]), i);
  }

  lemma FirstWindowNeverBlocks(cfg: Config, ss: seq<State>, es: seq<Event>, k: nat)
    requires IsRun(cfg, ss, es) && k < |es|
    requires ss[k].tty.pty == None && ss[k + 1].tty.pty.Some?
    ensures ss[k].tty.Sent() == [] && ss[k + 1].tty.blocked == None
    ensures ss[k + 1].tty.queue == [ss[k + 1].tty.pty.value.window]
  {
    RunAgrees(cfg, ss, es, k);
    assert ss[k + 1] == Apply(cfg, ss[k], es[k]);
    if !es[k].Incoming? {
      QuietEffect(cfg, ss[k], es[k]);
    } else {
      PtyEffect(cfg, ss[k], es[k].req);
    }
  }

  /** The window channel is closed exactly once, after the loop and all sends, if and only if a pty was accepted. */
  lemma WindowChannelClosedOnce(cfg: Config, ss: seq<State>, es: seq<Event>, k: nat)
    requires IsRun(cfg, ss, es) && k <= |es|
    ensures ss[k].tty.winchCloses == if ss[k].ended && HasPty(cfg, Requests(es[..k])) then 1 else 0
    ensures ss[k].ended ==> ss[k].tty.blocked == None
    ensures k < |es| && ss[k].ended ==> !es[k].Incoming? && !es[k].SendWindow?
  {
    RunAgrees(cfg, ss, es, k);
    if k < |es| {
      assert Enabled(ss[k], es[k]);
    }
  }

  /** Breaks reach the channel registered at the time, and are granted exactly when there is one. */
  lemma BreaksNotified(cfg: Config, ss: seq<State>, es: seq<Event>, k: nat)
    requires IsRun(cfg, ss, es) && k < |es| && es[k] == Incoming(BreakReq)
    ensures ss[k + 1].ints.breaks == Broken(es[..k + 1])
    ensures ss[k + 1].ints.breaks == Broken(es[..k]) +
            if BreakChannel(es[..k]).Some? then [BreakChannel(es[..k]).value] else []
    ensures ss[k + 1].ledger == ss[k].ledger.Answer(BreakChannel(es[..k]).Some?)
  {
    hide Apply, Enabled, StartAgrees, PtyAgrees, RepliesAgree, ExitAgrees;
    RunAgrees(cfg, ss, es, k);
    RunAgrees(cfg, ss, es, k + 1);
    assert Enabled(ss[k], es[k]) && ss[k + 1] == Apply(cfg, ss[k], es[k]);
    BreakEffect(cfg, ss[k]);
    assert es[..k + 1][..k] == es[..k];
  }

  lemma BreakEffect(cfg: Config, s: State)
    requires Enabled(s, Incoming(BreakReq))
    ensures Apply(cfg, s, Incoming(BreakReq)).ledger == s.ledger.Answer(s.ints.breakCh.Some?)
  {
  }

  /**
   sigBuf is the first 128 of the signals that arrived while no channel was registered;
   every other signal went to the channel registered when it came.
   */
  lemma SignalBufferKeepsFirst(cfg: Config, ss: seq<State>, es: seq<Event>, k: nat)
    requires IsRun(cfg, ss, es) && k <= |es|
    ensures ss[k].ints.sigBuf == First(128, Unclaimed(es[..k]))
    ensures ss[k].ints.delivered == Claimed(es[..k])
  {
    RunAgrees(cfg, ss, es, k);
  }

  /** At most one exit-status is sent, with the first Exit's code; the channel is closed exactly if that send worked. */
  lemma ExitStatusIsFirstExit(cfg: Config, ss: seq<State>, es: seq<Event>, k: nat)
    requires IsRun(cfg, ss, es) && k <= |es|
    ensures ss[k].ending.statuses == FirstExit(es[..k]) && |ss[k].ending.statuses| <= 1
    ensures ss[k].ending.channelClosed == CloseTried(es[..k])
  {
    RunAgrees(cfg, ss, es, k);
  }

  /** A refused subsystem's name stays behind: the shell started next reports it. */
  lemma RefusedSubsystemNameSurvives(name: string) returns (ss: seq<State>, es: seq<Event>)
    ensures IsRun(Config({}), ss, es) && |es| == 2
    ensures ss[2].setup.launches == [Launch("", name, [], None)]
  {
    es := [Incoming(Subsystem(name, true)), Incoming(Start(false, "", true))];
    var s1 := Apply(Config({}), INIT, es[0]);
    ss := [INIT, s1, Apply(Config({}), s1, es[1])];
  }
}
