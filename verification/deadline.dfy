/** The deadline that serverConn keeps on its net.Conn. None is the zero time: no limit. */
module Deadline {
  import opened Common

  /** a is no later than b, where None is never. */
  predicate NoLater(a: Option<int>, b: Option<int>) {
    b == None || (a.Some? && a.value <= b.value)
  }

  datatype Limits = Limits(idle: int, handshake: Option<int>, max: Option<int>) {
    /** Every limit in force for an update at time `now`. */
    function Present(now: int): set<int> {
      (if max.Some? then {max.value} else {}) +
      (if handshake.Some? then {handshake.value} else {}) +
      (if idle > 0 then {now + idle} else {})
    }
  }

  /** d is the earliest of the limits, None when there are none. */
  ghost predicate IsEarliest(d: Option<int>, limits: set<int>) {
    match d
    case None => limits == {}
    case Some(t) => t in limits && forall x :: x in limits ==> t <= x
  }

  /** The choice of updateDeadline: the absolute limit, then the handshake limit, then the idle limit if earlier. */
  function Choose(l: Limits, now: int): Option<int> {
    var deadline :=
      if l.handshake.Some? && (l.max == None || l.handshake.value < l.max.value) then l.handshake else l.max;
    if l.idle > 0 && (deadline == None || now + l.idle < deadline.value) then Some(now + l.idle) else deadline
  }

  lemma ChoiceIsEarliest(l: Limits, now: int)
    ensures IsEarliest(Choose(l, now), l.Present(now))
  {
  }

  // ---------------------------------------------------------------- a connection's life

  /** The server's settings and the readings of the clock while HandleConn sets the connection up. */
  datatype Setup = Setup(idle: int, maxTimeout: int, handshakeTimeout: int, maxAt: int, handshakeAt: int, startAt: int)

  datatype Event =
    | Touch(now: int)          // Read or Write
    | DropHandshake(now: int)  // the handshake has succeeded

  datatype Conn = Conn(limits: Limits, installed: Option<int>)

  function Start(u: Setup): Conn {
    var l := Limits(u.idle,
                    if u.handshakeTimeout > 0 then Some(u.handshakeAt + u.handshakeTimeout) else None,
                    if u.maxTimeout > 0 then Some(u.maxAt + u.maxTimeout) else None);
    Conn(l, Choose(l, u.startAt))
  }

  function Step(c: Conn, e: Event): Conn {
    match e
    case Touch(now) => if c.limits.idle > 0 then c.(installed := Choose(c.limits, now)) else c
    case DropHandshake(now) =>
      var l := c.limits.(handshake := None);
      Conn(l, Choose(l, now))
  }

  function After(u: Setup, es: seq<Event>): Conn {
    if es == [] then Start(u) else Step(After(u, es[..|es| - 1]), es[|es| - 1])
  }

  // ---------------------------------------------------------------- what the history prescribes

  /** The time of the last Read, Write or end of the handshake, or of the set-up. */
  function LastActive(u: Setup, es: seq<Event>): int {
    if es == [] then u.startAt else es[|es| - 1].now
  }

  ghost predicate InHandshake(es: seq<Event>) {
    forall i :: 0 <= i < |es| ==> es[i].Touch?
  }

  /** The limits that apply after the history, each for a positive timeout only. */
  ghost function Due(u: Setup, es: seq<Event>): set<int> {
    (if u.maxTimeout > 0 then {u.maxAt + u.maxTimeout} else {}) +
    (if u.handshakeTimeout > 0 && InHandshake(es) then {u.handshakeAt + u.handshakeTimeout} else {}) +
    (if u.idle > 0 then {LastActive(u, es) + u.idle} else {})
  }

  /** The limits kept are those the history prescribes. */
  lemma {:induction false} LimitsFollowHistory(u: Setup, es: seq<Event>)
    ensures After(u, es).limits.idle == u.idle
    ensures After(u, es).limits.max == if u.maxTimeout > 0 then Some(u.maxAt + u.maxTimeout) else None
    ensures After(u, es).limits.handshake ==
            if u.handshakeTimeout > 0 && InHandshake(es) then Some(u.handshakeAt + u.handshakeTimeout) else None
  {
    if es != [] {
      var pre, e := es[..|es| - 1], es[|es| - 1];
      assert es == pre + [e];
      LimitsFollowHistory(u, pre);
      assert InHandshake(es) <==> InHandshake(pre) && e.Touch?;
    }
  }

  lemma {:induction false} InstalledIsChosen(u: Setup, es: seq<Event>)
    ensures After(u, es).installed == Choose(After(u, es).limits, LastActive(u, es))
  {
    if es != [] {
      InstalledIsChosen(u, es[..|es| - 1]);
    }
  }

  /**
   After any sequence of reads, writes and the end of the handshake the deadline is the
   earliest of the absolute limit, the handshake limit unless dropped, and the idle
   limit counted from the last activity; there is none exactly when no limit applies.
   */
  lemma DeadlineIsEarliestDue(u: Setup, es: seq<Event>)
    ensures IsEarliest(After(u, es).installed, Due(u, es))
  {
    LimitsFollowHistory(u, es);
    InstalledIsChosen(u, es);
    ChoiceIsEarliest(After(u, es).limits, LastActive(u, es));
    assert After(u, es).limits.Present(LastActive(u, es)) == Due(u, es);
  }

  /** The clock never goes back. */
  ghost predicate Ordered(u: Setup, es: seq<Event>) {
    && (forall k :: 0 <= k < |es| ==> u.startAt <= es[k].now)
    && (forall i, j :: 0 <= i < j < |es| ==> es[i].now <= es[j].now)
  }

  /** The deadline never moves earlier, not even when the handshake limit is dropped. */
  lemma DeadlineNeverMovesEarlier(u: Setup, es: seq<Event>, i: nat)
    requires Ordered(u, es) && i <= |es|
    ensures NoLater(After(u, es[..i]).installed, After(u, es).installed)
  {
    var pre := es[..i];
    DeadlineIsEarliestDue(u, pre);
    DeadlineIsEarliestDue(u, es);
    assert InHandshake(es) ==> InHandshake(pre);
    assert LastActive(u, pre) <= LastActive(u, es);
  }

  /** MaxTimeout is absolute: no activity ever pushes the deadline past it, whatever the clock says. */
  lemma MaxDeadlineIsAbsolute(u: Setup, es: seq<Event>)
    requires u.maxTimeout > 0
    ensures NoLater(After(u, es).installed, Some(u.maxAt + u.maxTimeout))
  {
    DeadlineIsEarliestDue(u, es);
    assert u.maxAt + u.maxTimeout in Due(u, es);
  }

  // ---------------------------------------------------------------- the connection object

  class ServerConn {
    const idleTimeout: int
    var handshakeDeadline: Option<int>
    var maxDeadline: Option<int>
    var installed: Option<int>  // what Conn.SetDeadline was last given
    ghost const setup: Setup
    ghost var history: seq<Event>

    function Snapshot(): Conn
      reads this
    {
      Conn(Limits(idleTimeout, handshakeDeadline, maxDeadline), installed)
    }

    ghost predicate Valid()
      reads this
    {
      Snapshot() == After(setup, history)
    }

    /** The set-up in HandleConn, up to and with the first updateDeadline. */
    constructor (u: Setup)
      ensures Valid() && setup == u && history == []
      ensures IsEarliest(installed, Due(u, []))
    {
      idleTimeout, setup, history := u.idle, u, [];
      maxDeadline, handshakeDeadline := None, None;
      if u.maxTimeout > 0 {
        maxDeadline := Some(u.maxAt + u.maxTimeout);
      }
      if u.handshakeTimeout > 0 {
        handshakeDeadline := Some(u.handshakeAt + u.handshakeTimeout);
      }
      new;
      UpdateDeadline(u.startAt);
      DeadlineIsEarliestDue(u, []);
    }

    method UpdateDeadline(now: int)
      modifies this`installed
      ensures IsEarliest(installed, Snapshot().limits.Present(now))
      ensures installed == Choose(Snapshot().limits, now)
    {
      var deadline := maxDeadline;
      if handshakeDeadline.Some? && (deadline == None || handshakeDeadline.value < deadline.value) {
        deadline := handshakeDeadline;
      }
      if idleTimeout > 0 {
        var idleDeadline := now + idleTimeout;
        if deadline == None || idleDeadline < deadline.value {
          deadline := Some(idleDeadline);
        }
      }
      installed := deadline;
      ChoiceIsEarliest(Snapshot().limits, now);
    }

    /** Before the I/O of Read and of Write. */
    method Touch(now: int)
      requires Valid()
      modifies this`installed, this`history
      ensures Valid() && history == old(history) + [Event.Touch(now)]
      ensures IsEarliest(installed, Due(setup, history))
      ensures idleTimeout <= 0 ==> installed == old(installed)
    {
      if idleTimeout > 0 {
        UpdateDeadline(now);
      }
      history := history + [Event.Touch(now)];
      assert history[..|history| - 1] == old(history);
      DeadlineIsEarliestDue(setup, history);
    }

    /** After a successful handshake. */
    method DropHandshake(now: int)
      requires Valid()
      modifies this`installed, this`handshakeDeadline, this`history
      ensures Valid() && history == old(history) + [Event.DropHandshake(now)]
      ensures IsEarliest(installed, Due(setup, history))
      ensures handshakeDeadline == None
    {
      handshakeDeadline := None;
      UpdateDeadline(now);
      history := history + [Event.DropHandshake(now)];
      assert history[..|history| - 1] == old(history);
      DeadlineIsEarliestDue(setup, history);
    }
  }
}

/** Updates of the deadline that overlap: each reads the clock and the limits first and installs its choice later. */
module DeadlineSteps {
  import opened Common
  import opened Deadline

  /** `readings` are the choices made so far, in the order in which the clock was read. */
  datatype State = State(
    limits: Limits,
    readings: seq<Option<int>>,
    installed: nat,              // which of them SetDeadline was last given
    pending: map<nat, nat>,      // updates under way, each with its choice
    now: int)

  datatype Step =
    | Choose(id: nat, now: int)  // a Read, a Write or HandleConn computes its deadline
    | Install(id: nat)           // and calls SetDeadline
    | DropLimit                  // handshakeDeadline is cleared

  predicate Enabled(s: State, e: Step) {
    match e
    case Choose(id, now) => id !in s.pending && s.now <= now
    case Install(id) => id in s.pending
    case DropLimit => true
  }

  function Apply(s: State, e: Step): State
    requires Enabled(s, e)
  {
    match e
    case Choose(id, now) =>
      s.(readings := s.readings + [Deadline.Choose(s.limits, now)],
         pending := s.pending[id := |s.readings|],
         now := now)
    case Install(id) => s.(installed := s.pending[id], pending := s.pending - {id})
    case DropLimit => s.(limits := s.limits.(handshake := None))
  }

  function Init(u: Setup): State { State(Start(u).limits, [Start(u).installed], 0, map[], u.startAt) }

  ghost predicate IsRun(u: Setup, ss: seq<State>, es: seq<Step>) {
    && |ss| == |es| + 1
    && ss[0] == Init(u)
    && forall k :: 0 <= k < |es| ==> Enabled(ss[k], es[k]) && ss[k + 1] == Apply(ss[k], es[k])
  }

  /** With later clocks and fewer limits the choice is never earlier. */
  lemma ChoicesGrow(l: Limits, t: int, m: Limits, t': int)
    requires t <= t' && (m == l || m == l.(handshake := None))
    ensures NoLater(Deadline.Choose(l, t), Deadline.Choose(m, t'))
  {
  }

  ghost predicate Inv(s: State) {
    && s.installed < |s.readings|
    && (forall id :: id in s.pending ==> s.pending[id] < |s.readings|)
    && (forall i, j :: 0 <= i < j < |s.readings| ==> NoLater(s.readings[i], s.readings[j]))
    && (forall i :: 0 <= i < |s.readings| ==> NoLater(s.readings[i], s.limits.max))
    && (forall i :: 0 <= i < |s.readings| ==> NoLater(s.readings[i], Deadline.Choose(s.limits, s.now)))
  }

  lemma InvStep(s: State, e: Step)
    requires Inv(s) && Enabled(s, e)
    ensures Inv(Apply(s, e))
  {
    match e
    case Choose(_, now) =>
      ChoicesGrow(s.limits, s.now, s.limits, now);
      ChoicesGrow(s.limits, now, s.limits, now);
    case Install(_) =>
    case DropLimit => ChoicesGrow(s.limits, s.now, s.limits.(handshake := None), s.now);
  }

  lemma {:induction false} RunKeepsInv(u: Setup, ss: seq<State>, es: seq<Step>, k: nat)
    requires IsRun(u, ss, es) && k <= |es|
    ensures Inv(ss[k]) && ss[k].limits.max == Start(u).limits.max
  {
    if k > 0 {
      RunKeepsInv(u, ss, es, k - 1);
      assert ss[k - 1 + 1] == Apply(ss[k - 1], es[k - 1]);
      InvStep(ss[k - 1], es[k - 1]);
    }
  }

  /** The limits are those of the set-up, the handshake limit until it is dropped. */
  lemma {:induction false} LimitsFollowHistory(u: Setup, ss: seq<State>, es: seq<Step>, k: nat)
    requires IsRun(u, ss, es) && k <= |es|
    ensures ss[k].limits == if DropLimit in es[..k] then Start(u).limits.(handshake := None) else Start(u).limits
  {
    if k > 0 {
      LimitsFollowHistory(u, ss, es, k - 1);
      assert ss[k - 1 + 1] == Apply(ss[k - 1], es[k - 1]);
      assert es[..k] == es[..k - 1] + [es[k - 1]];
    }
  }

  /** Each update chooses the earliest limit due when it reads the clock. */
  lemma ReadingIsEarliestDue(u: Setup, ss: seq<State>, es: seq<Step>, k: nat)
    requires IsRun(u, ss, es) && k < |es| && es[k].Choose?
    ensures |ss[k + 1].readings| == |ss[k].readings| + 1
    ensures ss[k + 1].pending == ss[k].pending[es[k].id := |ss[k].readings|]
    ensures var inHandshake := DropLimit !in es[..k];
      IsEarliest(ss[k + 1].readings[|ss[k].readings|],
                 (if u.maxTimeout > 0 then {u.maxAt + u.maxTimeout} else {}) +
                 (if u.handshakeTimeout > 0 && inHandshake then {u.handshakeAt + u.handshakeTimeout} else {}) +
                 (if u.idle > 0 then {es[k].now + u.idle} else {}))
  {
    assert ss[k + 1] == Apply(ss[k], es[k]);
    LimitsFollowHistory(u, ss, es, k);
    ChoiceIsEarliest(ss[k].limits, es[k].now);
  }

  /**
   However updates overlap, an installation moves the deadline earlier if and only if the
   deadline it replaces was computed after its own and is another one.
   */
  lemma MovesEarlierIffOvertaken(u: Setup, ss: seq<State>, es: seq<Step>, k: nat)
    requires IsRun(u, ss, es) && k < |es| && es[k].Install?
    ensures var s, t := ss[k], ss[k + 1];
      && s.installed < |s.readings| && t.installed < |t.readings|
      && (!NoLater(s.readings[s.installed], t.readings[t.installed]) <==>
            t.installed < s.installed && s.readings[s.installed] != t.readings[t.installed])
  {
    RunKeepsInv(u, ss, es, k);
    assert ss[k + 1] == Apply(ss[k], es[k]);
  }

  /** No overlap pushes the deadline past the absolute limit. */
  lemma MaxDeadlineIsAbsolute(u: Setup, ss: seq<State>, es: seq<Step>, k: nat)
    requires IsRun(u, ss, es) && k <= |es| && u.maxTimeout > 0
    ensures ss[k].installed < |ss[k].readings|
    ensures NoLater(ss[k].readings[ss[k].installed], Some(u.maxAt + u.maxTimeout))
  {
    RunKeepsInv(u, ss, es, k);
  }

  /** A Write reads the clock after a Read and installs before it: the deadline moves back. */
  lemma OverlapMovesDeadlineBack() returns (ss: seq<State>, es: seq<Step>)
    ensures IsRun(Setup(10, 0, 0, 0, 0, 0), ss, es)
    ensures es == [Choose(1, 1), Choose(2, 2), Install(2), Install(1)]
    ensures ss[3].readings == ss[4].readings == [Some(10), Some(11), Some(12)]
    ensures ss[3].installed == 2 && ss[4].installed == 1
  {
    es := [Choose(1, 1), Choose(2, 2), Install(2), Install(1)];
    var s0 := Init(Setup(10, 0, 0, 0, 0, 0));
    var s1 := Apply(s0, es[0]);
    var s2 := Apply(s1, es[1]);
    var s3 := Apply(s2, es[2]);
    ss := [s0, s1, s2, s3, Apply(s3, es[3])];
  }
}
