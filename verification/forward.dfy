/**
 Reverse port forwarding (section 7.1 of RFC 4254): the map from bind address to
 listener, shared by the request handler and by two goroutines per forward, one that
 closes when the connection's context is done and one that accepts and cleans up.
 */
module Forward {
  import opened Common

  type Ln = nat      // a listener, one per successful forward
  type Ctx = nat     // a connection's context
  type Addr = string // host:port as asked for

  datatype Info = Info(ctx: Ctx, addr: Addr)

  datatype Closer = Waiting | Holding(ln: Ln) | CloserEnded

  datatype Acceptor = Accepting | Deleting | AcceptorEnded

  datatype State = State(
    forwards: map<Addr, Ln>,
    info: map<Ln, Info>,          // what each opened listener was opened for
    inserting: set<Ln>,           // opened, not yet in the map
    closed: set<Ln>,
    doneCtx: set<Ctx>,
    closers: map<Ln, Closer>,
    acceptors: map<Ln, Acceptor>,
    cancels: map<nat, Ln>)        // cancel requests that looked a listener up and will close it

  const INIT := State(map[], map[], {}, {}, {}, map[], map[], map[])

  datatype Step =
    | Listen(ln: Ln, ctx: Ctx, addr: Addr)  // net.Listen succeeded
    | Insert(ln: Ln)                        // h.forwards[addr] = ln, then the two goroutines
    | ContextDone(ctx: Ctx)
    | CloserLooks(ln: Ln)
    | CloserCloses(ln: Ln)
    | AcceptFails(ln: Ln)                   // any error, of a closed listener or an open one
    | DeleteEntry(ln: Ln)
    | CancelLooks(id: nat, addr: Addr)
    | CancelCloses(id: nat)

  predicate Enabled(s: State, e: Step) {
    match e
    case Listen(ln, _, _) => ln !in s.info
    case Insert(ln) => ln in s.inserting && ln in s.info
    case ContextDone(_) => true
    case CloserLooks(ln) =>
      ln in s.closers && s.closers[ln].Waiting? && ln in s.info && s.info[ln].ctx in s.doneCtx
    case CloserCloses(ln) => ln in s.closers && s.closers[ln].Holding?
    case AcceptFails(ln) => ln in s.acceptors && s.acceptors[ln].Accepting?
    case DeleteEntry(ln) => ln in s.acceptors && s.acceptors[ln].Deleting? && ln in s.info
    case CancelLooks(id, _) => id !in s.cancels
    case CancelCloses(id) => id in s.cancels
  }

  function Apply(s: State, e: Step): State
    requires Enabled(s, e)
  {
    match e
    case Listen(ln, ctx, addr) => s.(info := s.info[ln := Info(ctx, addr)], inserting := s.inserting + {ln})
    case Insert(ln) =>
      s.(forwards := s.forwards[s.info[ln].addr := ln], inserting := s.inserting - {ln},
         closers := s.closers[ln := Waiting], acceptors := s.acceptors[ln := Accepting])
    case ContextDone(ctx) => s.(doneCtx := s.doneCtx + {ctx})
    case CloserLooks(ln) =>
      var addr := s.info[ln].addr;
      s.(closers := s.closers[ln := if addr in s.forwards then Holding(s.forwards[addr]) else CloserEnded])
    case CloserCloses(ln) =>
      s.(closed := s.closed + {s.closers[ln].ln}, closers := s.closers[ln := CloserEnded])
    case AcceptFails(ln) => s.(acceptors := s.acceptors[ln := Deleting])
    case DeleteEntry(ln) =>
      s.(forwards := s.forwards - {s.info[ln].addr}, acceptors := s.acceptors[ln := AcceptorEnded])
    case CancelLooks(id, addr) =>
      if addr in s.forwards then s.(cancels := s.cancels[id := s.forwards[addr]]) else s
    case CancelCloses(id) => s.(closed := s.closed + {s.cancels[id]}, cancels := s.cancels - {id})
  }

  /** The step puts a listener over an entry that is still there. */
  predicate Overwrites(s: State, e: Step) {
    e.Insert? && e.ln in s.info && s.info[e.ln].addr in s.forwards
  }

  /** Somebody has looked the listener up and is about to close it. */
  ghost predicate Held(s: State, ln: Ln) {
    || (exists x :: x in s.closers && s.closers[x] == Holding(ln))
    || (exists id :: id in s.cancels && s.cancels[id] == ln)
  }

  /** Closed, or, unless we are strict, about to be. */
  ghost predicate Safe(s: State, ln: Ln, strict: bool) {
    ln in s.closed || (!strict && Held(s, ln))
  }

  /** Accept fails, and its loop ends, although the listener is not safe. */
  ghost predicate Faulty(s: State, e: Step, strict: bool) {
    e.AcceptFails? && !Safe(s, e.ln, strict)
  }

  /** The accepting goroutine gives up a listener that is open and that nobody is about to close. */
  ghost predicate Abandons(s: State, e: Step) { Faulty(s, e, false) }

  /** No step before k overwrites an entry, and none is faulty. */
  ghost predicate Careful(ss: seq<State>, es: seq<Step>, k: nat, strict: bool)
    requires |ss| == |es| + 1 && k <= |es|
  {
    forall j :: 0 <= j < k ==> !Overwrites(ss[j], es[j]) && !Faulty(ss[j], es[j], strict)
  }

  /** A run of steps from any state. */
  ghost predicate IsRun(ss: seq<State>, es: seq<Step>) {
    && |ss| == |es| + 1
    && forall k :: 0 <= k < |es| ==> Enabled(ss[k], es[k]) && ss[k + 1] == Apply(ss[k], es[k])
  }

  // ---------------------------------------------------------------- invariants

  /** True of every reachable state. */
  ghost predicate Tidy(s: State) {
    && s.inserting <= s.info.Keys
    && s.closers.Keys == s.acceptors.Keys == s.info.Keys - s.inserting
    && s.closed <= s.acceptors.Keys
    && (forall a :: a in s.forwards ==>
          && s.forwards[a] in s.acceptors
          && s.info[s.forwards[a]].addr == a
          && !s.acceptors[s.forwards[a]].AcceptorEnded?)
    && (forall x :: x in s.closers && s.closers[x].Holding? ==> s.closers[x].ln in s.acceptors)
    && (forall id :: id in s.cancels ==> s.cancels[id] in s.acceptors)
  }

  /** As long as no entry is overwritten, every acceptor still at work has its entry ... */
  ghost predicate EntriesPaired(s: State)
    requires Tidy(s)
  {
    forall ln :: ln in s.acceptors && !s.acceptors[ln].AcceptorEnded? ==>
      && s.info[ln].addr in s.forwards
      && s.forwards[s.info[ln].addr] == ln
  }

  /** ... and an acceptor that has given up, or a closer that will not close its listener, leaves it safe. */
  ghost predicate LeavesSafe(s: State, strict: bool) {
    && (forall ln :: ln in s.acceptors && !s.acceptors[ln].Accepting? ==> Safe(s, ln, strict))
    && (forall ln :: ln in s.closers && s.closers[ln].CloserEnded? ==> Safe(s, ln, strict))
    && (forall ln :: ln in s.closers && s.closers[ln].Holding? && s.closers[ln].ln != ln ==> Safe(s, ln, strict))
  }

  ghost predicate Paired(s: State, strict: bool)
    requires Tidy(s)
  {
    EntriesPaired(s) && LeavesSafe(s, strict)
  }

  lemma TidyStep(s: State, e: Step)
    requires Tidy(s) && Enabled(s, e)
    ensures Tidy(Apply(s, e))
  {
  }

  lemma EntriesStep(s: State, e: Step)
    requires Tidy(s) && Enabled(s, e) && Tidy(Apply(s, e)) && EntriesPaired(s) && !Overwrites(s, e)
    ensures EntriesPaired(Apply(s, e))
  {
  }

  /** What was safe stays safe: whoever lets go of a listener closes it. */
  lemma SafeStep(s: State, e: Step, ln: Ln, strict: bool)
    requires Tidy(s) && Enabled(s, e) && Safe(s, ln, strict)
    ensures Safe(Apply(s, e), ln, strict)
  {
    var t := Apply(s, e);
    if ln !in s.closed {
      if x :| x in s.closers && s.closers[x] == Holding(ln) {
        assert t.closers[x] == Holding(ln) || ln in t.closed;
      } else {
        var id :| id in s.cancels && s.cancels[id] == ln;
        assert (id in t.cancels && t.cancels[id] == ln) || ln in t.closed;
      }
    }
  }

  /** How a step moves the goroutines of a listener. */
  lemma GoroutineChange(s: State, e: Step, ln: Ln)
    requires Tidy(s) && Enabled(s, e) && ln in Apply(s, e).acceptors
    ensures var t := Apply(s, e);
      && ln in t.closers
      && (ln !in s.acceptors ==> t.acceptors[ln].Accepting? && t.closers[ln].Waiting?)
      && (ln in s.acceptors ==>
            && ln in s.closers && ln in s.info
            && (t.acceptors[ln] == s.acceptors[ln] || e == AcceptFails(ln) || e == DeleteEntry(ln))
            && (e == DeleteEntry(ln) ==> s.acceptors[ln].Deleting?)
            && (t.closers[ln] == s.closers[ln] || e == CloserLooks(ln) || e == CloserCloses(ln))
            && (e == CloserCloses(ln) ==> s.closers[ln].Holding? && s.closers[ln].ln in t.closed)
            && (e == CloserLooks(ln) ==>
                  t.closers[ln] == if s.info[ln].addr in s.forwards then Holding(s.forwards[s.info[ln].addr])
                                   else CloserEnded))
  {
  }

  lemma LeavesSafeStep(s: State, e: Step, strict: bool)
    requires Tidy(s) && Paired(s, strict) && Enabled(s, e) && !Faulty(s, e, strict) && Tidy(Apply(s, e))
    ensures LeavesSafe(Apply(s, e), strict)
  {
    var t := Apply(s, e);
    forall ln | ln in t.acceptors
      ensures !t.acceptors[ln].Accepting? ==> Safe(t, ln, strict)
      ensures t.closers[ln].CloserEnded? ==> Safe(t, ln, strict)
      ensures t.closers[ln].Holding? && t.closers[ln].ln != ln ==> Safe(t, ln, strict)
    {
      GoroutineChange(s, e, ln);
      hide Apply, Enabled, Safe;
      if Safe(s, ln, strict) {
        SafeStep(s, e, ln, strict);
      } else if e == CloserCloses(ln) {
        ClosedIsSafe(t, ln, strict);
      }
    }
  }

  lemma ClosedIsSafe(s: State, ln: Ln, strict: bool)
    ensures ln in s.closed ==> Safe(s, ln, strict)
  {
  }

  lemma PairedStep(s: State, e: Step, strict: bool)
    requires Tidy(s) && Paired(s, strict) && Enabled(s, e) && !Overwrites(s, e) && !Faulty(s, e, strict)
    ensures Tidy(Apply(s, e)) && Paired(Apply(s, e), strict)
  {
    hide Apply, Tidy, EntriesPaired, LeavesSafe;
    TidyStep(s, e);
    EntriesStep(s, e);
    LeavesSafeStep(s, e, strict);
  }

  lemma {:induction false} RunStaysPaired(ss: seq<State>, es: seq<Step>, k: nat, strict: bool)
    requires IsRun(ss, es) && ss[0] == INIT && k <= |es| && Careful(ss, es, k, strict)
    ensures Tidy(ss[k]) && Paired(ss[k], strict)
  {
    if k > 0 {
      RunStaysPaired(ss, es, k - 1, strict);
      assert ss[k - 1 + 1] == Apply(ss[k - 1], es[k - 1]);
      PairedStep(ss[k - 1], es[k - 1], strict);
    }
  }

  /** Nothing of the closing machinery is left to run. */
  ghost predicate ClosersEnded(s: State) {
    s.inserting == {} && forall ln :: ln in s.closers ==> s.closers[ln].CloserEnded?
  }

  ghost predicate AcceptorsEnded(s: State) {
    forall ln :: ln in s.acceptors ==> s.acceptors[ln].AcceptorEnded?
  }

  /**
   In every run in which no entry is overwritten and Accept fails only on closed
   listeners, once the closing goroutines have ended every listener is closed, and once
   the acceptors have ended too the map is empty. It is enough that Accept fails only on
   listeners closed or about to be, when no cancel request is still at work.
   */
  lemma EveryListenerIsClosed(ss: seq<State>, es: seq<Step>, k: nat, strict: bool)
    requires IsRun(ss, es) && ss[0] == INIT && k <= |es| && Careful(ss, es, k, strict)
    requires ClosersEnded(ss[k]) && (strict || ss[k].cancels == map[])
    ensures ss[k].info.Keys <= ss[k].closed
    ensures AcceptorsEnded(ss[k]) ==> ss[k].forwards == map[]
  {
    RunStaysPaired(ss, es, k, strict);
    AllClosed(ss[k], strict);
    if AcceptorsEnded(ss[k]) {
      assert forall a :: a !in ss[k].forwards;
    }
  }

  lemma AllClosed(s: State, strict: bool)
    requires Tidy(s) && Paired(s, strict) && ClosersEnded(s) && (strict || s.cancels == map[])
    ensures s.info.Keys <= s.closed
  {
    forall ln | ln in s.info
      ensures ln in s.closed
    {
      assert ln in s.closers;
      assert Safe(s, ln, strict);
    }
  }

  /** A cancel closes the listener that the address led to when it looked, whatever happens in between. */
  lemma {:induction false} CancelClosesItsListener(ss: seq<State>, es: seq<Step>, i: nat, k: nat, id: nat, a: Addr)
    requires IsRun(ss, es) && i < k < |es|
    requires es[i] == CancelLooks(id, a) && a in ss[i].forwards && es[k] == CancelCloses(id)
    requires forall j :: i < j < k ==> es[j] != CancelCloses(id)
    ensures ss[i].forwards[a] in ss[k + 1].closed
  {
    CancelHolds(ss, es, i, k, id, a);
    assert ss[k + 1] == Apply(ss[k], es[k]);
  }

  lemma {:induction false} CancelHolds(ss: seq<State>, es: seq<Step>, i: nat, k: nat, id: nat, a: Addr)
    requires IsRun(ss, es) && i < k <= |es|
    requires es[i] == CancelLooks(id, a) && a in ss[i].forwards
    requires forall j :: i < j < k ==> es[j] != CancelCloses(id)
    ensures id in ss[k].cancels && ss[k].cancels[id] == ss[i].forwards[a]
  {
    assert ss[k - 1 + 1] == Apply(ss[k - 1], es[k - 1]);
    if i + 1 < k {
      CancelHolds(ss, es, i, k - 1, id, a);
    }
  }

  // ---------------------------------------------------------------- when listeners are closed

  /** Contexts end by ContextDone alone, and a closing goroutine looks, for its own address, only after that. */
  ghost predicate ClosersWait(s: State, es: seq<Step>) {
    && (forall c :: c in s.doneCtx <==> ContextDone(c) in es)
    && (forall x :: x in s.closers && !s.closers[x].Waiting? ==> x in s.info && s.info[x].ctx in s.doneCtx)
    && (forall x :: x in s.closers && s.closers[x].Holding? ==>
          s.closers[x].ln in s.info && s.info[s.closers[x].ln].addr == s.info[x].addr)
  }

  /** A cancel at work, and a listener that is closed, have a cause. */
  ghost predicate ClosedForCause(s: State, es: seq<Step>) {
    && (forall id :: id in s.cancels ==> s.cancels[id] in s.info && CanceledBy(s, es, s.cancels[id]))
    && (forall ln :: ln in s.closed ==> ln in s.info && (CanceledBy(s, es, ln) || EndedBy(s, ln)))
  }

  /** Somebody asked to cancel the listener's address. */
  ghost predicate CanceledBy(s: State, es: seq<Step>, ln: Ln)
    requires ln in s.info
  {
    exists id :: CancelLooks(id, s.info[ln].addr) in es
  }

  /** The context of a forward of the same address has ended. */
  ghost predicate EndedBy(s: State, ln: Ln)
    requires ln in s.info
  {
    exists x :: x in s.info && s.info[x].addr == s.info[ln].addr && s.info[x].ctx in s.doneCtx
  }

  lemma ClosersWaitStep(s: State, es: seq<Step>, e: Step)
    requires Tidy(s) && ClosersWait(s, es) && Enabled(s, e)
    ensures ClosersWait(Apply(s, e), es + [e])
  {
    hide Apply, Enabled, Tidy;
    assert forall x :: x in es + [e] <==> x in es || x == e;
    ContextsChange(s, e);
    forall x | x in Apply(s, e).closers
      ensures !Apply(s, e).closers[x].Waiting? ==>
                x in Apply(s, e).info && Apply(s, e).info[x].ctx in Apply(s, e).doneCtx
      ensures Apply(s, e).closers[x].Holding? ==>
                var ln := Apply(s, e).closers[x].ln;
                && x in Apply(s, e).info && ln in Apply(s, e).info
                && Apply(s, e).info[ln].addr == Apply(s, e).info[x].addr
    {
      CloserChange(s, e, x);
    }
  }

  lemma ContextsChange(s: State, e: Step)
    requires Enabled(s, e)
    ensures Apply(s, e).doneCtx == if e.ContextDone? then s.doneCtx + {e.ctx} else s.doneCtx
    ensures forall ln :: ln in s.info ==> ln in Apply(s, e).info && Apply(s, e).info[ln] == s.info[ln]
  {
  }

  /** A closing goroutine moves by its own steps alone. */
  lemma CloserChange(s: State, e: Step, x: Ln)
    requires Tidy(s) && Enabled(s, e) && x in Apply(s, e).closers
    ensures var c := Apply(s, e).closers[x];
      || (e == Insert(x) && c.Waiting?)
      || (x in s.closers && c == s.closers[x])
      || (e == CloserLooks(x) && x in s.info && s.info[x].ctx in s.doneCtx
          && (c.Holding? ==> c.ln in s.info && s.info[c.ln].addr == s.info[x].addr))
      || (e == CloserCloses(x) && c.CloserEnded? && x in s.closers && s.closers[x].Holding?)
  {
  }

  /** What a step adds to the cancels at work and to the closed listeners. */
  lemma CauseAdded(s: State, es: seq<Step>, e: Step)
    requires Tidy(s) && ClosersWait(s, es) && ClosedForCause(s, es) && Enabled(s, e)
    ensures var t := Apply(s, e);
      && (forall id :: id in t.cancels ==>
            (id in s.cancels && t.cancels[id] == s.cancels[id]) ||
            (t.cancels[id] in s.info && CanceledBy(s, es + [e], t.cancels[id])))
      && (forall ln :: ln in t.closed ==>
            ln in s.closed || (ln in s.info && (CanceledBy(s, es, ln) || EndedBy(s, ln))))
  {
    if e.CancelLooks? && e.addr in s.forwards {
      assert CancelLooks(e.id, e.addr) in es + [e];
    }
    if e.CloserCloses? {
      var x, ln := e.ln, s.closers[e.ln].ln;
      assert x in s.info && s.info[x].addr == s.info[ln].addr && s.info[x].ctx in s.doneCtx;
    }
  }

  lemma CauseStep(s: State, es: seq<Step>, e: Step)
    requires Tidy(s) && ClosersWait(s, es) && ClosedForCause(s, es) && Enabled(s, e)
    ensures ClosedForCause(Apply(s, e), es + [e])
  {
    hide Apply, Enabled, CanceledBy, EndedBy, Tidy, ClosersWait;
    CauseAdded(s, es, e);
    forall ln | ln in s.info
      ensures ln in Apply(s, e).info
      ensures CanceledBy(s, es, ln) || CanceledBy(s, es + [e], ln) ==> CanceledBy(Apply(s, e), es + [e], ln)
      ensures EndedBy(s, ln) ==> EndedBy(Apply(s, e), ln)
    {
      CauseKept(s, es, e, ln);
    }
  }

  lemma CauseKept(s: State, es: seq<Step>, e: Step, ln: Ln)
    requires Enabled(s, e) && ln in s.info
    ensures var t := Apply(s, e);
      && ln in t.info && t.info[ln] == s.info[ln]
      && (CanceledBy(s, es, ln) || CanceledBy(s, es + [e], ln) ==> CanceledBy(t, es + [e], ln))
      && (EndedBy(s, ln) ==> EndedBy(t, ln))
  {
    var t := Apply(s, e);
    if CanceledBy(s, es, ln) {
      var id :| CancelLooks(id, s.info[ln].addr) in es;
      assert CancelLooks(id, t.info[ln].addr) in es + [e];
    }
    if EndedBy(s, ln) {
      var x :| x in s.info && s.info[x].addr == s.info[ln].addr && s.info[x].ctx in s.doneCtx;
      assert x in t.info && t.info[x] == s.info[x] && t.info[x].ctx in t.doneCtx;
    }
  }

  /** No listener is closed before its address was canceled or the context of a forward of that address ended. */
  lemma {:induction false} NothingClosedEarly(ss: seq<State>, es: seq<Step>, k: nat)
    requires IsRun(ss, es) && ss[0] == INIT && k <= |es|
    ensures ClosersWait(ss[k], es[..k]) && ClosedForCause(ss[k], es[..k])
  {
    hide Apply, Enabled, ClosersWait, ClosedForCause, Tidy;
    if k == 0 {
      InitCause();
      assert es[..0] == [];
    } else {
      NothingClosedEarly(ss, es, k - 1);
      TidyRun(ss, es, k - 1);
      assert Enabled(ss[k - 1], es[k - 1]) && ss[k - 1 + 1] == Apply(ss[k - 1], es[k - 1]);
      assert es[..k] == es[..k - 1] + [es[k - 1]];
      ClosersWaitStep(ss[k - 1], es[..k - 1], es[k - 1]);
      CauseStep(ss[k - 1], es[..k - 1], es[k - 1]);
    }
  }

  lemma InitCause()
    ensures ClosersWait(INIT, []) && ClosedForCause(INIT, [])
  {
  }

  // ---------------------------------------------------------------- addresses forwarded once

  /** Each bind address is listened on at most once in the run. */
  ghost predicate DistinctAddresses(es: seq<Step>) {
    forall i, j :: 0 <= i < j < |es| && es[i].Listen? && es[j].Listen? ==> es[i].addr != es[j].addr
  }

  lemma {:induction false} InfoComesFromListen(ss: seq<State>, es: seq<Step>, k: nat, ln: Ln) returns (i: nat)
    requires IsRun(ss, es) && ss[0] == INIT && k <= |es| && ln in ss[k].info
    ensures i < k && es[i] == Listen(ln, ss[k].info[ln].ctx, ss[k].info[ln].addr)
  {
    assert k > 0;
    assert ss[k - 1 + 1] == Apply(ss[k - 1], es[k - 1]);
    if ln in ss[k - 1].info {
      i := InfoComesFromListen(ss, es, k - 1, ln);
    } else {
      i := k - 1;
    }
  }

  /** Forwarding each address at most once rules overwriting out. */
  lemma DistinctAddressesNeverOverwrite(ss: seq<State>, es: seq<Step>, k: nat)
    requires IsRun(ss, es) && ss[0] == INIT && k < |es| && DistinctAddresses(es)
    requires Tidy(ss[k])
    ensures !Overwrites(ss[k], es[k])
  {
    if Overwrites(ss[k], es[k]) {
      var s, ln := ss[k], es[k].ln;
      assert Enabled(s, es[k]);
      var other := s.forwards[s.info[ln].addr];
      assert ln in s.inserting && other !in s.inserting;
      var i := InfoComesFromListen(ss, es, k, ln);
      var j := InfoComesFromListen(ss, es, k, other);
      assert false;
    }
  }

  lemma {:induction false} TidyRun(ss: seq<State>, es: seq<Step>, k: nat)
    requires IsRun(ss, es) && ss[0] == INIT && k <= |es|
    ensures Tidy(ss[k])
  {
    if k > 0 {
      TidyRun(ss, es, k - 1);
      assert ss[k - 1 + 1] == Apply(ss[k - 1], es[k - 1]);
      TidyStep(ss[k - 1], es[k - 1]);
    }
  }

  /** With each address forwarded at most once, only an Accept that fails on an open listener can leak. */
  lemma ForwardedOnceIsClosed(ss: seq<State>, es: seq<Step>, k: nat, strict: bool)
    requires IsRun(ss, es) && ss[0] == INIT && k <= |es| && DistinctAddresses(es)
    requires forall j :: 0 <= j < k ==> !Faulty(ss[j], es[j], strict)
    requires ClosersEnded(ss[k]) && (strict || ss[k].cancels == map[])
    ensures ss[k].info.Keys <= ss[k].closed
    ensures AcceptorsEnded(ss[k]) ==> ss[k].forwards == map[]
  {
    forall j | 0 <= j < k
      ensures !Overwrites(ss[j], es[j])
    {
      TidyRun(ss, es, j);
      DistinctAddressesNeverOverwrite(ss, es, j);
    }
    EveryListenerIsClosed(ss, es, k, strict);
  }

  // ---------------------------------------------------------------- how listeners are lost

  /** Open, and nobody knows it any more who would close it. */
  ghost predicate Orphan(s: State, ln: Ln) {
    && ln in s.info && ln !in s.inserting && ln !in s.closed
    && (forall a :: a in s.forwards ==> s.forwards[a] != ln)
    && (forall x :: x in s.closers ==> s.closers[x] != Holding(ln))
    && (forall id :: id in s.cancels ==> s.cancels[id] != ln)
  }

  /** A state that no overwriting or abandoning step has led to has no orphans. */
  lemma PairedMeansNoOrphan(s: State, ln: Ln)
    requires Tidy(s) && Paired(s, false)
    ensures !Orphan(s, ln)
  {
    if Orphan(s, ln) {
      assert false;
    }
  }

  /** An abandoned listener is lost as soon as its acceptor deletes the entry. */
  lemma AbandonedIsLost(s: State, e: Step)
    requires Tidy(s) && Enabled(s, e) && Abandons(s, e)
    ensures Enabled(Apply(s, e), DeleteEntry(e.ln))
    ensures Orphan(Apply(Apply(s, e), DeleteEntry(e.ln)), e.ln)
  {
    assert !Held(s, e.ln);
  }

  /** `n` is in the map for an address for which `was`, whose acceptor is still at work, was there before. */
  ghost predicate Replaced(s: State, was: Ln, n: Ln) {
    && Tidy(s) && was != n
    && n in s.info && n !in s.inserting && n !in s.closed
    && was in s.acceptors && !s.acceptors[was].AcceptorEnded? && s.info[was].addr == s.info[n].addr
    && (forall x :: x in s.closers ==> s.closers[x] != Holding(n))
    && (forall id :: id in s.cancels ==> s.cancels[id] != n)
  }

  lemma OverwriteReplaces(s: State, e: Step)
    requires Tidy(s) && Enabled(s, e) && Overwrites(s, e)
    ensures Replaced(Apply(s, e), s.forwards[s.info[e.ln].addr], e.ln)
  {
    TidyStep(s, e);
  }

  /** The acceptor of a replaced and closed listener deletes the entry of the listener that replaced it. */
  lemma ReplacedClosedLosesNew(s: State, was: Ln, n: Ln) returns (ss: seq<State>, es: seq<Step>)
    requires Replaced(s, was, n) && was in s.closed
    ensures IsRun(ss, es) && ss[0] == s && |es| <= 2 && Orphan(ss[|es|], n)
    ensures Careful(ss, es, |es|, true)
  {
    if s.acceptors[was].Deleting? {
      es := [DeleteEntry(was)];
      ss := [s, Apply(s, es[0])];
    } else {
      es := [AcceptFails(was), DeleteEntry(was)];
      var s1 := Apply(s, es[0]);
      ss := [s, s1, Apply(s1, es[1])];
    }
  }

  /** Closing a replaced listener by one who holds it. */
  lemma HolderCloses(s: State, was: Ln, n: Ln, e: Step)
    requires Replaced(s, was, n) && Enabled(s, e)
    requires (e.CloserCloses? && s.closers[e.ln].ln == was) || (e.CancelCloses? && s.cancels[e.id] == was)
    ensures Replaced(Apply(s, e), was, n) && was in Apply(s, e).closed
  {
    TidyStep(s, e);
  }

  lemma Prepend(s: State, e: Step, ss: seq<State>, es: seq<Step>)
    requires Enabled(s, e) && IsRun(ss, es) && ss[0] == Apply(s, e)
    requires !Overwrites(s, e) && !Faulty(s, e, true) && Careful(ss, es, |es|, true)
    ensures IsRun([s] + ss, [e] + es) && Careful([s] + ss, [e] + es, |es| + 1, true)
  {
    hide Overwrites, Faulty;
    forall k | 0 <= k < |[e] + es|
      ensures Enabled(([s] + ss)[k], ([e] + es)[k]) && ([s] + ss)[k + 1] == Apply(([s] + ss)[k], ([e] + es)[k])
      ensures !Overwrites(([s] + ss)[k], ([e] + es)[k]) && !Faulty(([s] + ss)[k], ([e] + es)[k], true)
    {
      if k > 0 {
        assert ss[k - 1 + 1] == Apply(ss[k - 1], es[k - 1]);
      }
    }
  }

  /**
   Whenever an entry is overwritten, at most three further steps lose a listener for
   good: the earlier one if it was open and nobody was about to close it, and otherwise
   the later one, whose entry the earlier one's acceptor deletes. No Accept has to fail
   on an open listener for that.
   */
  lemma OverwriteCanLeak(s: State, e: Step) returns (ss: seq<State>, es: seq<Step>, ln: Ln)
    requires Tidy(s) && Enabled(s, e) && Overwrites(s, e)
    ensures IsRun(ss, es) && ss[0] == Apply(s, e) && |es| <= 3 && Careful(ss, es, |es|, true)
    ensures Orphan(ss[|es|], ln)
    ensures ln == e.ln || ln == s.forwards[s.info[e.ln].addr]
  {
    var was, t := s.forwards[s.info[e.ln].addr], Apply(s, e);
    OverwriteReplaces(s, e);
    if was in t.closed {
      ss, es := ReplacedClosedLosesNew(t, was, e.ln);
      ln := e.ln;
    } else if Orphan(t, was) {
      ss, es, ln := [t], [], was;
    } else {
      var first: Step;
      if x :| x in t.closers && t.closers[x] == Holding(was) {
        first := CloserCloses(x);
      } else {
        var id :| id in t.cancels && t.cancels[id] == was;
        first := CancelCloses(id);
      }
      HolderCloses(t, was, e.ln, first);
      var ss', es' := ReplacedClosedLosesNew(Apply(t, first), was, e.ln);
      Prepend(t, first, ss', es');
      ss, es, ln := [t] + ss', [first] + es', e.ln;
    }
  }

  /** An orphan stays open for ever, whatever happens next. */
  lemma {:induction false} OrphansStayOpen(ss: seq<State>, es: seq<Step>, k: nat, ln: Ln)
    requires IsRun(ss, es) && k <= |es| && Orphan(ss[0], ln)
    ensures Orphan(ss[k], ln) && ln !in ss[k].closed
  {
    if k > 0 {
      OrphansStayOpen(ss, es, k - 1, ln);
      assert ss[k - 1 + 1] == Apply(ss[k - 1], es[k - 1]);
    }
  }

  /** Two forwards that ask for "host:0" get two ports but one key: the first listener is lost. */
  lemma SamePortZeroLeaks() returns (ss: seq<State>, es: seq<Step>)
    ensures IsRun(ss, es) && ss[0] == INIT && |es| == 4
    ensures es[0] == Listen(1, 0, "host:0") && es[2] == Listen(2, 0, "host:0")
    ensures Orphan(ss[4], 1)
  {
    es := [Listen(1, 0, "host:0"), Insert(1), Listen(2, 0, "host:0"), Insert(2)];
    var s1 := Apply(INIT, es[0]);
    var s2 := Apply(s1, es[1]);
    var s3 := Apply(s2, es[2]);
    var s4 := Apply(s3, es[3]);
    ss := [INIT, s1, s2, s3, s4];
  }

  /** After forwarding and cancelling h:1, before the first acceptor has noticed. */
  const CANCELED := INIT.(
    forwards := map["h:1" := 1], info := map[1 := Info(0, "h:1")], closed := {1},
    closers := map[1 := Waiting], acceptors := map[1 := Accepting])

  lemma ForwardThenCancel() returns (ss: seq<State>)
    ensures IsRun(ss, [Listen(1, 0, "h:1"), Insert(1), CancelLooks(0, "h:1"), CancelCloses(0)])
    ensures ss[0] == INIT && ss[4] == CANCELED
  {
    var s1 := Apply(INIT, Listen(1, 0, "h:1"));
    var s2 := Apply(s1, Insert(1));
    var s3 := Apply(s2, CancelLooks(0, "h:1"));
    ss := [INIT, s1, s2, s3, CANCELED];
  }

  lemma ForwardAgain() returns (ss: seq<State>)
    ensures IsRun(ss, [Listen(2, 0, "h:1"), Insert(2), AcceptFails(1), DeleteEntry(1)])
    ensures ss[0] == CANCELED && 1 in ss[4].closed && Orphan(ss[4], 2)
  {
    var s1 := Apply(CANCELED, Listen(2, 0, "h:1"));
    var s2 := Apply(s1, Insert(2));
    var s3 := Apply(s2, AcceptFails(1));
    ss := [CANCELED, s1, s2, s3, Apply(s3, DeleteEntry(1))];
  }

  /** Forward, cancel, forward the same address again: the first acceptor deletes the second listener's entry. */
  lemma CancelThenForwardAgainLeaks() returns (ss: seq<State>, es: seq<Step>)
    ensures IsRun(ss, es) && ss[0] == INIT
    ensures es == [Listen(1, 0, "h:1"), Insert(1), CancelLooks(0, "h:1"), CancelCloses(0),
                   Listen(2, 0, "h:1"), Insert(2), AcceptFails(1), DeleteEntry(1)]
    ensures 1 in ss[8].closed && Orphan(ss[8], 2)
  {
    hide Enabled, Apply, Orphan;
    var first := ForwardThenCancel();
    var second := ForwardAgain();
    ss := first + second[1..];
    es := [Listen(1, 0, "h:1"), Insert(1), CancelLooks(0, "h:1"), CancelCloses(0),
           Listen(2, 0, "h:1"), Insert(2), AcceptFails(1), DeleteEntry(1)];
    forall k | 0 <= k < 8
      ensures Enabled(ss[k], es[k]) && ss[k + 1] == Apply(ss[k], es[k])
    {
      if k >= 4 {
        assert ss[k] == second[k - 4] && ss[k + 1] == second[k - 4 + 1];
      }
    }
  }

  /** One Accept error on an open listener loses it: the entry is deleted and nobody closes it. */
  lemma AcceptErrorLeaks() returns (ss: seq<State>, es: seq<Step>)
    ensures IsRun(ss, es) && ss[0] == INIT
    ensures es == [Listen(1, 0, "h:1"), Insert(1), AcceptFails(1), DeleteEntry(1)]
    ensures forall j :: 0 <= j < 4 ==> !Overwrites(ss[j], es[j])
    ensures Orphan(ss[4], 1)
  {
    es := [Listen(1, 0, "h:1"), Insert(1), AcceptFails(1), DeleteEntry(1)];
    var s1 := Apply(INIT, es[0]);
    var s2 := Apply(s1, es[1]);
    var s3 := Apply(s2, es[2]);
    ss := [INIT, s1, s2, s3, Apply(s3, es[3])];
  }

  /** At most three steps lead to an orphan, none of them overwriting or an Accept failing on an open listener. */
  ghost predicate NearLeak(s: State) {
    exists ss, es, ln ::
      IsRun(ss, es) && ss[0] == s && |es| <= 3 && Careful(ss, es, |es|, true) && Orphan(ss[|es|], ln)
  }

  /**
   A listener can be lost if and only if some step overwrites an entry or abandons a
   listener: in every run there is no orphan before the first such step, and after each
   such step one is at most three ordinary steps away.
   */
  lemma LeakIffOverwriteOrAbandon(ss: seq<State>, es: seq<Step>, k: nat)
    requires IsRun(ss, es) && ss[0] == INIT && k <= |es|
    ensures Careful(ss, es, k, false) ==> forall j, ln :: 0 <= j <= k ==> !Orphan(ss[j], ln)
    ensures forall j :: 0 <= j < k && (Overwrites(ss[j], es[j]) || Abandons(ss[j], es[j])) ==> NearLeak(ss[j + 1])
  {
    hide Orphan, Overwrites, Faulty;
    if Careful(ss, es, k, false) {
      forall j, ln | 0 <= j <= k
        ensures !Orphan(ss[j], ln)
      {
        RunStaysPaired(ss, es, j, false);
        PairedMeansNoOrphan(ss[j], ln);
      }
    }
    forall j | 0 <= j < k && (Overwrites(ss[j], es[j]) || Abandons(ss[j], es[j]))
      ensures NearLeak(ss[j + 1])
    {
      TidyRun(ss, es, j);
      StepNearsLeak(ss[j], es[j]);
    }
  }

  lemma StepNearsLeak(s: State, e: Step)
    requires Tidy(s) && Enabled(s, e) && (Overwrites(s, e) || Abandons(s, e))
    ensures NearLeak(Apply(s, e))
  {
    hide Orphan, Enabled, Apply, Tidy;
    if Overwrites(s, e) {
      var ss, es, ln := OverwriteCanLeak(s, e);
      assert IsRun(ss, es) && Orphan(ss[|es|], ln);
    } else {
      var t, d := Apply(s, e), DeleteEntry(e.ln);
      AbandonedIsLost(s, e);
      var ss, es := [t, Apply(t, d)], [d];
      assert IsRun(ss, es) && Careful(ss, es, |es|, true) && Orphan(ss[|es|], e.ln);
    }
  }

  // ---------------------------------------------------------------- the handler object

  /** What the goroutines and the requests in flight know, and the listeners they have closed. */
  datatype Stacks = Stacks(addrs: map<Ln, Addr>, found: map<Ln, Ln>, cancels: map<nat, Ln>, closed: set<Ln>)

  ghost predicate Follows(w: Stacks, s: State) {
    && (forall ln :: ln in s.info ==> ln in w.addrs && w.addrs[ln] == s.info[ln].addr)
    && (forall x :: x in s.closers && s.closers[x].Holding? ==> x in w.found && w.found[x] == s.closers[x].ln)
    && w.cancels == s.cancels && w.closed == s.closed
  }

  /** What the steps find on the stacks ... */
  lemma StacksServe(w: Stacks, s: State, e: Step)
    requires Follows(w, s) && Enabled(s, e) && Tidy(s)
    ensures e.Insert? || e.CloserLooks? || e.DeleteEntry? ==>
              e.ln in s.info && e.ln in w.addrs && w.addrs[e.ln] == s.info[e.ln].addr
    ensures e.CloserCloses? ==> e.ln in w.found
    ensures e.CancelCloses? ==> e.id in w.cancels
  {
  }

  /** ... and leave there: the goroutines' steps, */
  lemma ClosersChange(w: Stacks, s: State, e: Step)
    requires Follows(w, s) && Enabled(s, e) && (e.CloserLooks? || e.CloserCloses?)
    ensures e.CloserCloses? ==> e.ln in w.found && Follows(w.(closed := w.closed + {w.found[e.ln]}), Apply(s, e))
    ensures e.CloserLooks? ==>
              && e.ln in Apply(s, e).closers
              && (var c := Apply(s, e).closers[e.ln];
                  Follows(if c.Holding? then w.(found := w.found[e.ln := c.ln]) else w, Apply(s, e)))
  {
  }

  /** the cancel requests', */
  lemma CancelsChange(w: Stacks, s: State, e: Step)
    requires Follows(w, s) && Enabled(s, e) && (e.CancelLooks? || e.CancelCloses?)
    ensures e.CancelCloses? ==>
              && e.id in w.cancels
              && Follows(w.(closed := w.closed + {w.cancels[e.id]}, cancels := w.cancels - {e.id}), Apply(s, e))
    ensures e.CancelLooks? ==> Follows(w.(cancels := Apply(s, e).cancels), Apply(s, e))
  {
  }

  /** and the others. */
  lemma StacksChange(w: Stacks, s: State, e: Step)
    requires Follows(w, s) && Enabled(s, e)
    ensures e.Listen? ==> Follows(w.(addrs := w.addrs[e.ln := e.addr]), Apply(s, e))
    ensures e.Insert? || e.DeleteEntry? || e.ContextDone? || e.AcceptFails? ==> Follows(w, Apply(s, e))
  {
  }

  /** Only an Insert overwrites, and only a failing Accept is faulty. */
  lemma CarelessKinds(s: State, e: Step, strict: bool)
    requires Overwrites(s, e) || Faulty(s, e, strict)
    ensures e.AcceptFails? || (e.Insert? && e.ln in s.info && s.info[e.ln].addr in s.forwards)
  {
  }

  /**
   The handler owns the map and nothing else. The ghost state is the run so far, and
   `clean` says that no step of it overwrote an entry or was faulty.
   */
  class ForwardedTCPHandler {
    var forwards: map<Addr, Ln>
    ghost const strict: bool
    ghost var state: State
    ghost var clean: bool

    ghost predicate Valid()
      reads this
    {
      forwards == state.forwards && Tidy(state) && (clean ==> Paired(state, strict))
    }

    constructor (ghost strict: bool)
      ensures Valid() && this.strict == strict && forwards == map[] && state == INIT && clean
    {
      forwards, state, clean := map[], INIT, true;
      this.strict := strict;
    }

    /** The run goes on by one step. */
    ghost method Record(e: Step)
      requires Tidy(state) && (clean ==> Paired(state, strict)) && Enabled(state, e)
      modifies this`state, this`clean
      ensures state == Apply(old(state), e) && Tidy(state) && (clean ==> Paired(state, strict))
      ensures clean <==> old(clean) && !Overwrites(old(state), e) && !Faulty(old(state), e, strict)
    {
      hide Apply, Enabled, Tidy, Paired, Overwrites, Faulty;
      TidyStep(state, e);
      clean := clean && !Overwrites(state, e) && !Faulty(state, e, strict);
      if clean {
        PairedStep(state, e, strict);
      }
      state := Apply(state, e);
    }

    /** A successful net.Listen on `addr` goes into the map: the listener is then the one the address leads to. */
    method Store(ln: Ln, addr: Addr)
      requires Valid() && Enabled(state, Insert(ln)) && state.info[ln].addr == addr
      modifies this
      ensures Valid() && state == Apply(old(state), Insert(ln))
      ensures clean <==> old(clean) && !Overwrites(old(state), Insert(ln))
      ensures Overwrites(old(state), Insert(ln)) <==> addr in old(forwards)
      ensures clean ==> forall other :: other in old(state.acceptors) && old(state.info)[other].addr == addr ==>
                          old(state.acceptors)[other].AcceptorEnded? && Safe(state, other, strict)
    {
      Record(Insert(ln));
      forwards := forwards[addr := ln];
    }

    /** The closing goroutine: in a clean run it finds its own listener, or that one is safe already. */
    method LookForClose(ghost ln: Ln, addr: Addr) returns (found: Option<Ln>)
      requires Valid() && Enabled(state, CloserLooks(ln)) && state.info[ln].addr == addr
      modifies this`state, this`clean
      ensures Valid() && state == Apply(old(state), CloserLooks(ln)) && clean == old(clean)
      ensures found.Some? ==> found.value in state.info && state.info[found.value].addr == addr
      ensures state.closers[ln] == if found.Some? then Holding(found.value) else CloserEnded
      ensures clean ==> found == Some(ln) || Safe(old(state), ln, strict)
    {
      found := if addr in forwards then Some(forwards[addr]) else None;
      Record(CloserLooks(ln));
    }

    /** The accepting goroutine after its loop: in a clean run it removes its own entry and no other. */
    method Forget(ghost ln: Ln, addr: Addr)
      requires Valid() && Enabled(state, DeleteEntry(ln)) && state.info[ln].addr == addr
      modifies this
      ensures Valid() && state == Apply(old(state), DeleteEntry(ln)) && clean == old(clean)
      ensures addr !in forwards
      ensures clean ==> addr in old(forwards) && old(forwards)[addr] == ln && Safe(state, ln, strict)
      ensures clean ==> forall a :: a in old(forwards) && old(forwards)[a] != ln ==>
                          a in forwards && forwards[a] == old(forwards)[a]
    {
      Record(DeleteEntry(ln));
      forwards := forwards - {addr};
    }

    /** A cancel request: in a clean run it misses no listener on that address that is not safe already. */
    method LookForCancel(ghost id: nat, addr: Addr) returns (found: Option<Ln>)
      requires Valid() && Enabled(state, CancelLooks(id, addr))
      modifies this`state, this`clean
      ensures Valid() && state == Apply(old(state), CancelLooks(id, addr)) && clean == old(clean)
      ensures found.Some? ==> found.value in state.info && state.info[found.value].addr == addr
      ensures state.cancels == if found.Some? then old(state.cancels)[id := found.value] else old(state.cancels)
      ensures clean ==> forall ln :: ln in state.acceptors && state.info[ln].addr == addr ==>
                          found == Some(ln) || Safe(old(state), ln, strict)
    {
      found := if addr in forwards then Some(forwards[addr]) else None;
      Record(CancelLooks(id, addr));
    }

    /** One step of the handler or of what surrounds it. */
    method Take(e: Step, w: Stacks) returns (v: Stacks)
      requires Valid() && Enabled(state, e) && Follows(w, state)
      modifies this
      ensures Valid() && state == Apply(old(state), e) && Follows(v, state)
      ensures clean <==> old(clean) && !Overwrites(old(state), e) && !Faulty(old(state), e, strict)
    {
      StacksServe(w, state, e);
      StacksChange(w, state, e);
      if e.CloserLooks? || e.CloserCloses? {
        ClosersChange(w, state, e);
      } else if e.CancelLooks? || e.CancelCloses? {
        CancelsChange(w, state, e);
      }
      if Overwrites(state, e) || Faulty(state, e, strict) {
        CarelessKinds(state, e, strict);
      }
      hide Apply, Enabled, Follows, Tidy, Paired, Safe, Overwrites, Faulty;
      v := w;
      match e {
        case Listen(ln, _, addr) =>
          Record(e);
          v := w.(addrs := w.addrs[ln := addr]);
        case Insert(ln) => Store(ln, w.addrs[ln]);
        case CloserLooks(ln) =>
          var found := LookForClose(ln, w.addrs[ln]);
          if found.Some? {
            v := w.(found := w.found[ln := found.value]);
          }
        case CloserCloses(ln) =>
          Record(e);
          v := w.(closed := w.closed + {w.found[ln]});
        case DeleteEntry(ln) => Forget(ln, w.addrs[ln]);
        case CancelLooks(id, addr) =>
          var found := LookForCancel(id, addr);
          if found.Some? {
            v := w.(cancels := w.cancels[id := found.value]);
          }
        case CancelCloses(id) =>
          Record(e);
          v := w.(closed := w.closed + {w.cancels[id]}, cancels := w.cancels - {id});
        case _ => Record(e);
      }
    }

    /**
     The handler through any run: which listeners it closes, and that these are all of
     them when the run is clean and the closing goroutines have ended.
     */
    method Run(es: seq<Step>, ghost ss: seq<State>) returns (closed: set<Ln>)
      requires Valid() && state == INIT && clean && IsRun(ss, es) && ss[0] == INIT
      modifies this
      ensures Valid() && state == ss[|es|] && closed == ss[|es|].closed
      ensures clean <==> Careful(ss, es, |es|, strict)
      ensures clean && ClosersEnded(ss[|es|]) && (strict || ss[|es|].cancels == map[]) ==>
                ss[|es|].info.Keys <= closed && (AcceptorsEnded(ss[|es|]) ==> forwards == map[])
    {
      hide Apply, Enabled, Tidy, Paired, Overwrites, Faulty, ClosersEnded, AcceptorsEnded;
      var w := Stacks(map[], map[], map[], {});
      for k := 0 to |es|
        invariant Valid() && state == ss[k] && Follows(w, state)
        invariant clean <==> Careful(ss, es, k, strict)
      {
        assert Enabled(ss[k], es[k]) && ss[k + 1] == Apply(ss[k], es[k]);
        w := Take(es[k], w);
      }
      closed := w.closed;
      if clean && ClosersEnded(state) && (strict || state.cancels == map[]) {
        EveryListenerIsClosed(ss, es, |es|, strict);
      }
    }
  }
}
