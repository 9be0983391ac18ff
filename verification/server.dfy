/**
 The Server object. Each method is the body of one critical section of the server
 mutex, proved to take the step of `Lifecycle.Core` it stands for.
 */
module ServerObject {
  import opened Common
  import opened Lifecycle
  import opened HostKeys

  class Server {
    var hostSigners: seq<Signer>
    var listeners: set<Listener>
    var conns: set<HandleId>
    var listenerWg: int
    var connWg: int
    var doneChan: Option<Chan>
    // The world outside: channels made and closed, listeners and connections closed.
    var nextChan: nat
    var closes: seq<Chan>
    var closedListeners: set<Listener>
    var closedConns: set<HandleId>

    function Fields(): Core
      reads this
    {
      Core(listeners, conns, listenerWg, connWg, doneChan, nextChan, closes, closedListeners, closedConns)
    }

    constructor (signers: seq<Signer>)
      ensures Fields() == EMPTY_CORE && hostSigners == signers
    {
      hostSigners := signers;
      listeners, conns, listenerWg, connWg := {}, {}, 0, 0;
      doneChan, nextChan, closes := None, 0, [];
      closedListeners, closedConns := {}, {};
    }

    method GetDoneChanLocked() returns (ch: Chan)
      modifies this
      ensures Fields() == old(Fields()).EnsureDone()
      ensures doneChan == Some(ch) && hostSigners == old(hostSigners)
    {
      if doneChan == None {
        doneChan := Some(nextChan);
        nextChan := nextChan + 1;
      }
      ch := doneChan.value;
    }

    method CloseDoneChanLocked()
      modifies this
      ensures Fields() == old(Fields()).CloseDone() && hostSigners == old(hostSigners)
    {
      var ch := GetDoneChanLocked();
      if ch !in closes {
        closes := closes + [ch];
      }
    }

    /** `failing` are the listeners whose Close reports an error; the first one met is returned. */
    method CloseListenersLocked(failing: set<Listener>) returns (err: Option<Listener>)
      modifies this
      ensures Fields() == old(Fields()).CloseListeners() && hostSigners == old(hostSigners)
      ensures err.Some? <==> old(listeners) * failing != {}
      ensures err.Some? ==> err.value in old(listeners) * failing
    {
      err := None;
      ghost var done: set<Listener> := {};
      while listeners != {}
        invariant done + listeners == old(listeners) && done !! listeners
        invariant Fields() == old(Fields()).(listeners := listeners, closedListeners := old(closedListeners) + done)
        invariant hostSigners == old(hostSigners)
        invariant err.Some? <==> done * failing != {}
        invariant err.Some? ==> err.value in done * failing
        decreases listeners
      {
        var ln :| ln in listeners;
        closedListeners := closedListeners + {ln};
        if ln in failing {
          if err == None {
            err := Some(ln);
          }
          assert ln in (done + {ln}) * failing;
        } else {
          assert (done + {ln}) * failing == done * failing;
        }
        listeners := listeners - {ln};
        done := done + {ln};
      }
    }

    method Close(failing: set<Listener>) returns (err: Option<Listener>)
      modifies this
      ensures Fields() == old(Fields()).Close() && hostSigners == old(hostSigners)
      ensures err.Some? <==> old(listeners) * failing != {}
      ensures err.Some? ==> err.value in old(listeners) * failing
    {
      CloseDoneChanLocked();
      err := CloseListenersLocked(failing);
      ghost var done: set<HandleId> := {};
      ghost var before := Fields();
      while conns != {}
        invariant done + conns == old(conns)
        invariant Fields() == before.(conns := conns, closedConns := old(closedConns) + done)
        invariant hostSigners == old(hostSigners)
        decreases conns
      {
        var c :| c in conns;
        closedConns := closedConns + {c};
        conns := conns - {c};
        done := done + {c};
      }
    }

    /** The part of Shutdown under the mutex. */
    method ShutdownLocked(failing: set<Listener>) returns (err: Option<Listener>)
      modifies this
      ensures Fields() == old(Fields()).Shutdown() && hostSigners == old(hostSigners)
      ensures err.Some? <==> old(listeners) * failing != {}
      ensures err.Some? ==> err.value in old(listeners) * failing
    {
      err := CloseListenersLocked(failing);
      CloseDoneChanLocked();
    }

    /** A wait group panics when Done finds it at zero. */
    method TrackListener(ln: Listener, add: bool)
      requires add || listenerWg > 0
      modifies this
      ensures Fields() == if add then old(Fields()).AddListener(ln) else old(Fields()).RemoveListener(ln)
      ensures hostSigners == old(hostSigners)
    {
      if add {
        if |listeners| == 0 && |conns| == 0 {
          doneChan := None;
        }
        listeners := listeners + {ln};
        listenerWg := listenerWg + 1;
      } else {
        listeners := listeners - {ln};
        listenerWg := listenerWg - 1;
      }
    }

    method TrackConn(c: HandleId, add: bool)
      requires add || connWg > 0
      modifies this
      ensures Fields() == if add then old(Fields()).AddConn(c) else old(Fields()).RemoveConn(c)
      ensures hostSigners == old(hostSigners)
    {
      if add {
        conns := conns + {c};
        connWg := connWg + 1;
      } else {
        conns := conns - {c};
        connWg := connWg - 1;
      }
    }

    /** One step of a run, on a Serve whose listener is `ln`. */
    method Take(e: Step, ln: Listener)
      requires e.UntrackListener? ==> listenerWg > 0
      requires e.UntrackConn? ==> connWg > 0
      modifies this
      ensures Fields() == CoreStep(old(Fields()), e, ln)
    {
      match e {
        case StartServe(_, l) => TrackListener(l, true);
        case FetchDone(_) => var _ := GetDoneChanLocked();
        case UntrackListener(_) => TrackListener(ln, false);
        case CloseListener(_) => closedListeners := closedListeners + {ln};
        case TrackConn(h) => TrackConn(h, true);
        case UntrackConn(h) => TrackConn(h, false);
        case CloseServer => var _ := Close({});
        case ShutdownServer(_) => var _ := ShutdownLocked({});
        case _ =>
      }
    }

    /**
     The object follows every run of the life cycle: no call ever finds a wait group at
     zero, and the fields end up as the run says.
     */
    method Run(es: seq<Step>, ghost ts: seq<State>)
      requires IsRun(ts, es) && Fields() == EMPTY_CORE
      modifies this
      ensures Fields() == ts[|es|].core
    {
      hide Apply, Enabled, CoreStep;
      var lns: map<ServeId, Listener> := map[];
      var k := 0;
      while k < |es|
        invariant 0 <= k <= |es| && Fields() == ts[k].core
        invariant forall s :: s in ts[k].serves ==> s in lns && lns[s] == ts[k].serves[s].listener
      {
        var e := es[k];
        assert ts[k + 1] == Apply(ts[k], e);
        WaitGroupsCountActivations(ts, es, k);
        ApplyCore(ts[k], e);
        Take(e, if e.UntrackListener? || e.CloseListener? then lns[e.s] else 0);
        if e.StartServe? {
          assert e.s !in ts[k].serves by {
            StartServeFresh(ts[k], e);
          }
          lns := lns[e.s := e.ln];
        }
        k := k + 1;
      }
    }

    method AddHostKey(key: Signer)
      modifies this
      ensures hostSigners == AddKey(old(hostSigners), key) && Fields() == old(Fields())
    {
      var i := 0;
      while i < |hostSigners|
        invariant 0 <= i <= |hostSigners| && hostSigners == old(hostSigners)
        invariant Fields() == old(Fields())
        invariant AddKey(hostSigners, key) == hostSigners[..i] + AddKey(hostSigners[i..], key)
      {
        if hostSigners[i].keyType == key.keyType {
          hostSigners := hostSigners[i := key];
          assert old(hostSigners)[i..][1..] == old(hostSigners)[i + 1..];
          return;
        }
        assert hostSigners[i..][1..] == hostSigners[i + 1..];
        assert hostSigners[..i + 1] == hostSigners[..i] + [hostSigners[i]];
        i := i + 1;
      }
      hostSigners := hostSigners + [key];
    }

    /** `generated` is what generateSigner returned, None standing for its error. */
    method EnsureHostSigner(generated: Option<Signer>) returns (ok: bool)
      modifies this
      ensures Fields() == old(Fields())
      ensures ok ==> hostSigners != []
      ensures ok <==> old(hostSigners) != [] || generated.Some?
      ensures old(hostSigners) != [] || !ok ==> hostSigners == old(hostSigners)
    {
      if |hostSigners| == 0 {
        if generated == None {
          return false;
        }
        hostSigners := hostSigners + [generated.value];
      }
      ok := true;
    }
  }
}

/** The list of host keys, one per algorithm. */
module HostKeys {
  import opened Common

  datatype Signer = Signer(keyType: string, key: nat)

  /** Overwrites the first key of the same type, or appends. */
  function AddKey(ks: seq<Signer>, k: Signer): seq<Signer> {
    if ks == [] then [k]
    else if ks[0].keyType == k.keyType then [k] + ks[1..]
    else [ks[0]] + AddKey(ks[1..], k)
  }

  function AddKeys(ks: seq<Signer>, added: seq<Signer>): seq<Signer> {
    if added == [] then ks else AddKey(AddKeys(ks, added[..|added| - 1]), added[|added| - 1])
  }

  function Types(ks: seq<Signer>): seq<string> {
    seq(|ks|, i requires 0 <= i < |ks| => ks[i].keyType)
  }

  /** The last key of the given type. */
  function LastOf(ks: seq<Signer>, t: string): Option<Signer> {
    if ks == [] then None
    else if ks[|ks| - 1].keyType == t then Some(ks[|ks| - 1])
    else LastOf(ks[..|ks| - 1], t)
  }

  /** The elements in order of first appearance, each once. */
  function FirstAppearances(s: seq<string>): seq<string> {
    if s == [] then []
    else
      var r := FirstAppearances(s[..|s| - 1]);
      if s[|s| - 1] in s[..|s| - 1] then r else r + [s[|s| - 1]]
  }

  lemma {:induction false} FirstAppearancesOfDistinct(s: seq<string>)
    requires Distinct(s)
    ensures FirstAppearances(s) == s
  {
    if s != [] {
      FirstAppearancesOfDistinct(s[..|s| - 1]);
    }
  }

  lemma {:induction false} AddKeyTypes(ks: seq<Signer>, k: Signer)
    ensures Types(AddKey(ks, k)) ==
            if k.keyType in Types(ks) then Types(ks) else Types(ks) + [k.keyType]
  {
    if ks != [] {
      assert Types(ks) == [ks[0].keyType] + Types(ks[1..]);
      if ks[0].keyType != k.keyType {
        AddKeyTypes(ks[1..], k);
        assert Types(AddKey(ks, k)) == [ks[0].keyType] + Types(AddKey(ks[1..], k));
      }
    }
  }

  lemma {:induction false} LastOfMember(ks: seq<Signer>, t: string)
    ensures LastOf(ks, t).Some? ==> LastOf(ks, t).value in ks && LastOf(ks, t).value.keyType == t
    ensures (exists x :: x in ks && x.keyType == t) ==> LastOf(ks, t).Some?
  {
    if ks != [] {
      LastOfMember(ks[..|ks| - 1], t);
    }
  }

  /** With one key per type, the list is the map from type to its key. */
  lemma LastOfUnique(ks: seq<Signer>, k: Signer)
    requires Distinct(Types(ks)) && k in ks
    ensures LastOf(ks, k.keyType) == Some(k)
  {
    LastOfMember(ks, k.keyType);
    var x := LastOf(ks, k.keyType).value;
    var i :| 0 <= i < |ks| && ks[i] == x;
    var j :| 0 <= j < |ks| && ks[j] == k;
    assert Types(ks)[i] == Types(ks)[j];
  }

  lemma {:induction false} AddKeyMembers(ks: seq<Signer>, k: Signer)
    ensures k in AddKey(ks, k)
    ensures forall x: Signer :: x.keyType != k.keyType ==> (x in AddKey(ks, k) <==> x in ks)
  {
    if ks != [] && ks[0].keyType != k.keyType {
      AddKeyMembers(ks[1..], k);
    }
  }

  lemma AddKeyDistinct(ks: seq<Signer>, k: Signer)
    requires Distinct(Types(ks))
    ensures Distinct(Types(AddKey(ks, k)))
  {
    AddKeyTypes(ks, k);
  }

  lemma AddKeyLookup(ks: seq<Signer>, k: Signer, t: string)
    requires Distinct(Types(ks))
    ensures LastOf(AddKey(ks, k), t) == if t == k.keyType then Some(k) else LastOf(ks, t)
  {
    AddKeyDistinct(ks, k);
    AddKeyMembers(ks, k);
    LastOfMember(ks, t);
    LastOfMember(AddKey(ks, k), t);
    if t == k.keyType {
      LastOfUnique(AddKey(ks, k), k);
    } else if LastOf(ks, t).Some? {
      LastOfUnique(AddKey(ks, k), LastOf(ks, t).value);
    }
  }

  lemma TypesSnoc(ks: seq<Signer>, k: Signer)
    ensures Types(ks + [k]) == Types(ks) + [k.keyType]
  {
  }

  lemma FirstAppearancesSnoc(s: seq<string>, x: string)
    ensures FirstAppearances(s + [x]) == if x in s then FirstAppearances(s) else FirstAppearances(s) + [x]
  {
  }

  lemma LastOfSnoc(ks: seq<Signer>, k: Signer, t: string)
    ensures LastOf(ks + [k], t) == if t == k.keyType then Some(k) else LastOf(ks, t)
  {
  }

  /**
   Any sequence of AddHostKey calls on a list with one key per type keeps one key
   per type: the last one added, in order of first appearance.
   */
  lemma {:induction false} AddKeysIsLastPerType(ks: seq<Signer>, added: seq<Signer>, t: string)
    requires Distinct(Types(ks))
    ensures Distinct(Types(AddKeys(ks, added)))
    ensures Types(AddKeys(ks, added)) == FirstAppearances(Types(ks + added))
    ensures LastOf(AddKeys(ks, added), t) == LastOf(ks + added, t)
    ensures forall u :: u in Types(AddKeys(ks, added)) <==> u in Types(ks + added)
  {
    if added == [] {
      FirstAppearancesOfDistinct(Types(ks));
      assert ks + added == ks;
    } else {
      var front, k := added[..|added| - 1], added[|added| - 1];
      AddKeysIsLastPerType(ks, front, t);
      var mid := AddKeys(ks, front);
      assert ks + added == (ks + front) + [k];
      hide AddKey, Types, LastOf, FirstAppearances;
      AddKeyDistinct(mid, k);
      AddKeyTypes(mid, k);
      AddKeyLookup(mid, k, t);
      TypesSnoc(ks + front, k);
      FirstAppearancesSnoc(Types(ks + front), k.keyType);
      LastOfSnoc(ks + front, k, t);
    }
  }
}
