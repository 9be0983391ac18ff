/** Freezing and thawing filesystems, the lock flag, and the RPC gate that reads it. */
module Freeze {
  import opened Common

  type Fs = nat  // the filesystem behind a mount point

  /** What goes wrong with one mount point; NoFault leaves only the kernel's EBUSY or EINVAL. */
  datatype Fault = NoFault | OpenFails | Unsupported | OtherErrno

  /** FIFREEZE: EBUSY on a frozen filesystem and EOPNOTSUPP are tolerated. */
  predicate FreezeFails(f: Fault) { f.OpenFails? || f.OtherErrno? }

  /** FITHAW: only EINVAL, on a filesystem that is not frozen, is tolerated. */
  predicate ThawFails(f: Fault) { !f.NoFault? }

  /** How many of n mount points a freeze gets through: up to the first that fails. */
  function FreezeReach(n: nat, faults: nat -> Fault): (k: nat)
    ensures k <= n && (k < n ==> FreezeFails(faults(k))) && forall j: nat :: j < k ==> !FreezeFails(faults(j))
  {
    if n == 0 then 0
    else
      var k := FreezeReach(n - 1, faults);
      if k < n - 1 || FreezeFails(faults(n - 1)) then k else n
  }

  function ThawReach(n: nat, faults: nat -> Fault): (k: nat)
    ensures k <= n && (k < n ==> ThawFails(faults(k))) && forall j: nat :: j < k ==> !ThawFails(faults(j))
  {
    if n == 0 then 0
    else
      var k := ThawReach(n - 1, faults);
      if k < n - 1 || ThawFails(faults(n - 1)) then k else n
  }

  function Members(ms: seq<Fs>): set<Fs> { set i | 0 <= i < |ms| :: ms[i] }

  datatype Agent = Agent(locked: bool, frozen: set<Fs>)

  /** None: the mount table could not be read. */
  function FreezeAll(a: Agent, mounts: Option<seq<Fs>>, faults: nat -> Fault): Agent {
    match mounts
    case None => a
    case Some(ms) =>
      var k := FreezeReach(|ms|, faults);
      Agent(true, a.frozen + set i | 0 <= i < k && faults(i).NoFault? :: ms[i])
  }

  function ThawAll(a: Agent, mounts: Option<seq<Fs>>, faults: nat -> Fault): Agent {
    match mounts
    case None => a
    case Some(ms) =>
      var k := ThawReach(|ms|, faults);
      Agent(if k == |ms| then false else a.locked, a.frozen - Members(ms[..k]))
  }

  /** The mount points a freeze gets to, EBUSY and EOPNOTSUPP on the way being no obstacle, and freezes. */
  ghost function FrozenBy(ms: seq<Fs>, faults: nat -> Fault): set<Fs> {
    set i: nat | i < |ms| && faults(i).NoFault?
                 && (forall j: nat :: j < i ==> faults(j).NoFault? || faults(j).Unsupported?) :: ms[i]
  }

  /** The mount points a thaw gets to, EINVAL on the way being no obstacle. */
  ghost function ThawedBy(ms: seq<Fs>, faults: nat -> Fault): set<Fs> {
    set i: nat | i < |ms| && (forall j: nat :: j <= i ==> faults(j).NoFault?) :: ms[i]
  }

  /** A freeze locks, freezes up to the first mount point that cannot be opened or fails, and thaws nothing. */
  lemma FreezeAllExact(a: Agent, ms: seq<Fs>, faults: nat -> Fault)
    ensures FreezeAll(a, None, faults) == a
    ensures FreezeAll(a, Some(ms), faults) == Agent(true, a.frozen + FrozenBy(ms, faults))
  {
    var k := FreezeReach(|ms|, faults);
    assert (set i | 0 <= i < k && faults(i).NoFault? :: ms[i]) == FrozenBy(ms, faults);
  }

  /** A thaw goes up to the first mount point that fails in any way, and unlocks exactly if there is none. */
  lemma ThawAllExact(a: Agent, ms: seq<Fs>, faults: nat -> Fault)
    ensures ThawAll(a, None, faults) == a
    ensures ThawAll(a, Some(ms), faults) ==
            Agent(a.locked && exists i: nat :: i < |ms| && !faults(i).NoFault?, a.frozen - ThawedBy(ms, faults))
  {
    var k := ThawReach(|ms|, faults);
    assert k < |ms| ==> !faults(k).NoFault?;
    assert Members(ms[..k]) == ThawedBy(ms, faults);
  }

  class Server {
    var locked: bool
    var frozen: set<Fs>  // the kernel's state

    function Snapshot(): Agent
      reads this
    {
      Agent(locked, frozen)
    }

    method Lock()
      modifies this`locked
      ensures locked
    {
      locked := true;
    }

    method Unlock()
      modifies this`locked
      ensures !locked
    {
      locked := false;
    }

    method FreezeOne(fs: Fs, fault: Fault) returns (ok: bool)
      modifies this`frozen
      ensures ok <==> fault.NoFault? || fault.Unsupported?
      ensures frozen == if fault.NoFault? then old(frozen) + {fs} else old(frozen)
    {
      if fault.OpenFails? {
        return false;
      }
      if fault.NoFault? && fs !in frozen {
        frozen := frozen + {fs};
      }
      ok := !fault.OtherErrno?;
    }

    method ThawOne(fs: Fs, fault: Fault) returns (ok: bool)
      modifies this`frozen
      ensures ok <==> fault.NoFault?
      ensures frozen == if fault.NoFault? then old(frozen) - {fs} else old(frozen)
    {
      if fault.OpenFails? {
        return false;
      }
      if fault.NoFault? && fs in frozen {
        frozen := frozen - {fs};
      }
      ok := !fault.OtherErrno? && !fault.Unsupported?;
    }

    method FreezeFileSystems(mounts: Option<seq<Fs>>, faults: nat -> Fault) returns (ok: bool)
      modifies this
      ensures Snapshot() == FreezeAll(old(Snapshot()), mounts, faults)
      ensures ok <==>
              mounts.Some? && forall i: nat :: i < |mounts.value| ==> faults(i).NoFault? || faults(i).Unsupported?
      ensures mounts == None ==> locked == old(locked) && frozen == old(frozen)
      ensures mounts.Some? ==> locked && frozen == old(frozen) + FrozenBy(mounts.value, faults)
      ensures ok ==> frozen == old(frozen) + set i | 0 <= i < |mounts.value| && faults(i).NoFault? :: mounts.value[i]
    {
      if mounts == None {
        return false;
      }
      FreezeAllExact(Snapshot(), mounts.value, faults);
      var ms := mounts.value;
      Lock();
      ghost var stop := FreezeReach(|ms|, faults);
      for n := 0 to |ms|
        invariant n <= stop && locked
        invariant frozen == old(frozen) + set i | 0 <= i < n && faults(i).NoFault? :: ms[i]
      {
        var done := FreezeOne(ms[n], faults(n));
        if !done {
          return false;
        }
      }
      ok := true;
    }

    method UnfreezeFileSystems(mounts: Option<seq<Fs>>, faults: nat -> Fault) returns (ok: bool)
      modifies this
      ensures Snapshot() == ThawAll(old(Snapshot()), mounts, faults)
      ensures ok <==> mounts.Some? && forall i: nat :: i < |mounts.value| ==> faults(i).NoFault?
      ensures !ok ==> locked == old(locked)
      ensures ok ==> !locked && frozen == old(frozen) - Members(mounts.value)
      ensures frozen == old(frozen) - if mounts.Some? then ThawedBy(mounts.value, faults) else {}
    {
      if mounts == None {
        return false;
      }
      ThawAllExact(Snapshot(), mounts.value, faults);
      var ms := mounts.value;
      ghost var stop := ThawReach(|ms|, faults);
      for n := 0 to |ms|
        invariant n <= stop && locked == old(locked)
        invariant frozen == old(frozen) - Members(ms[..n])
      {
        MembersSnoc(ms, n);
        var done := ThawOne(ms[n], faults(n));
        if !done {
          return false;
        }
      }
      assert ms[..|ms|] == ms;
      Unlock();
      ok := true;
    }
  }

  lemma MembersSnoc(ms: seq<Fs>, n: nat)
    requires n < |ms|
    ensures Members(ms[..n + 1]) == Members(ms[..n]) + {ms[n]}
  {
  }

  /** The faults of a pass over the list when each filesystem has its own. */
  function ByFs(ms: seq<Fs>, f: Fs -> Fault): nat -> Fault {
    (i: nat) => if i < |ms| then f(ms[i]) else NoFault
  }

  function FreezeBy(a: Agent, ms: seq<Fs>, f: Fs -> Fault): Agent { FreezeAll(a, Some(ms), ByFs(ms, f)) }

  function ThawBy(a: Agent, ms: seq<Fs>, f: Fs -> Fault): Agent { ThawAll(a, Some(ms), ByFs(ms, f)) }

  /** A freeze that meets no failure freezes the members that support it. */
  lemma FreezeReachesAll(a: Agent, ms: seq<Fs>, f: Fs -> Fault)
    requires forall m :: m in Members(ms) ==> f(m).NoFault? || f(m).Unsupported?
    ensures FreezeBy(a, ms, f) ==
            Agent(true, a.frozen + set m | m in Members(ms) && f(m).NoFault?)
  {
    var k := FreezeReach(|ms|, ByFs(ms, f));
    assert k == |ms| by {
      assert k < |ms| ==> ms[k] in Members(ms);
    }
    assert (set i | 0 <= i < k && ByFs(ms, f)(i).NoFault? :: ms[i]) == set m | m in Members(ms) && f(m).NoFault?;
  }

  lemma ThawReachesAll(a: Agent, ms: seq<Fs>, f: Fs -> Fault)
    requires forall m :: m in Members(ms) ==> f(m).NoFault?
    ensures ThawBy(a, ms, f) == Agent(false, a.frozen - Members(ms))
  {
    var k := ThawReach(|ms|, ByFs(ms, f));
    assert k == |ms| by {
      assert k < |ms| ==> ms[k] in Members(ms);
    }
    assert ms[..k] == ms;
  }

  /**
   Order and repeats of the mount list make no difference as long as no member fails:
   EBUSY and EINVAL are tolerated, and so is EOPNOTSUPP by a freeze.
   */
  lemma RepeatsMakeNoDifference(a: Agent, ms: seq<Fs>, ns: seq<Fs>, f: Fs -> Fault)
    requires Members(ms) == Members(ns)
    ensures (forall m :: m in Members(ms) ==> f(m).NoFault? || f(m).Unsupported?) ==>
              && FreezeBy(a, ms, f) == FreezeBy(a, ns, f)
              && FreezeBy(a, ms, f).frozen == a.frozen + set m | m in Members(ms) && f(m).NoFault?
    ensures (forall m :: m in Members(ms) ==> f(m).NoFault?) ==>
              && ThawBy(a, ms, f) == ThawBy(a, ns, f)
              && ThawBy(a, ms, f).frozen == a.frozen - Members(ms)
  {
    hide FreezeBy, ThawBy, Members;
    if forall m :: m in Members(ms) ==> f(m).NoFault? || f(m).Unsupported? {
      FreezeReachesAll(a, ms, f);
      FreezeReachesAll(a, ns, f);
    }
    if forall m :: m in Members(ms) ==> f(m).NoFault? {
      ThawReachesAll(a, ms, f);
      ThawReachesAll(a, ns, f);
    }
  }

  ghost predicate FreezeIgnoresOrder(ms: seq<Fs>, f: Fs -> Fault) {
    forall a, ns :: Members(ns) == Members(ms) ==>
      FreezeBy(a, ns, f) == FreezeBy(a, ms, f)
  }

  ghost predicate ThawIgnoresOrder(ms: seq<Fs>, f: Fs -> Fault) {
    forall a, ns :: Members(ns) == Members(ms) ==>
      ThawBy(a, ns, f) == ThawBy(a, ms, f)
  }

  /** Order matters exactly when one member fails and another would be frozen. */
  lemma FreezeIgnoresOrderIff(ms: seq<Fs>, f: Fs -> Fault)
    ensures FreezeIgnoresOrder(ms, f) <==>
            || (forall m :: m in Members(ms) ==> f(m).NoFault? || f(m).Unsupported?)
            || (forall m :: m in Members(ms) ==> !f(m).NoFault?)
  {
    if forall m :: m in Members(ms) ==> f(m).NoFault? || f(m).Unsupported? {
      forall a, ns | Members(ns) == Members(ms)
        ensures FreezeBy(a, ns, f) == FreezeBy(a, ms, f)
      {
        RepeatsMakeNoDifference(a, ms, ns, f);
      }
    } else if forall m :: m in Members(ms) ==> !f(m).NoFault? {
      forall a, ns | Members(ns) == Members(ms)
        ensures FreezeBy(a, ns, f) == FreezeBy(a, ms, f)
      {
        FreezesNothing(a, ns, f);
        FreezesNothing(a, ms, f);
      }
    } else {
      var x :| x in Members(ms) && (f(x).OpenFails? || f(x).OtherErrno?);
      var y :| y in Members(ms) && f(y).NoFault?;
      FirstMountDecides(ms, x, y, f);
    }
  }

  lemma FreezesNothing(a: Agent, ms: seq<Fs>, f: Fs -> Fault)
    requires forall m :: m in Members(ms) ==> !f(m).NoFault?
    ensures FreezeBy(a, ms, f) == Agent(true, a.frozen)
  {
    forall i | 0 <= i < |ms|
      ensures !ByFs(ms, f)(i).NoFault?
    {
      assert ms[i] in Members(ms);
    }
  }

  /** Put a failing member first and nothing is frozen; put a good one first and it is. */
  lemma FirstMountDecides(ms: seq<Fs>, x: Fs, y: Fs, f: Fs -> Fault)
    requires x in Members(ms) && (f(x).OpenFails? || f(x).OtherErrno?) && y in Members(ms) && f(y).NoFault?
    ensures !FreezeIgnoresOrder(ms, f)
  {
    var none, xs, ys := Agent(false, {}), [x] + ms, [y] + ms;
    MembersCons(ms, x);
    MembersCons(ms, y);
    assert FreezeBy(none, xs, f).frozen == {} by {
      assert FreezeFails(ByFs(xs, f)(0));
    }
    assert y in FreezeBy(none, ys, f).frozen by {
      assert ByFs(ys, f)(0).NoFault? && ys[0] == y;
    }
  }

  lemma MembersCons(ms: seq<Fs>, m: Fs)
    requires m in Members(ms)
    ensures Members([m] + ms) == Members(ms)
  {
    var ns := [m] + ms;
    assert ns[0] == m && forall i :: 0 <= i < |ms| ==> ns[i + 1] == ms[i];
  }

  lemma ThawIgnoresOrderIff(ms: seq<Fs>, f: Fs -> Fault)
    ensures ThawIgnoresOrder(ms, f) <==>
            || (forall m :: m in Members(ms) ==> f(m).NoFault?)
            || (forall m :: m in Members(ms) ==> !f(m).NoFault?)
  {
    if forall m :: m in Members(ms) ==> f(m).NoFault? {
      forall a, ns | Members(ns) == Members(ms)
        ensures ThawBy(a, ns, f) == ThawBy(a, ms, f)
      {
        RepeatsMakeNoDifference(a, ms, ns, f);
      }
    } else if forall m :: m in Members(ms) ==> !f(m).NoFault? {
      forall a, ns | Members(ns) == Members(ms)
        ensures ThawBy(a, ns, f) == ThawBy(a, ms, f)
      {
        ThawsNothing(a, ns, f);
        ThawsNothing(a, ms, f);
      }
    } else {
      var x :| x in Members(ms) && !f(x).NoFault?;
      var y :| y in Members(ms) && f(y).NoFault?;
      FirstThawDecides(ms, x, y, f);
    }
  }

  lemma ThawsNothing(a: Agent, ms: seq<Fs>, f: Fs -> Fault)
    requires Members(ms) != {} && forall m :: m in Members(ms) ==> !f(m).NoFault?
    ensures ThawBy(a, ms, f) == a
  {
    assert ms[0] in Members(ms) && ThawFails(ByFs(ms, f)(0));
  }

  lemma FirstThawDecides(ms: seq<Fs>, x: Fs, y: Fs, f: Fs -> Fault)
    requires x in Members(ms) && !f(x).NoFault? && y in Members(ms) && f(y).NoFault?
    ensures !ThawIgnoresOrder(ms, f)
  {
    var one, xs, ys := Agent(true, {y}), [x] + ms, [y] + ms;
    MembersCons(ms, x);
    MembersCons(ms, y);
    assert ThawBy(one, xs, f).frozen == {y} by {
      assert ThawFails(ByFs(xs, f)(0));
    }
    assert y !in ThawBy(one, ys, f).frozen by {
      assert !ThawFails(ByFs(ys, f)(0)) && ys[0] == y;
      assert ThawReach(|ys|, ByFs(ys, f)) > 0;
    }
  }

  lemma CleanThaw(a: Agent, ms: seq<Fs>, faults: nat -> Fault)
    requires forall i: nat :: i < |ms| ==> faults(i).NoFault?
    ensures ThawAll(a, Some(ms), faults) == Agent(false, a.frozen - Members(ms))
  {
  }
}

/** The unary RPCs, the gate in front of them, and runs of calls that do not overlap. */
module Gate {
  import opened Common
  import opened Freeze

  datatype Service = System | FileSystem | AgentInfo | Network | SecureShell

  datatype Rpc =
    | SystemGetInfo | SystemShutdownAgent
    | FsSync | FsFreeze | FsUnfreeze | FsGetFileMD5Hash | FsGetFileStat | FsSetFileOwner | FsSetFileMode | FsCreateDir
    | AgentGetInfo
    | NetworkCall(name: string)
    | ShellGetUserKey

  function ServiceOf(r: Rpc): Service {
    match r
    case SystemGetInfo => System
    case SystemShutdownAgent => System
    case AgentGetInfo => AgentInfo
    case NetworkCall(_) => Network
    case ShellGetUserKey => SecureShell
    case _ => FileSystem
  }

  const FS_PREFIX := "/pga.api.services.agent.v2.AgentFileSystemService/"
  const SYSTEM_PREFIX := "/pga.api.services.system.v2.AgentSystemService/"

  function FullMethod(r: Rpc): string {
    match r
    case SystemGetInfo => SYSTEM_PREFIX + "GetInfo"
    case SystemShutdownAgent => SYSTEM_PREFIX + "ShutdownAgent"
    case FsSync => FS_PREFIX + "Sync"
    case FsFreeze => FS_PREFIX + "Freeze"
    case FsUnfreeze => FS_PREFIX + "Unfreeze"
    case FsGetFileMD5Hash => FS_PREFIX + "GetFileMD5Hash"
    case FsGetFileStat => FS_PREFIX + "GetFileStat"
    case FsSetFileOwner => FS_PREFIX + "SetFileOwner"
    case FsSetFileMode => FS_PREFIX + "SetFileMode"
    case FsCreateDir => FS_PREFIX + "CreateDir"
    case AgentGetInfo => "/pga.api.services.agent.v2.AgentService/GetInfo"
    case NetworkCall(name) => "/pga.api.services.agent.v2.AgentNetworkService/" + name
    case ShellGetUserKey => "/pga.api.services.secure_shell.v2.AgentSecureShellService/GetUserKey"
  }

  /** PreHandlerUnaryServerInterceptor: whether the handler is called. */
  predicate PreHandler(service: Service, isLocked: bool, fullMethod: string) {
    var locked :=
      match service
      case System => isLocked
      case FileSystem => isLocked
      case _ => false;
    !locked
    || fullMethod == "/pga.api.services.system.v2.AgentSystemService/GetInfo"
    || fullMethod == "/pga.api.services.agent.v2.AgentService/GetInfo"
    || fullMethod == "/pga.api.services.agent.v2.AgentFileSystemService/Unfreeze"
  }

  predicate Admits(r: Rpc, locked: bool) { PreHandler(ServiceOf(r), locked, FullMethod(r)) }

  lemma MethodNames(r: Rpc)
    requires ServiceOf(r) == System || ServiceOf(r) == FileSystem
    ensures FullMethod(r) == FullMethod(SystemGetInfo) <==> r == SystemGetInfo
    ensures FullMethod(r) == FullMethod(FsUnfreeze) <==> r == FsUnfreeze
    ensures FullMethod(r) != FullMethod(AgentGetInfo)
  {
    assert |FS_PREFIX| == 50 && FS_PREFIX[18] == 'a' && SYSTEM_PREFIX[18] == 's';
    assert |FullMethod(r)| > 34 && (FullMethod(r)[18] == 'a' <==> ServiceOf(r) == FileSystem);
    assert ServiceOf(r) == FileSystem ==> FullMethod(r)[32] == 'F' && FullMethod(AgentGetInfo)[32] == 'S';
    assert FullMethod(AgentGetInfo)[18] == 'a';
  }

  lemma LiteralNames()
    ensures FullMethod(SystemGetInfo) == "/pga.api.services.system.v2.AgentSystemService/GetInfo"
    ensures FullMethod(AgentGetInfo) == "/pga.api.services.agent.v2.AgentService/GetInfo"
    ensures FullMethod(FsUnfreeze) == "/pga.api.services.agent.v2.AgentFileSystemService/Unfreeze"
  {
  }

  /** The calls that the lock does not hold up. */
  predicate Exempt(r: Rpc) {
    r.SystemGetInfo? || r.FsUnfreeze? || r.AgentGetInfo? || r.NetworkCall? || r.ShellGetUserKey?
  }

  /**
   While locked, of the unary system and filesystem handlers exactly system GetInfo and
   Unfreeze can run; the other services are never held up.
   */
  lemma GateExact(r: Rpc, locked: bool)
    ensures Admits(r, locked) <==> !locked || Exempt(r)
  {
    LiteralNames();
    hide FullMethod;
    if ServiceOf(r) == System || ServiceOf(r) == FileSystem {
      MethodNames(r);
    }
  }

  // ---------------------------------------------------------------- runs of calls, one at a time

  /** One unary call and the faults it meets; tableOk: the mount table can be read. */
  datatype Call = Call(rpc: Rpc, tableOk: bool, faults: nat -> Fault)

  /** The agent, and the handlers that ran with the lock they ran under. */
  datatype State = State(agent: Agent, ran: seq<(Rpc, bool)>)

  function Serve(ms: seq<Fs>, s: State, c: Call): State {
    if !Admits(c.rpc, s.agent.locked) then s
    else
      var mounts := if c.tableOk then Some(ms) else None;
      var a :=
        match c.rpc
        case FsFreeze => FreezeAll(s.agent, mounts, c.faults)
        case FsUnfreeze => ThawAll(s.agent, mounts, c.faults)
        case _ => s.agent;
      State(a, s.ran + [(c.rpc, s.agent.locked)])
  }

  ghost predicate IsRun(ms: seq<Fs>, ss: seq<State>, cs: seq<Call>) {
    && |ss| == |cs| + 1
    && ss[0] == State(Agent(false, {}), [])
    && forall k :: 0 <= k < |cs| ==> ss[k + 1] == Serve(ms, ss[k], cs[k])
  }

  /** Whatever is frozen is on the list, and the lock is on. */
  ghost predicate Sound(ms: seq<Fs>, a: Agent) {
    a.frozen <= Members(ms) && (!a.locked ==> a.frozen == {})
  }

  lemma SoundMeans(ms: seq<Fs>, a: Agent)
    ensures Sound(ms, Agent(false, {}))
    ensures Sound(ms, a) && !a.locked ==> a.frozen == {}
  {
  }

  lemma ServeKeepsSound(ms: seq<Fs>, s: State, c: Call)
    requires Sound(ms, s.agent)
    ensures Sound(ms, Serve(ms, s, c).agent)
  {
    var k := ThawReach(|ms|, c.faults);
    if k == |ms| {
      assert ms[..k] == ms;
    }
  }

  /**
   In every run, through freezes and thaws that fail midway, an unlocked agent has no
   filesystem frozen.
   */
  lemma {:induction false} UnlockedMeansNothingFrozen(ms: seq<Fs>, ss: seq<State>, cs: seq<Call>, k: nat)
    requires IsRun(ms, ss, cs) && k <= |cs|
    ensures Sound(ms, ss[k].agent)
    ensures !ss[k].agent.locked ==> ss[k].agent.frozen == {}
  {
    hide Serve, Sound;
    SoundMeans(ms, ss[k].agent);
    if k > 0 {
      UnlockedMeansNothingFrozen(ms, ss, cs, k - 1);
      assert ss[k - 1 + 1] == Serve(ms, ss[k - 1], cs[k - 1]);
      ServeKeepsSound(ms, ss[k - 1], cs[k - 1]);
    }
  }

  /**
   A Freeze that finds the agent unlocked locks it and freezes up to the first failing
   mount point; one that finds it locked is refused and changes nothing.
   */
  lemma FreezeTakesHold(ms: seq<Fs>, ss: seq<State>, cs: seq<Call>, k: nat)
    requires IsRun(ms, ss, cs) && k < |cs| && cs[k].rpc == FsFreeze && cs[k].tableOk
    ensures ss[k].agent.locked ==> ss[k + 1] == ss[k]
    ensures !ss[k].agent.locked ==>
              && ss[k + 1].agent == Agent(true, FrozenBy(ms, cs[k].faults))
              && ss[k + 1].ran == ss[k].ran + [(FsFreeze, false)]
  {
    hide Admits, FullMethod;
    UnlockedMeansNothingFrozen(ms, ss, cs, k);
    GateExact(FsFreeze, ss[k].agent.locked);
    assert ss[k + 1] == Serve(ms, ss[k], cs[k]);
    FreezeAllExact(ss[k].agent, ms, cs[k].faults);
  }

  /** Only Freeze and Unfreeze touch the agent. */
  lemma OtherCallsLeaveAgent(ms: seq<Fs>, ss: seq<State>, cs: seq<Call>, k: nat)
    requires IsRun(ms, ss, cs) && k < |cs|
    requires (cs[k].rpc != FsFreeze && cs[k].rpc != FsUnfreeze) || !cs[k].tableOk
    ensures ss[k + 1].agent == ss[k].agent
  {
    hide Admits;
    assert ss[k + 1] == Serve(ms, ss[k], cs[k]);
  }

  /** Of the system and filesystem handlers, only system GetInfo and Unfreeze ever ran under the lock. */
  lemma {:induction false} HandlersUnderLock(ms: seq<Fs>, ss: seq<State>, cs: seq<Call>, k: nat, i: nat)
    requires IsRun(ms, ss, cs) && k <= |cs| && i < |ss[k].ran|
    ensures var (rpc, locked) := ss[k].ran[i];
      locked ==> Exempt(rpc)
  {
    hide Admits, FullMethod;
    assert k > 0;
    var s, c := ss[k - 1], cs[k - 1];
    assert ss[k - 1 + 1] == Serve(ms, s, c);
    if i < |s.ran| {
      HandlersUnderLock(ms, ss, cs, k - 1, i);
    } else {
      GateExact(c.rpc, s.agent.locked);
    }
  }

  /** From any reachable state one Unfreeze that meets nothing but EINVAL is let in, thaws everything and unlocks. */
  lemma UnfreezeRestores(ms: seq<Fs>, ss: seq<State>, cs: seq<Call>, k: nat)
    requires IsRun(ms, ss, cs) && k < |cs| && cs[k].rpc == FsUnfreeze && cs[k].tableOk
    requires forall i: nat :: i < |ms| ==> cs[k].faults(i).NoFault?
    ensures ss[k + 1].agent == Agent(false, {})
  {
    UnlockedMeansNothingFrozen(ms, ss, cs, k);
    GateExact(FsUnfreeze, ss[k].agent.locked);
    assert ss[k + 1] == Serve(ms, ss[k], cs[k]);
    CleanThaw(ss[k].agent, ms, cs[k].faults);
  }
}

/** Calls that overlap: the gate reads the lock flag once, and the handler it admits runs on from there. */
module GateSteps {
  import opened Gate

  datatype State = Calls(locked: bool, running: map<nat, Rpc>)  // the calls admitted and not yet over

  datatype Step =
    | Arrive(id: nat, rpc: Rpc)  // the gate lets the call in or refuses it
    | Lock(id: nat)              // a Freeze in flight calls lock()
    | Unlock(id: nat)            // an Unfreeze in flight calls unlock()
    | Work(id: nat)              // a handler does something else
    | Return(id: nat)

  predicate Enabled(s: State, e: Step) {
    match e
    case Arrive(id, _) => id !in s.running
    case Lock(id) => id in s.running && s.running[id] == FsFreeze
    case Unlock(id) => id in s.running && s.running[id] == FsUnfreeze
    case Work(id) => id in s.running
    case Return(id) => id in s.running
  }

  function Apply(s: State, e: Step): State
    requires Enabled(s, e)
  {
    match e
    case Arrive(id, rpc) => if Admits(rpc, s.locked) then s.(running := s.running[id := rpc]) else s
    case Lock(_) => s.(locked := true)
    case Unlock(_) => s.(locked := false)
    case Work(_) => s
    case Return(id) => s.(running := s.running - {id})
  }

  ghost predicate IsRun(ss: seq<State>, es: seq<Step>) {
    && |ss| == |es| + 1
    && ss[0] == Calls(false, map[])
    && forall k :: 0 <= k < |es| ==> Enabled(ss[k], es[k]) && ss[k + 1] == Apply(ss[k], es[k])
  }

  /** A lock() between steps a and k has not been followed by an unlock(). */
  ghost predicate LockedSince(es: seq<Step>, a: nat, k: nat)
    requires k <= |es|
  {
    exists i :: a < i < k && es[i].Lock? && forall j :: i < j < k ==> !es[j].Unlock?
  }

  lemma LockedSinceSnoc(es: seq<Step>, a: nat, k: nat)
    requires a < k < |es|
    ensures LockedSince(es, a, k + 1) <==> es[k].Lock? || (LockedSince(es, a, k) && !es[k].Unlock?)
  {
    if LockedSince(es, a, k) && !es[k].Unlock? {
      var i :| a < i < k && es[i].Lock? && forall j :: i < j < k ==> !es[j].Unlock?;
      assert a < i < k + 1 && es[i].Lock?;
    }
    if es[k].Lock? {
      assert a < k < k + 1 && es[k].Lock?;
    }
  }

  /** A gated call is let in exactly when the lock is off. */
  lemma AdmittedIffUnlocked(s: State, e: Step)
    requires Enabled(s, e) && e.Arrive? && !Exempt(e.rpc)
    ensures e.id in Apply(s, e).running <==> !s.locked
    ensures Apply(s, e).locked == s.locked
  {
    hide Admits;
    GateExact(e.rpc, s.locked);
  }

  lemma LockChange(s: State, e: Step)
    requires Enabled(s, e)
    ensures Apply(s, e).locked == (e.Lock? || (s.locked && !e.Unlock?))
  {
    hide Admits;
  }

  /**
   In every interleaving: a gated handler that arrived at step a is at work under the
   lock at step k if and only if lock() was called after it was let in and unlock() has
   not been since.
   */
  lemma {:induction false} RunsUnderLockIff(ss: seq<State>, es: seq<Step>, a: nat, k: nat)
    requires IsRun(ss, es) && a < k <= |es| && es[a].Arrive? && !Exempt(es[a].rpc)
    requires forall j :: a < j <= k ==> es[a].id in ss[j].running
    ensures ss[k].locked <==> LockedSince(es, a, k)
  {
    hide Apply, Enabled;
    assert ss[k - 1 + 1] == Apply(ss[k - 1], es[k - 1]);
    if k == a + 1 {
      AdmittedIffUnlocked(ss[a], es[a]);
    } else {
      RunsUnderLockIff(ss, es, a, k - 1);
      LockChange(ss[k - 1], es[k - 1]);
      LockedSinceSnoc(es, a, k - 1);
    }
  }

  /** A Sync let in before a Freeze takes the lock goes on under it. */
  lemma SyncRunsUnderLock() returns (ss: seq<State>, es: seq<Step>)
    ensures IsRun(ss, es) && es == [Arrive(1, FsSync), Arrive(2, FsFreeze), Lock(2), Work(1)]
    ensures 1 in ss[3].running && ss[3].locked
  {
    hide Admits;
    es := [Arrive(1, FsSync), Arrive(2, FsFreeze), Lock(2), Work(1)];
    GateExact(FsSync, false);
    GateExact(FsFreeze, false);
    var s1 := Calls(false, map[1 := FsSync]);
    var s2 := s1.(running := map[1 := FsSync, 2 := FsFreeze]);
    var s3 := s2.(locked := true);
    ss := [Calls(false, map[]), s1, s2, s3, s3];
  }
}

/** Freezes and thaws that overlap, one mount point at a time. */
module FreezeSteps {
  import opened Common
  import opened Freeze

  /** Each activation in flight is at the mount point it will try next. */
  datatype State = State(agent: Agent, freezers: map<nat, nat>, thawers: map<nat, nat>)

  datatype Step =
    | BeginFreeze(id: nat)                 // lock()
    | FreezeNext(id: nat, fault: Fault)
    | EndFreeze(id: nat)                   // past the last mount point
    | BeginThaw(id: nat)
    | ThawNext(id: nat, fault: Fault)
    | EndThaw(id: nat)                     // past the last mount point: unlock()

  predicate Enabled(ms: seq<Fs>, s: State, e: Step) {
    match e
    case BeginFreeze(id) => id !in s.freezers
    case FreezeNext(id, _) => id in s.freezers && s.freezers[id] < |ms|
    case EndFreeze(id) => id in s.freezers && s.freezers[id] >= |ms|
    case BeginThaw(id) => id !in s.thawers
    case ThawNext(id, _) => id in s.thawers && s.thawers[id] < |ms|
    case EndThaw(id) => id in s.thawers && s.thawers[id] >= |ms|
  }

  function Apply(ms: seq<Fs>, s: State, e: Step): State
    requires Enabled(ms, s, e)
  {
    match e
    case BeginFreeze(id) => s.(agent := s.agent.(locked := true), freezers := s.freezers[id := 0])
    case FreezeNext(id, fault) =>
      if FreezeFails(fault) then s.(freezers := s.freezers - {id})
      else
        var i := s.freezers[id];
        s.(freezers := s.freezers[id := i + 1],
           agent := if fault.NoFault? then s.agent.(frozen := s.agent.frozen + {ms[i]}) else s.agent)
    case EndFreeze(id) => s.(freezers := s.freezers - {id})
    case BeginThaw(id) => s.(thawers := s.thawers[id := 0])
    case ThawNext(id, fault) =>
      if ThawFails(fault) then s.(thawers := s.thawers - {id})
      else
        var i := s.thawers[id];
        s.(thawers := s.thawers[id := i + 1], agent := s.agent.(frozen := s.agent.frozen - {ms[i]}))
    case EndThaw(id) => s.(agent := s.agent.(locked := false), thawers := s.thawers - {id})
  }

  const INIT := State(Agent(false, {}), map[], map[])

  /** A run of steps from any state. */
  ghost predicate IsRun(ms: seq<Fs>, ss: seq<State>, es: seq<Step>) {
    && |ss| == |es| + 1
    && forall k :: 0 <= k < |es| ==> Enabled(ms, ss[k], es[k]) && ss[k + 1] == Apply(ms, ss[k], es[k])
  }

  /** The step starts a freeze beside a thaw, or a thaw beside a freeze that has mount points to go. */
  ghost predicate Harmful(ms: seq<Fs>, s: State, e: Step) {
    && ms != []
    && (|| (e.BeginFreeze? && s.thawers != map[])
        || (e.BeginThaw? && exists f :: f in s.freezers && s.freezers[f] < |ms|))
  }

  ghost predicate Sound(ms: seq<Fs>, s: State) {
    && s.agent.frozen <= Members(ms)
    && (!s.agent.locked ==> s.agent.frozen == {})
    && (forall f :: f in s.freezers && s.freezers[f] < |ms| ==> s.agent.locked && s.thawers == map[])
    && (forall id :: id in s.thawers ==> ThawedSoFar(ms, s, id))
  }

  ghost predicate ThawedSoFar(ms: seq<Fs>, s: State, id: nat)
    requires id in s.thawers
  {
    s.thawers[id] <= |ms| && forall j :: 0 <= j < s.thawers[id] ==> ms[j] !in s.agent.frozen
  }

  lemma SoundStep(ms: seq<Fs>, s: State, e: Step)
    requires Sound(ms, s) && Enabled(ms, s, e) && !Harmful(ms, s, e)
    ensures Sound(ms, Apply(ms, s, e))
  {
  }

  /**
   In every interleaving of any number of freezes and thaws without a harmful step, an
   unlocked agent has nothing frozen.
   */
  lemma {:induction false} UnlockedMeansNothingFrozen(ms: seq<Fs>, ss: seq<State>, es: seq<Step>, k: nat)
    requires IsRun(ms, ss, es) && ss[0] == INIT && k <= |es|
    requires forall j :: 0 <= j < k ==> !Harmful(ms, ss[j], es[j])
    ensures Sound(ms, ss[k])
    ensures !ss[k].agent.locked ==> ss[k].agent.frozen == {}
  {
    if k > 0 {
      UnlockedMeansNothingFrozen(ms, ss, es, k - 1);
      assert ss[k - 1 + 1] == Apply(ms, ss[k - 1], es[k - 1]);
      SoundStep(ms, ss[k - 1], es[k - 1]);
    }
  }

  /** The lock was taken, and no thaw has got to its end since. */
  ghost predicate LockTaken(es: seq<Step>) {
    exists i :: 0 <= i < |es| && es[i].BeginFreeze? && forall j :: i < j < |es| ==> !es[j].EndThaw?
  }

  lemma LockTakenSnoc(es: seq<Step>, e: Step)
    ensures LockTaken(es + [e]) <==> e.BeginFreeze? || (LockTaken(es) && !e.EndThaw?)
  {
    var all := es + [e];
    assert forall i :: 0 <= i < |es| ==> all[i] == es[i];
    if LockTaken(es) && !e.EndThaw? {
      var i :| 0 <= i < |es| && es[i].BeginFreeze? && forall j :: i < j < |es| ==> !es[j].EndThaw?;
      assert all[i].BeginFreeze?;
    }
    assert all[|es|] == e;
    if i :| 0 <= i < |all| && all[i].BeginFreeze? && forall j :: i < j < |all| ==> !all[j].EndThaw? {
      assert i < |es| ==> es[i].BeginFreeze? && forall j :: i < j < |es| ==> !es[j].EndThaw?;
    }
  }

  /** Starting a freeze locks, ending a thaw unlocks, and nothing else moves the lock, whatever fails. */
  lemma {:induction false} LockFollowsHistory(ms: seq<Fs>, ss: seq<State>, es: seq<Step>, k: nat)
    requires IsRun(ms, ss, es) && ss[0] == INIT && k <= |es|
    ensures ss[k].agent.locked <==> LockTaken(es[..k])
  {
    if k > 0 {
      LockFollowsHistory(ms, ss, es, k - 1);
      assert ss[k - 1 + 1] == Apply(ms, ss[k - 1], es[k - 1]);
      assert es[..k] == es[..k - 1] + [es[k - 1]];
      LockTakenSnoc(es[..k - 1], es[k - 1]);
    }
  }

  // ---------------------------------------------------------------- one call on its own

  /** The run is freeze `id` alone: it begins, tries mount point i with fault faults(i), and may end. */
  ghost predicate FreezesAlone(es: seq<Step>, id: nat, faults: nat -> Fault) {
    && es != [] && es[0] == BeginFreeze(id)
    && forall k :: 1 <= k < |es| ==> es[k] == FreezeNext(id, faults(k - 1)) || es[k] == EndFreeze(id)
  }

  /** Where freeze `id` is after k steps, and what it has done. */
  ghost predicate FreezeAt(ms: seq<Fs>, a: Agent, s: State, id: nat, faults: nat -> Fault, k: nat) {
    if id in s.freezers then
      && 1 <= k <= |ms| + 1 && s.freezers[id] == k - 1
      && (forall j: nat :: j < k - 1 ==> faults(j).NoFault? || faults(j).Unsupported?)
      && s.agent == Agent(true, a.frozen + set i: nat | i < k - 1 && faults(i).NoFault? :: ms[i])
    else
      s.agent == Agent(true, a.frozen + FrozenBy(ms, faults))
  }

  lemma FreezeAtNext(ms: seq<Fs>, a: Agent, s: State, e: Step, id: nat, faults: nat -> Fault, k: nat)
    requires k >= 1 && FreezeAt(ms, a, s, id, faults, k) && Enabled(ms, s, e)
    requires e == FreezeNext(id, faults(k - 1)) || e == EndFreeze(id)
    ensures FreezeAt(ms, a, Apply(ms, s, e), id, faults, k + 1)
  {
    var done := set i: nat | i < k - 1 && faults(i).NoFault? :: ms[i];
    if e.EndFreeze? || FreezeFails(faults(k - 1)) {
      assert done == FrozenBy(ms, faults);
    } else {
      assert (set i: nat | i < k && faults(i).NoFault? :: ms[i]) ==
             if faults(k - 1).NoFault? then done + {ms[k - 1]} else done;
    }
  }

  /** Taken alone, the steps of a freeze are the whole FreezeFileSystems. */
  lemma {:induction false} LoneFreezeIsFreezeAll(ms: seq<Fs>, ss: seq<State>, es: seq<Step>, id: nat,
                                                 faults: nat -> Fault, k: nat)
    requires IsRun(ms, ss, es) && FreezesAlone(es, id, faults) && 1 <= k <= |es|
    ensures FreezeAt(ms, ss[0].agent, ss[k], id, faults, k)
    ensures id !in ss[k].freezers ==> ss[k].agent == FreezeAll(ss[0].agent, Some(ms), faults)
  {
    assert ss[k - 1 + 1] == Apply(ms, ss[k - 1], es[k - 1]);
    if k > 1 {
      LoneFreezeIsFreezeAll(ms, ss, es, id, faults, k - 1);
      FreezeAtNext(ms, ss[0].agent, ss[k - 1], es[k - 1], id, faults, k - 1);
    }
    FreezeAllExact(ss[0].agent, ms, faults);
  }

  ghost predicate ThawsAlone(es: seq<Step>, id: nat, faults: nat -> Fault) {
    && es != [] && es[0] == BeginThaw(id)
    && forall k :: 1 <= k < |es| ==> es[k] == ThawNext(id, faults(k - 1)) || es[k] == EndThaw(id)
  }

  ghost predicate ThawAt(ms: seq<Fs>, a: Agent, s: State, id: nat, faults: nat -> Fault, k: nat) {
    if id in s.thawers then
      && 1 <= k <= |ms| + 1 && s.thawers[id] == k - 1
      && (forall j: nat :: j < k - 1 ==> faults(j).NoFault?)
      && s.agent == Agent(a.locked, a.frozen - Members(ms[..k - 1]))
    else
      s.agent == Agent(a.locked && exists i: nat :: i < |ms| && !faults(i).NoFault?, a.frozen - ThawedBy(ms, faults))
  }

  lemma ThawAtNext(ms: seq<Fs>, a: Agent, s: State, e: Step, id: nat, faults: nat -> Fault, k: nat)
    requires k >= 1 && ThawAt(ms, a, s, id, faults, k) && Enabled(ms, s, e)
    requires e == ThawNext(id, faults(k - 1)) || e == EndThaw(id)
    ensures ThawAt(ms, a, Apply(ms, s, e), id, faults, k + 1)
  {
    if e.EndThaw? || ThawFails(faults(k - 1)) {
      assert Members(ms[..k - 1]) == ThawedBy(ms, faults);
    } else {
      MembersSnoc(ms, k - 1);
    }
  }

  /** Taken alone, the steps of a thaw are the whole UnfreezeFileSystems. */
  lemma {:induction false} LoneThawIsThawAll(ms: seq<Fs>, ss: seq<State>, es: seq<Step>, id: nat,
                                             faults: nat -> Fault, k: nat)
    requires IsRun(ms, ss, es) && ThawsAlone(es, id, faults) && 1 <= k <= |es|
    ensures ThawAt(ms, ss[0].agent, ss[k], id, faults, k)
    ensures id !in ss[k].thawers ==> ss[k].agent == ThawAll(ss[0].agent, Some(ms), faults)
  {
    assert ss[k - 1 + 1] == Apply(ms, ss[k - 1], es[k - 1]);
    if k > 1 {
      LoneThawIsThawAll(ms, ss, es, id, faults, k - 1);
      ThawAtNext(ms, ss[0].agent, ss[k - 1], es[k - 1], id, faults, k - 1);
    }
    ThawAllExact(ss[0].agent, ms, faults);
  }

  // ---------------------------------------------------------------- what a harmful step can do

  /** A freeze with a mount point to go and a thaw are both in flight. */
  ghost predicate Racing(ms: seq<Fs>, s: State, f: nat, t: nat) {
    f in s.freezers && s.freezers[f] < |ms| && t in s.thawers
  }

  lemma HarmfulRaces(ms: seq<Fs>, s: State, e: Step) returns (f: nat, t: nat)
    requires Enabled(ms, s, e) && Harmful(ms, s, e)
    ensures Racing(ms, Apply(ms, s, e), f, t)
  {
    if e.BeginFreeze? {
      f := e.id;
      t :| t in s.thawers;
    } else {
      f :| f in s.freezers && s.freezers[f] < |ms|;
      t := e.id;
    }
  }

  lemma Append(ms: seq<Fs>, ss: seq<State>, es: seq<Step>, e: Step)
    requires IsRun(ms, ss, es) && Enabled(ms, ss[|es|], e)
    ensures IsRun(ms, ss + [Apply(ms, ss[|es|], e)], es + [e])
  {
  }

  /** The thaw can go on to its last mount point while the freeze stands still. */
  lemma {:induction false} ThawToEnd(ms: seq<Fs>, s: State, f: nat, t: nat, n: nat)
    returns (ss: seq<State>, es: seq<Step>)
    requires Racing(ms, s, f, t) && s.thawers[t] + n == |ms|
    ensures IsRun(ms, ss, es) && ss[0] == s && |es| == n
    ensures Racing(ms, ss[n], f, t) && ss[n].thawers[t] == |ms|
  {
    ss, es := [s], [];
    for i := 0 to n
      invariant IsRun(ms, ss, es) && ss[0] == s && |es| == i
      invariant Racing(ms, ss[i], f, t) && ss[i].thawers[t] + n == |ms| + i
    {
      Append(ms, ss, es, ThawNext(t, NoFault));
      ss, es := ss + [Apply(ms, ss[i], ThawNext(t, NoFault))], es + [ThawNext(t, NoFault)];
    }
  }

  /** Any harmful step from a sound state can be continued to an unlocked agent with a filesystem frozen. */
  lemma HarmfulCanUnlockWhileFrozen(ms: seq<Fs>, s: State, e: Step) returns (ss: seq<State>, es: seq<Step>)
    requires Sound(ms, s) && Enabled(ms, s, e) && Harmful(ms, s, e)
    ensures IsRun(ms, ss, es) && ss[0] == Apply(ms, s, e)
    ensures var last := ss[|es|]; !last.agent.locked && last.agent.frozen != {}
  {
    var f, t := HarmfulRaces(ms, s, e);
    var s0 := Apply(ms, s, e);
    assert s0.thawers[t] <= |ms|;
    var n := |ms| - s0.thawers[t];
    ss, es := ThawToEnd(ms, s0, f, t, n);
    var s1 := Apply(ms, ss[n], FreezeNext(f, NoFault));
    Append(ms, ss, es, FreezeNext(f, NoFault));
    ss, es := ss + [s1], es + [FreezeNext(f, NoFault)];
    Append(ms, ss, es, EndThaw(t));
    ss, es := ss + [Apply(ms, s1, EndThaw(t))], es + [EndThaw(t)];
    assert ms[s1.freezers[f] - 1] in s1.agent.frozen;
  }

  /** In every run: harmless steps keep the promise, and the first harmful step can break it. */
  lemma PromiseBreaksIffHarmful(ms: seq<Fs>, ss: seq<State>, es: seq<Step>, k: nat)
    requires IsRun(ms, ss, es) && ss[0] == INIT && k < |es|
    requires forall j :: 0 <= j < k ==> !Harmful(ms, ss[j], es[j])
    ensures !Harmful(ms, ss[k], es[k]) ==> Sound(ms, ss[k + 1])
    ensures Harmful(ms, ss[k], es[k]) ==>
              exists tt, fs :: IsRun(ms, tt, fs) && tt[0] == ss[k + 1] && BrokenPromise(tt[|fs|])
  {
    UnlockedMeansNothingFrozen(ms, ss, es, k);
    if Harmful(ms, ss[k], es[k]) {
      var tt, fs := HarmfulCanUnlockWhileFrozen(ms, ss[k], es[k]);
      assert IsRun(ms, tt, fs) && BrokenPromise(tt[|fs|]);
    } else {
      SoundStep(ms, ss[k], es[k]);
    }
  }

  ghost predicate BrokenPromise(s: State) { !s.agent.locked && s.agent.frozen != {} }
}
