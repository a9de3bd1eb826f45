/** Leader, peer and rescue election among processes (`extension_gateway_shared.py`), over file locks
    (`extension_leader_lock.py`). */
module LeaderElection {
  import SetFacts

  datatype Path = Main | Rescue

  /** Which process holds the exclusive lock on which file. */
  type Owners = map<Path, nat>

  /** A non-blocking attempt by process p succeeds, or p holds the lock already. */
  predicate Available(owners: Owners, path: Path, p: nat) {
    path in owners ==> owners[path] == p
  }

  predicate Holds(owners: Owners, path: Path, p: nat) {
    path in owners && owners[path] == p
  }

  function Taken(owners: Owners, path: Path, p: nat): Owners {
    if Available(owners, path, p) then owners[path := p] else owners
  }

  function Freed(owners: Owners, path: Path, p: nat): Owners {
    if Holds(owners, path, p) then owners - {path} else owners
  }

  /** `_leader` is set, `_peer` is set, `is_proxy`. */
  datatype Role = Role(leader: bool, peer: bool, isProxy: bool)

  const IDLE := Role(false, false, false)
  const LEADING := Role(true, false, false)
  const PROXYING := Role(false, true, true)

  function Ensured(owners: Owners, p: nat): Role {
    if Available(owners, Main, p) then LEADING else PROXYING
  }

  function Promoted(owners: Owners, p: nat, role: Role): Role {
    if Available(owners, Main, p) then LEADING else role
  }

  function Rescued(owners: Owners, p: nat, role: Role): Role {
    if role.isProxy && Available(owners, Rescue, p) then LEADING else role
  }

  function RescueTaken(owners: Owners, p: nat, role: Role): Owners {
    if role.isProxy then Taken(owners, Rescue, p) else owners
  }

  // ---- The objects ----

  /** The operating system's table of file locks. */
  class LockFiles {
    var owners: Owners

    constructor ()
      ensures owners == map[]
    {
      owners := map[];
    }

    method Lock(path: Path, p: nat) returns (ok: bool)
      modifies this
      ensures ok <==> path !in old(owners)
      ensures owners == if ok then old(owners)[path := p] else old(owners)
    {
      ok := path !in owners;
      if ok {
        owners := owners[path := p];
      }
    }

    method Unlock(path: Path)
      modifies this
      ensures owners == old(owners) - {path}
    {
      owners := owners - {path};
    }
  }

  class LeaderLock {
    const path: Path
    const pid: nat
    /** `_fp` is set. */
    var held: bool

    ghost predicate Valid(files: LockFiles)
      reads this, files
    {
      held <==> Holds(files.owners, path, pid)
    }

    constructor (path: Path, pid: nat)
      ensures this.path == path && this.pid == pid && !held
    {
      this.path, this.pid, held := path, pid, false;
    }

    method TryAcquire(files: LockFiles) returns (ok: bool)
      requires Valid(files)
      modifies this, files
      ensures Valid(files)
      ensures ok <==> Available(old(files.owners), path, pid)
      ensures files.owners == Taken(old(files.owners), path, pid)
    {
      if held {
        return true;
      }
      ok := files.Lock(path, pid);
      if ok {
        held := true;
      }
    }

    method Release(files: LockFiles)
      requires Valid(files)
      modifies this, files
      ensures Valid(files) && !held
      ensures files.owners == Freed(old(files.owners), path, pid)
    {
      var locked := held;
      held := false;
      if locked {
        files.Unlock(path);
      }
    }
  }

  class SharedExtensionGateway {
    const pid: nat
    const leaderLock: LeaderLock
    const rescueLock: LeaderLock
    var leader: bool
    var peer: bool
    var isProxy: bool

    ghost function State(): Role
      reads this
    {
      Role(leader, peer, isProxy)
    }

    ghost predicate Valid(files: LockFiles)
      reads this, leaderLock, rescueLock, files
    {
      && leaderLock.path == Main && rescueLock.path == Rescue
      && leaderLock.pid == rescueLock.pid == pid
      && leaderLock.Valid(files) && rescueLock.Valid(files)
    }

    constructor (pid: nat, files: LockFiles)
      requires !Holds(files.owners, Main, pid) && !Holds(files.owners, Rescue, pid)
      ensures Valid(files) && State() == IDLE
      ensures fresh(leaderLock) && fresh(rescueLock)
    {
      this.pid := pid;
      leaderLock := new LeaderLock(Main, pid);
      rescueLock := new LeaderLock(Rescue, pid);
      leader, peer, isProxy := false, false, false;
    }

    method Lead()
      modifies this
      ensures State() == LEADING
    {
      if peer {
        peer := false;
      }
      if !leader {
        leader := true;
      }
      isProxy := false;
    }

    method EnsureBackend(files: LockFiles)
      requires Valid(files)
      modifies this, leaderLock, files
      ensures Valid(files)
      ensures State() == Ensured(old(files.owners), pid)
      ensures files.owners == Taken(old(files.owners), Main, pid)
    {
      var acquired := leaderLock.TryAcquire(files);
      if acquired {
        Lead();
        return;
      }
      if leader {
        leader := false;
      }
      if !peer {
        peer := true;
      }
      isProxy := true;
    }

    /** The first locked block of `wait_for_connection`. */
    method Promote(files: LockFiles)
      requires Valid(files)
      modifies this, leaderLock, files
      ensures Valid(files)
      ensures State() == Promoted(old(files.owners), pid, old(State()))
      ensures files.owners == Taken(old(files.owners), Main, pid)
    {
      var acquired := leaderLock.TryAcquire(files);
      if acquired {
        Lead();
      }
    }

    /** The second locked block. */
    method RescueLead(files: LockFiles)
      requires Valid(files)
      modifies this, rescueLock, files
      ensures Valid(files)
      ensures State() == Rescued(old(files.owners), pid, old(State()))
      ensures files.owners == RescueTaken(old(files.owners), pid, old(State()))
    {
      if isProxy {
        var acquired := rescueLock.TryAcquire(files);
        if acquired {
          Lead();
        }
      }
    }

    /** `wait_for_connection`; answers are what the backends' own waits return, in order. Undisturbed
        by other processes it ends as the leader if either lock was available. */
    method WaitForConnection(files: LockFiles, answers: (bool, bool)) returns (ok: bool)
      requires Valid(files)
      modifies this, leaderLock, rescueLock, files
      ensures Valid(files)
      ensures var owners := old(files.owners);
              if Available(owners, Main, pid) then
                State() == LEADING && ok == answers.0 && files.owners == Taken(owners, Main, pid)
              else if !answers.0 && Available(owners, Rescue, pid) then
                State() == LEADING && ok == answers.1 && files.owners == Taken(owners, Rescue, pid)
              else
                State() == PROXYING && ok == answers.0 && files.owners == owners
    {
      EnsureBackend(files);
      if answers.0 {
        return true;
      }
      if isProxy {
        Promote(files);
        if leader {
          return answers.1;
        }
        RescueLead(files);
        if leader {
          return answers.1;
        }
      }
      return false;
    }

    method Stop(files: LockFiles)
      requires Valid(files)
      modifies this, leaderLock, rescueLock, files
      ensures Valid(files)
      ensures State() == IDLE
      ensures files.owners == Freed(Freed(old(files.owners), Main, pid), Rescue, pid)
    {
      if peer {
        peer := false;
      }
      if leader {
        leader := false;
      }
      leaderLock.Release(files);
      rescueLock.Release(files);
      isProxy := false;
    }
  }

  // ---- Any number of processes ----

  datatype World = World(roles: map<nat, Role>, owners: Owners)

  const START := World(map[], map[])

  /** A process starts, runs one of the locked blocks, stops its gateway, or dies. The blocks may run
      in any order; the unlocked test of `is_proxy` before `Promote` guarantees nothing. */
  datatype Action = Spawn(p: nat) | EnsureBackend(p: nat) | Promote(p: nat) | RescueLead(p: nat) | Stop(p: nat) | Crash(p: nat)

  function FreedBy(owners: Owners, p: nat): Owners {
    Freed(Freed(owners, Main, p), Rescue, p)
  }

  function Step(w: World, a: Action): World {
    if a.Spawn? then
      if a.p in w.roles then w else w.(roles := w.roles[a.p := IDLE])
    else if a.p !in w.roles then w
    else match a
      case EnsureBackend(p) => World(w.roles[p := Ensured(w.owners, p)], Taken(w.owners, Main, p))
      case Promote(p) => World(w.roles[p := Promoted(w.owners, p, w.roles[p])], Taken(w.owners, Main, p))
      case RescueLead(p) => World(w.roles[p := Rescued(w.owners, p, w.roles[p])], RescueTaken(w.owners, p, w.roles[p]))
      case Stop(p) => World(w.roles[p := IDLE], FreedBy(w.owners, p))
      case Crash(p) => World(w.roles - {p}, FreedBy(w.owners, p))
  }

  datatype Trace = Start(w: World) | Then(before: Trace, a: Action)

  function First(t: Trace): World {
    if t.Then? then First(t.before) else t.w
  }

  function Last(t: Trace): World {
    if t.Then? then Step(Last(t.before), t.a) else t.w
  }

  /** One backend at a time, known to `is_proxy`; the main lock makes a leader, and leading takes a lock. */
  predicate RoleSound(role: Role, main: bool, rescue: bool) {
    && !(role.leader && role.peer)
    && (role.isProxy <==> role.peer)
    && (main ==> role.leader)
    && (role.leader ==> main || rescue)
  }

  ghost predicate Sound(w: World) {
    && (forall path :: path in w.owners ==> w.owners[path] in w.roles)
    && forall p :: p in w.roles ==> RoleSound(w.roles[p], Holds(w.owners, Main, p), Holds(w.owners, Rescue, p))
  }

  lemma StepSound(w: World, a: Action)
    requires Sound(w)
    ensures Sound(Step(w, a))
  {
    var w' := Step(w, a);
    forall path | path in w'.owners
      ensures w'.owners[path] in w'.roles
    {
      assert path == Main || path == Rescue;
    }
    forall p | p in w'.roles
      ensures RoleSound(w'.roles[p], Holds(w'.owners, Main, p), Holds(w'.owners, Rescue, p))
    {
      if p in w.roles {
        assert RoleSound(w.roles[p], Holds(w.owners, Main, p), Holds(w.owners, Rescue, p));
      }
    }
  }

  lemma {:induction false} RunSound(t: Trace)
    requires Sound(First(t))
    ensures Sound(Last(t))
  {
    if t.Then? {
      RunSound(t.before);
      StepSound(Last(t.before), t.a);
    }
  }

  function Leaders(w: World): set<nat> {
    set p | p in w.roles && w.roles[p].leader
  }

  function Owner(owners: Owners, path: Path): set<nat> {
    if path in owners then {owners[path]} else {}
  }

  /** At most two leaders ever, one for each lock. */
  lemma LeadersHoldLocks(t: Trace)
    requires First(t) == START
    ensures var w := Last(t);
            && Leaders(w) <= Owner(w.owners, Main) + Owner(w.owners, Rescue)
            && Owner(w.owners, Main) <= Leaders(w) && |Leaders(w)| <= 2
  {
    var w := Last(t);
    RunSound(t);
    forall p | p in Leaders(w)
      ensures p in Owner(w.owners, Main) + Owner(w.owners, Rescue)
    {
      assert RoleSound(w.roles[p], Holds(w.owners, Main, p), Holds(w.owners, Rescue, p));
    }
    SetFacts.SubsetSize(Leaders(w), Owner(w.owners, Main) + Owner(w.owners, Rescue));
  }

  // ---- Promotion and rescue ----

  /** Needing the backend, or trying again while waiting, makes a process the leader with the main lock
      exactly when no other process has that lock; and nobody else is affected. */
  lemma AttemptDecides(w: World, p: nat, a: Action)
    requires p in w.roles && a in {EnsureBackend(p), Promote(p)}
    ensures var w' := Step(w, a);
            && (Holds(w'.owners, Main, p) <==> Main !in w.owners || w.owners[Main] == p)
            && (Holds(w'.owners, Main, p) ==> w'.roles[p] == LEADING)
            && (!Holds(w'.owners, Main, p) ==> w'.owners == w.owners
                                               && w'.roles[p] == if a.Promote? then w.roles[p] else PROXYING)
            && w'.roles.Keys == w.roles.Keys && forall q :: q in w.roles && q != p ==> w'.roles[q] == w.roles[q]
  {
  }

  /** When the leader stops or dies, any other process that next needs its backend, or tries again while
      waiting, takes over. */
  lemma CrashPromotes(w: World, q: nat, p: nat)
    requires Sound(w) && Holds(w.owners, Main, q) && p != q && p in w.roles
    ensures forall end, a :: end in {Stop(q), Crash(q)} && a in {EnsureBackend(p), Promote(p)} ==>
              var w' := Step(Step(w, end), a); p in w'.roles && w'.roles[p] == LEADING && Holds(w'.owners, Main, p)
  {
    forall end, a | end in {Stop(q), Crash(q)} && a in {EnsureBackend(p), Promote(p)}
      ensures var w' := Step(Step(w, end), a); p in w'.roles && w'.roles[p] == LEADING && Holds(w'.owners, Main, p)
    {
      var w1 := Step(w, end);
      assert p in w1.roles && Main !in w1.owners;
      AttemptDecides(w1, p, a);
    }
  }

  predicate Leads(w: World, p: nat) {
    p in w.roles && w.roles[p].leader
  }

  /** p leads at the start of the run and after each of its steps. */
  predicate AlwaysLeads(t: Trace, p: nat) {
    Leads(Last(t), p) && (t.Then? ==> AlwaysLeads(t.before, p))
  }

  predicate Avoids(t: Trace, bad: set<Action>) {
    t.Then? ==> Avoids(t.before, bad) && t.a !in bad
  }

  /** p neither stops nor dies. */
  predicate Keeps(t: Trace, p: nat) {
    Avoids(t, {Stop(p), Crash(p)})
  }

  /** No call of p comes while another process holds the main lock. */
  predicate NoCallUnderOther(t: Trace, p: nat) {
    t.Then? ==> NoCallUnderOther(t.before, p) && (t.a == EnsureBackend(p) ==> Available(Last(t.before).owners, Main, p))
  }

  /** Over any run, whichever lock made it the leader, p leads throughout exactly when it leads to begin
      with, neither stops nor dies, and makes no call while another process holds the main lock. */
  lemma {:induction false} AlwaysLeadsIff(t: Trace, p: nat)
    ensures AlwaysLeads(t, p) <==> Leads(First(t), p) && Keeps(t, p) && NoCallUnderOther(t, p)
  {
    if t.Then? {
      AlwaysLeadsIff(t.before, p);
    }
  }

  /** A process keeps its lock until it stops or dies. */
  lemma {:induction false} LockStays(t: Trace, path: Path, p: nat)
    requires Holds(First(t).owners, path, p) && Keeps(t, p)
    ensures Holds(Last(t).owners, path, p)
  {
    if t.Then? {
      LockStays(t.before, path, p);
    }
  }

  lemma {:induction false} NoCallAtAll(t: Trace, p: nat, q: nat)
    requires p != q && Holds(First(t).owners, Main, q) && Keeps(t, q)
    ensures Keeps(t, p) && NoCallUnderOther(t, p) <==> Avoids(t, {EnsureBackend(p), Stop(p), Crash(p)})
  {
    if t.Then? {
      NoCallAtAll(t.before, p, q);
      LockStays(t.before, Main, q);
    }
  }

  /** While the unhealthy leader q lives, its rescuer p leads exactly as long as it makes no further call,
      for that call turns it back into a peer which keeps the rescue lock. */
  lemma RescueLastsIff(t: Trace, p: nat, q: nat)
    requires Sound(First(t)) && Leads(First(t), p)
    requires p != q && Holds(First(t).owners, Main, q) && Keeps(t, q)
    ensures AlwaysLeads(t, p) <==> Avoids(t, {EnsureBackend(p), Stop(p), Crash(p)})
    ensures AlwaysLeads(t, p)
            ==> var w := Step(Last(t), EnsureBackend(p)); w.roles[p] == PROXYING && Holds(w.owners, Rescue, p)
  {
    AlwaysLeadsIff(t, p);
    NoCallAtAll(t, p, q);
    LockStays(t, Main, q);
    RunSound(t);
    if AlwaysLeads(t, p) {
      var w := Last(t);
      assert RoleSound(w.roles[p], Holds(w.owners, Main, p), Holds(w.owners, Rescue, p));
    }
  }

  /** Who took the rescue lock, as a proxy while nobody had it, and has neither stopped nor died since. */
  function Taker(t: Trace): set<nat> {
    if t.Start? then {}
    else
      var w, taker := Last(t.before), Taker(t.before);
      match t.a
      case RescueLead(q) => if taker == {} && q in w.roles && w.roles[q].isProxy then {q} else taker
      case Stop(q) => taker - {q}
      case Crash(q) => taker - {q}
      case _ => taker
  }

  lemma {:induction false} TakerOwns(t: Trace)
    requires First(t) == START
    ensures Owner(Last(t).owners, Rescue) == Taker(t)
  {
    if t.Then? {
      TakerOwns(t.before);
      RunSound(t.before);
    }
  }

  /** After any run a proxy's attempt to rescue itself succeeds exactly when no other process has taken
      the rescue lock without stopping or dying since. */
  lemma RescueWorksIff(t: Trace, p: nat)
    requires First(t) == START && p in Last(t).roles && Last(t).roles[p].isProxy
    ensures Leads(Step(Last(t), RescueLead(p)), p) <==> Taker(t) <= {p}
  {
    TakerOwns(t);
    RunSound(t);
    var w := Last(t);
    assert RoleSound(w.roles[p], Holds(w.owners, Main, p), Holds(w.owners, Rescue, p));
  }

  /** Until p stops or dies nobody else gets the rescue lock, so any other leader holds the main one,
      whether or not p still leads. */
  lemma RescueStaysBlocked(t: Trace, p: nat)
    requires Sound(First(t)) && Holds(First(t).owners, Rescue, p) && Keeps(t, p)
    ensures var w := Last(t);
            Holds(w.owners, Rescue, p) && forall q :: q in Leaders(w) && q != p ==> Holds(w.owners, Main, q)
  {
    LockStays(t, Rescue, p);
    RunSound(t);
    var w := Last(t);
    forall q | q in Leaders(w) && q != p
      ensures Holds(w.owners, Main, q)
    {
      assert RoleSound(w.roles[q], Holds(w.owners, Main, q), Holds(w.owners, Rescue, q));
    }
  }

  ghost predicate Reachable(w: World) {
    exists t :: First(t) == START && Last(t) == w
  }

  lemma ReachMore(w: World, a: Action, w': World)
    requires Reachable(w) && Step(w, a) == w'
    ensures Reachable(w')
  {
    var t :| First(t) == START && Last(t) == w;
    assert First(Then(t, a)) == START && Last(Then(t, a)) == w';
  }

  lemma ThreeSpawned(p: nat, q: nat, r: nat)
    requires p != q && q != r && r != p
    ensures Reachable(World(map[q := IDLE, p := IDLE, r := IDLE], map[]))
  {
    assert First(Start(START)) == START && Last(Start(START)) == START;
    var w1, w2 := World(map[q := IDLE], map[]), World(map[q := IDLE, p := IDLE], map[]);
    var w3 := World(map[q := IDLE, p := IDLE, r := IDLE], map[]);
    ReachMore(START, Spawn(q), w1);
    ReachMore(w1, Spawn(p), w2);
    ReachMore(w2, Spawn(r), w3);
  }

  lemma LeaderReachable(p: nat, q: nat, r: nat)
    requires p != q && q != r && r != p
    ensures Reachable(World(map[q := LEADING, p := IDLE, r := IDLE], map[Main := q]))
  {
    ThreeSpawned(p, q, r);
    var w3 := World(map[q := IDLE, p := IDLE, r := IDLE], map[]);
    ReachMore(w3, EnsureBackend(q), World(map[q := LEADING, p := IDLE, r := IDLE], map[Main := q]));
  }

  /** p and r are both peers of the leader q. */
  lemma TwoPeersReachable(p: nat, q: nat, r: nat)
    requires p != q && q != r && r != p
    ensures Reachable(World(map[q := LEADING, p := PROXYING, r := PROXYING], map[Main := q]))
  {
    LeaderReachable(p, q, r);
    var w4 := World(map[q := LEADING, p := IDLE, r := IDLE], map[Main := q]);
    var w5 := World(map[q := LEADING, p := PROXYING, r := IDLE], map[Main := q]);
    ReachMore(w4, EnsureBackend(p), w5);
    ReachMore(w5, EnsureBackend(r), World(map[q := LEADING, p := PROXYING, r := PROXYING], map[Main := q]));
  }

  /** p has rescued itself from q. */
  lemma RescuedReachable(p: nat, q: nat, r: nat)
    requires p != q && q != r && r != p
    ensures Reachable(World(map[q := LEADING, p := LEADING, r := PROXYING], map[Main := q, Rescue := p]))
  {
    TwoPeersReachable(p, q, r);
    var w6 := World(map[q := LEADING, p := PROXYING, r := PROXYING], map[Main := q]);
    ReachMore(w6, RescueLead(p), World(map[q := LEADING, p := LEADING, r := PROXYING], map[Main := q, Rescue := p]));
  }

  /** It happens: p rescues itself from the unhealthy leader q, its next call demotes it, and r, which
      cannot reach q either, can then not rescue itself. */
  lemma DemotedRescueBlocks(p: nat, q: nat, r: nat)
    requires p != q && q != r && r != p
    ensures var w := World(map[q := LEADING, p := PROXYING, r := PROXYING], map[Main := q, Rescue := p]);
            Reachable(w) && Step(w, RescueLead(r)) == w
  {
    RescuedReachable(p, q, r);
    var w7 := World(map[q := LEADING, p := LEADING, r := PROXYING], map[Main := q, Rescue := p]);
    ReachMore(w7, EnsureBackend(p), World(map[q := LEADING, p := PROXYING, r := PROXYING], map[Main := q, Rescue := p]));
  }
}
