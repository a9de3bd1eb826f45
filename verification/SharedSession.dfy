/** The re-entrant shared CDP session (`shared_session` and `recover_reset` in `session_manager.py`). */
module SharedSession {
  import opened Wire

  /** A connection made by `get_session`; the serial tells connections apart. */
  datatype Session = Session(serial: nat, tabId: string, wsUrl: string, url: string)

  datatype Target = Target(id: string, wsUrl: string, url: string)

  function TargetOf(s: Session): Target {
    Target(s.tabId, s.wsUrl, s.url)
  }

  /** How setting up an outer context goes: no connection, a connection that fails before it is
      shared, or success. */
  datatype Setup = NoSession | Broken(sess: Session) | Opens(sess: Session)

  /** The `_shared_*` fields, and how often each connection was closed. */
  datatype Shared = Shared(session: Option<Session>, target: Option<Target>, port: Option<int>, refcount: int,
                           closed: multiset<Session>)

  const IDLE := Shared(None, None, None, 0, multiset{})

  function Active(s: Shared): Option<Session> {
    if s.target.Some? && s.refcount > 0 then s.session else None
  }

  /** The `finally` clause of a context that holds sess. */
  function Left(s: Shared, sess: Option<Session>): Shared {
    if s.refcount - 1 > 0 then s.(refcount := s.refcount - 1)
    else Shared(None, None, None, 0, s.closed + (if sess.Some? then multiset{sess.value} else multiset{}))
  }

  function Entered(s: Shared, port: int, setup: Setup): Shared {
    if Active(s).Some? then
      if s.port.Some? && s.port.value != port then s else s.(refcount := s.refcount + 1)
    else match setup
      case NoSession => Left(s, None)
      case Broken(sess) => Left(s, Some(sess))
      case Opens(sess) => Shared(Some(sess), Some(TargetOf(sess)), Some(port), 1, s.closed)
  }

  /** What the `with` statement yields, or None where it raises. */
  function Yielded(s: Shared, port: int, setup: Setup): Option<Session> {
    if Active(s).Some? then
      if s.port.Some? && s.port.value != port then None else Active(s)
    else if setup.Opens? then Some(setup.sess) else None
  }

  function Recovered(s: Shared): Shared {
    IDLE.(closed := s.closed + (if s.session.Some? then multiset{s.session.value} else multiset{}))
  }

  class SessionManager {
    var session: Option<Session>
    var target: Option<Target>
    var port: Option<int>
    var refcount: int
    ghost var closed: multiset<Session>

    ghost function State(): Shared
      reads this
    {
      Shared(session, target, port, refcount, closed)
    }

    constructor ()
      ensures State() == IDLE
    {
      session, target, port, refcount, closed := None, None, None, 0, multiset{};
    }

    method Close(s: Session)
      modifies this`closed
      ensures closed == old(closed) + multiset{s}
    {
      closed := closed + multiset{s};
    }

    method ClearShared()
      modifies this`session, this`target, this`port, this`refcount
      ensures State() == IDLE.(closed := closed)
    {
      session, target, port, refcount := None, None, None, 0;
    }

    method GetActiveSharedSession() returns (active: Option<Session>)
      ensures active == Active(State())
    {
      if session.Some? && target.Some? && refcount > 0 {
        return session;
      }
      return None;
    }

    /** Up to the `yield`; a failed setup runs the `finally` clause at once. */
    method Enter(cdpPort: int, setup: Setup) returns (yielded: Option<Session>)
      modifies this
      ensures State() == Entered(old(State()), cdpPort, setup)
      ensures yielded == Yielded(old(State()), cdpPort, setup)
    {
      var active := GetActiveSharedSession();
      if active.Some? {
        if port.Some? && port.value != cdpPort {
          return None;
        }
        refcount := refcount + 1;
        return active;
      }
      if setup.NoSession? {
        Exit(None);
        return None;
      }
      var sess := setup.sess;
      if setup.Broken? {
        Exit(Some(sess));
        return None;
      }
      session, target, port, refcount := Some(sess), Some(TargetOf(sess)), Some(cdpPort), 1;
      return Some(sess);
    }

    /** The `finally` clause. */
    method Exit(sess: Option<Session>)
      modifies this
      ensures State() == Left(old(State()), sess)
    {
      refcount := refcount - 1;
      if refcount <= 0 {
        if sess.Some? {
          Close(sess.value);
        }
        ClearShared();
      }
    }

    method RecoverReset() returns (sharedClosed: bool)
      modifies this
      ensures State() == Recovered(old(State()))
      ensures sharedClosed <==> old(session).Some?
    {
      sharedClosed := session.Some?;
      if sharedClosed {
        Close(session.value);
      }
      ClearShared();
    }
  }

  // ---- Runs ----

  /** An open `with` block; live means entered since the last reset. */
  datatype Frame = Frame(sess: Session, port: int, live: bool)

  datatype World = World(shared: Shared, frames: seq<Frame>, made: set<Session>, next: nat)

  const START := World(IDLE, [], {}, 0)

  datatype Action = Enter(port: int, setup: Setup) | Exit(i: nat) | Reset

  function Aged(frames: seq<Frame>): seq<Frame> {
    seq(|frames|, i requires 0 <= i < |frames| => frames[i].(live := false))
  }

  function Without(frames: seq<Frame>, i: nat): seq<Frame>
    requires i < |frames|
  {
    frames[..i] + frames[i + 1..]
  }

  function Step(w: World, a: Action): World {
    match a
    case Enter(port, setup) =>
      var y := Yielded(w.shared, port, setup);
      var added := if Active(w.shared).None? && !setup.NoSession? then {setup.sess} else {};
      World(Entered(w.shared, port, setup),
            if y.Some? then w.frames + [Frame(y.value, port, true)] else w.frames,
            w.made + added,
            if added == {} then w.next else w.next + 1)
    case Exit(i) =>
      if i >= |w.frames| then w
      else w.(shared := Left(w.shared, Some(w.frames[i].sess)), frames := Without(w.frames, i))
    case Reset =>
      w.(shared := Recovered(w.shared), frames := Aged(w.frames))
  }

  /** Every `get_session` makes a new connection. */
  predicate NewConnection(w: World, a: Action) {
    a.Enter? && !a.setup.NoSession? ==> a.setup.sess.serial == w.next
  }

  datatype Trace = Start | Then(before: Trace, a: Action)

  function Last(t: Trace): World {
    if t.Then? then Step(Last(t.before), t.a) else START
  }

  predicate IsRun(t: Trace) {
    t.Then? ==> IsRun(t.before) && NewConnection(Last(t.before), t.a)
  }

  /** How many blocks were entered since the last reset and are still open. */
  function Live(frames: seq<Frame>): nat {
    if frames == [] then 0 else Live(frames[..|frames| - 1]) + (if frames[|frames| - 1].live then 1 else 0)
  }

  /** The refcount is the number of live blocks; a session is shared exactly when there are some, and
      then it is the session of all of them, on the port of all of them. */
  ghost predicate Counted(w: World) {
    && w.shared.refcount == Live(w.frames)
    && (w.shared.session.Some? <==> w.shared.refcount > 0)
    && (w.shared.target.Some? <==> w.shared.refcount > 0)
    && (w.shared.refcount > 0 ==>
          var s := w.shared.session.value; w.shared.target == Some(Target(s.tabId, s.wsUrl, s.url)))
    && (w.shared.port.Some? <==> w.shared.refcount > 0)
    && forall i :: 0 <= i < |w.frames| && w.frames[i].live ==>
         w.shared.session == Some(w.frames[i].sess) && w.shared.port == Some(w.frames[i].port)
  }

  /** The block being left was entered since the last reset, or no open block was. */
  predicate Proper(w: World, a: Action) {
    a.Exit? && a.i < |w.frames| && !w.frames[a.i].live ==> Live(w.frames) == 0
  }

  /** Blocks are left in reverse order of entry. */
  predicate LastFirst(w: World, a: Action) {
    a.Exit? && a.i < |w.frames| ==> a.i == |w.frames| - 1
  }

  ghost predicate AlwaysCounted(t: Trace) {
    Counted(Last(t)) && (t.Then? ==> AlwaysCounted(t.before))
  }

  predicate AlwaysProper(t: Trace) {
    t.Then? ==> AlwaysProper(t.before) && Proper(Last(t.before), t.a)
  }

  predicate AlwaysLastFirst(t: Trace) {
    t.Then? ==> AlwaysLastFirst(t.before) && LastFirst(Last(t.before), t.a)
  }

  predicate NeverReset(t: Trace) {
    t.Then? ==> NeverReset(t.before) && !t.a.Reset?
  }

  // ---- Counting live blocks ----

  lemma {:induction false} LiveWithout(frames: seq<Frame>, i: nat)
    requires i < |frames|
    ensures Live(Without(frames, i)) == Live(frames) - (if frames[i].live then 1 else 0)
  {
    var k := |frames| - 1;
    if i < k {
      LiveWithout(frames[..k], i);
      assert Without(frames, i)[..k - 1] == Without(frames[..k], i);
    } else {
      assert Without(frames, i) == frames[..k];
    }
  }

  lemma {:induction false} LiveNone(frames: seq<Frame>)
    ensures Live(frames) == 0 <==> forall i :: 0 <= i < |frames| ==> !frames[i].live
  {
    if frames != [] {
      var k := |frames| - 1;
      LiveNone(frames[..k]);
      assert forall i :: 0 <= i < k ==> frames[..k][i] == frames[i];
    }
  }

  // ---- The refcount ----

  lemma EnterCounted(w: World, port: int, setup: Setup)
    requires Counted(w)
    ensures Counted(Step(w, Enter(port, setup)))
  {
    var w' := Step(w, Enter(port, setup));
    LiveNone(w.frames);
    if |w'.frames| > |w.frames| {
      assert w'.frames[..|w'.frames| - 1] == w.frames;
    }
  }

  lemma ResetCounted(w: World)
    requires Counted(w)
    ensures Counted(Step(w, Reset))
  {
    LiveNone(Aged(w.frames));
  }

  /** Leaving a block keeps the count right exactly when the exit is proper. */
  lemma ExitCountedIff(w: World, i: nat)
    requires Counted(w)
    ensures Counted(Step(w, Exit(i))) <==> Proper(w, Exit(i))
  {
    if i < |w.frames| {
      var w' := Step(w, Exit(i));
      LiveWithout(w.frames, i);
      LiveNone(w'.frames);
    }
  }

  /** In every run the refcount is right throughout exactly when every exit is proper. */
  lemma {:induction false} CountedIffProper(t: Trace)
    ensures AlwaysCounted(t) <==> AlwaysProper(t)
  {
    if t.Then? {
      CountedIffProper(t.before);
      var w := Last(t.before);
      if AlwaysCounted(t.before) {
        match t.a
        case Enter(port, setup) => EnterCounted(w, port, setup);
        case Exit(i) => ExitCountedIff(w, i);
        case Reset => ResetCounted(w);
      }
    }
  }

  // ---- Last in, first out ----

  /** Blocks from before the last reset lie below all others. */
  ghost predicate StaleBelow(frames: seq<Frame>) {
    forall i, j :: 0 <= i < j < |frames| && frames[i].live ==> frames[j].live
  }

  lemma {:induction false} LastFirstIsProper(t: Trace)
    requires AlwaysLastFirst(t)
    ensures AlwaysProper(t) && StaleBelow(Last(t).frames)
  {
    if t.Then? {
      LastFirstIsProper(t.before);
      LiveNone(Last(t.before).frames);
    }
  }

  lemma {:induction false} NoResetIsProper(t: Trace)
    requires NeverReset(t)
    ensures AlwaysProper(t) && forall f :: f in Last(t).frames ==> f.live
  {
    if t.Then? {
      NoResetIsProper(t.before);
    }
  }

  /** With last-in-first-out exits, resets and failed setups may come anywhere. */
  lemma LastFirstCounted(t: Trace)
    requires AlwaysLastFirst(t)
    ensures AlwaysCounted(t)
  {
    LastFirstIsProper(t);
    CountedIffProper(t);
  }

  /** Without resets any order of exits will do. */
  lemma NoResetCounted(t: Trace)
    requires NeverReset(t)
    ensures AlwaysCounted(t)
  {
    NoResetIsProper(t);
    CountedIffProper(t);
  }

  /** A block entered while one is live yields the session all live blocks have, or raises. */
  lemma NestedSharesSession(w: World, port: int, setup: Setup, i: nat)
    requires Counted(w) && i < |w.frames| && w.frames[i].live
    ensures var y := Yielded(w.shared, port, setup);
            if port == w.frames[i].port
            then y == Some(w.frames[i].sess) && Step(w, Enter(port, setup)).shared == w.shared.(refcount := w.shared.refcount + 1)
            else y == None && Step(w, Enter(port, setup)) == w
  {
    LiveNone(w.frames);
  }

  lemma NothingAboveStale(frames: seq<Frame>)
    requires StaleBelow(frames) && frames != [] && !frames[|frames| - 1].live
    ensures Live(frames) == 0
  {
    LiveNone(frames);
  }

  /** With last-in-first-out exits, leaving a block from before a reset finds nothing shared and
      changes nothing but close its own session again. */
  lemma StaleExitHarmless(t: Trace)
    requires AlwaysLastFirst(t) && Last(t).frames != [] && !Last(t).frames[|Last(t).frames| - 1].live
    ensures var w, i := Last(t), |Last(t).frames| - 1;
            && w.shared.session == None
            && Step(w, Exit(i)).shared == w.shared.(closed := w.shared.closed + multiset{w.frames[i].sess})
  {
    LastFirstIsProper(t);
    CountedIffProper(t);
    NothingAboveStale(Last(t).frames);
    StaleExit(Last(t), |Last(t).frames| - 1);
  }

  lemma StaleExit(w: World, i: nat)
    requires Counted(w) && Live(w.frames) == 0 && i < |w.frames|
    ensures w.shared.session == None
    ensures Step(w, Exit(i)).shared == w.shared.(closed := w.shared.closed + multiset{w.frames[i].sess})
  {
  }

  // ---- Closing ----

  /** Connections are told apart, and blocks only hold connections that were made. */
  ghost predicate Tracked(w: World) {
    && (forall s :: s in w.made ==> s.serial < w.next)
    && (forall i :: 0 <= i < |w.frames| ==> w.frames[i].sess in w.made)
    && (w.shared.session.Some? ==> w.shared.session.value in w.made)
  }

  /** Exactly the connections that are no longer shared have been closed. */
  ghost predicate ClosedExactly(w: World) {
    forall s :: s in w.made ==> (w.shared.closed[s] == 0 <==> w.shared.session == Some(s))
  }

  /** ... and each of them once. */
  ghost predicate ClosedOnce(w: World) {
    forall s :: s in w.made ==> w.shared.closed[s] == (if w.shared.session == Some(s) then 0 else 1)
  }

  /** Nothing is closed that was never made. */
  ghost predicate OnlyMadeClosed(w: World) {
    forall s :: s in w.shared.closed ==> s in w.made
  }

  lemma EnterCloses(w: World, port: int, setup: Setup)
    requires Counted(w) && Tracked(w) && OnlyMadeClosed(w) && NewConnection(w, Enter(port, setup))
    ensures var w' := Step(w, Enter(port, setup));
            && Tracked(w') && OnlyMadeClosed(w')
            && (ClosedExactly(w) ==> ClosedExactly(w')) && (ClosedOnce(w) ==> ClosedOnce(w'))
  {
    if Active(w.shared).None? && !setup.NoSession? {
      assert setup.sess !in w.made;
    }
  }

  lemma ExitCloses(w: World, i: nat)
    requires Counted(w) && Tracked(w) && OnlyMadeClosed(w) && ClosedExactly(w) && Proper(w, Exit(i))
    ensures var w' := Step(w, Exit(i)); Tracked(w') && OnlyMadeClosed(w') && ClosedExactly(w')
    ensures i < |w.frames| && w.frames[i].live && ClosedOnce(w) ==> ClosedOnce(Step(w, Exit(i)))
  {
    if i < |w.frames| {
      assert w.frames[i].sess in w.made;
      forall j | 0 <= j < |Without(w.frames, i)|
        ensures Without(w.frames, i)[j].sess in w.made
      {
        assert Without(w.frames, i)[j] == w.frames[if j < i then j else j + 1];
      }
    }
  }

  lemma ResetCloses(w: World)
    requires Tracked(w) && OnlyMadeClosed(w) && ClosedExactly(w)
    ensures var w' := Step(w, Reset); Tracked(w') && OnlyMadeClosed(w') && ClosedExactly(w')
  {
  }

  /** As long as exits are proper, a connection stays open exactly while it is the shared one. */
  lemma {:induction false} ProperCloses(t: Trace)
    requires IsRun(t) && AlwaysProper(t)
    ensures Tracked(Last(t)) && OnlyMadeClosed(Last(t)) && ClosedExactly(Last(t))
  {
    if t.Then? {
      var w := Last(t.before);
      ProperCloses(t.before);
      CountedIffProper(t.before);
      match t.a
      case Enter(port, setup) => EnterCloses(w, port, setup);
      case Exit(i) => ExitCloses(w, i);
      case Reset => ResetCloses(w);
    }
  }

  /** Without resets no connection is closed twice, in whatever order the blocks are left. */
  lemma {:induction false} NoResetClosesOnce(t: Trace)
    requires IsRun(t) && NeverReset(t)
    ensures ClosedOnce(Last(t))
  {
    if t.Then? {
      var w := Last(t.before);
      NoResetClosesOnce(t.before);
      NoResetIsProper(t.before);
      ProperCloses(t.before);
      CountedIffProper(t.before);
      NoResetIsProper(t);
      match t.a
      case Enter(port, setup) => EnterCloses(w, port, setup);
      case Exit(i) => ExitCloses(w, i);
    }
  }

  /** Without resets it is the last of the overlapping blocks that closes the shared session. */
  lemma LastOutCloses(t: Trace, i: nat)
    requires IsRun(t) && NeverReset(t) && i < |Last(t).frames|
    ensures var w, w' := Last(t), Step(Last(t), Exit(i));
            && w.shared.session == Some(w.frames[i].sess)
            && w'.shared.closed == w.shared.closed + (if |w.frames| == 1 then multiset{w.frames[i].sess} else multiset{})
            && (w'.shared.session == None <==> |w.frames| == 1)
  {
    NoResetIsProper(t);
    CountedIffProper(t);
    AllLive(Last(t).frames);
    assert Last(t).frames[i].live;
  }

  lemma {:induction false} AllLive(frames: seq<Frame>)
    requires forall f :: f in frames ==> f.live
    ensures Live(frames) == |frames|
  {
    if frames != [] {
      AllLive(frames[..|frames| - 1]);
      assert frames[|frames| - 1] in frames;
    }
  }

  /** When all blocks are left, everything is closed and nothing is shared. */
  lemma NothingLeaks(t: Trace)
    requires IsRun(t) && AlwaysProper(t) && Last(t).frames == []
    ensures Last(t).shared == IDLE.(closed := Last(t).shared.closed)
    ensures forall s :: s in Last(t).made ==> Last(t).shared.closed[s] > 0
  {
    ProperCloses(t);
    CountedIffProper(t);
  }

  /** Leaving a block from before a reset while another block is live: that block's session is no
      longer shared though it is still open, and a later block then opens a second connection. */
  lemma ImproperExitUnshares(port: int, a: Session, b: Session, c: Session)
    requires a.serial == 0 && b.serial == 1 && c.serial == 2
    ensures var t := Then(Then(Then(Then(Start, Enter(port, Opens(a))), Reset), Enter(port, Opens(b))), Exit(0));
            && IsRun(t) && Last(t).frames == [Frame(b, port, true)]
            && Last(t).shared.session == None && Last(t).shared.closed[b] == 0
            && Step(Last(t), Enter(port, Opens(c))).shared.session == Some(c)
  {
    var t1 := Then(Start, Enter(port, Opens(a)));
    var t2 := Then(t1, Reset);
    var t3 := Then(t2, Enter(port, Opens(b)));
    assert Last(t1) == World(Shared(Some(a), Some(TargetOf(a)), Some(port), 1, multiset{}), [Frame(a, port, true)], {a}, 1);
    assert Last(t2) == World(IDLE.(closed := multiset{a}), [Frame(a, port, false)], {a}, 1);
    assert Last(t3) == World(Shared(Some(b), Some(TargetOf(b)), Some(port), 1, multiset{a}),
                             [Frame(a, port, false), Frame(b, port, true)], {a, b}, 2);
    assert IsRun(t1);
    assert IsRun(t2);
    assert IsRun(t3);
    assert Last(Then(t3, Exit(0))) == World(IDLE.(closed := multiset{a, a}), [Frame(b, port, true)], {a, b}, 2);
  }
}
