/** The promises of the live user-set update, over every run of Hy2Protocol. */
module Hy2Theorems {
  import opened Model
  import opened Hy2Protocol
  import opened Hy2Invariant

  // ---------- eviction ----------

  /** The lookup came before the swap and the commit after the scan had passed the session. */
  predicate InFlight(st: State, r: Session) {
    r.at.lookup < st.users.swapAt < r.at.scanned < r.at.commit
  }

  predicate Open(st: State, s: Sid) {
    s in st.table && s in st.reg.ids && st.table[s].id.authenticated && !st.table[s].channel.done
  }

  /** Whenever no update is in progress, an open authenticated session either has a password of
      the current set or was in flight across the last update. */
  lemma Eviction(users: UserMap, steps: seq<Step>, s: Sid)
    requires ValidRun(Init(users), steps)
    requires Exec(Init(users), steps).panel.Ready? && Open(Exec(Init(users), steps), s)
    ensures var st := Exec(Init(users), steps);
            st.table[s].id.password in st.users.userMap || InFlight(st, st.table[s])
  {
    var st := Exec(Init(users), steps);
    assert Inv(st) by { InvInit(users); InvRun(Init(users), steps); }
    EvictionState(st, s);
  }

  lemma EvictionState(st: State, s: Sid)
    requires Inv(st) && st.panel.Ready? && Open(st, s)
    ensures st.table[s].id.password in st.users.userMap || InFlight(st, st.table[s])
  {
    assert SessionInv(st, s, st.table[s]);
  }

  /** When the scan ends, the victim list is exact: it holds a session if and only if the scan
      read it after its commit and its password is not in the new set. */
  lemma ScanIsExact(users: UserMap, steps: seq<Step>, s: Sid)
    requires ValidRun(Init(users), steps)
    requires var p := Exec(Init(users), steps).panel; p.Scan? && p.todo == {}
    requires s in Exec(Init(users), steps).table
    ensures var st := Exec(Init(users), steps); var r := st.table[s];
            && (s in st.reg.ids ==> st.users.swapAt < r.at.scanned)
            && (s in st.panel.victims <==>
                  && st.users.swapAt < r.at.scanned && r.id.authenticated && r.at.commit < r.at.scanned
                  && r.id.password !in st.panel.keep)
  {
    var st := Exec(Init(users), steps);
    assert Inv(st) by { InvInit(users); InvRun(Init(users), steps); }
    assert SessionInv(st, s, st.table[s]);
  }

  /** Runs compose. */
  lemma {:induction false} Compose(st: State, a: seq<Step>, b: seq<Step>)
    requires ValidRun(st, a) && ValidRun(Exec(st, a), b)
    ensures ValidRun(st, a + b) && Exec(st, a + b) == Exec(Exec(st, a), b)
    decreases |a|
  {
    if a == [] {
      assert a + b == b;
    } else {
      assert (a + b)[0] == a[0] && (a + b)[1..] == a[1..] + b;
      Compose(Apply(st, a[0]), a[1..], b);
    }
  }

  // ---------- the in-flight exception is real ----------

  const ANONYMOUS := Identity(false, "", "")
  const BEFORE: UserMap := map["p" := "u"]
  const AFTER: UserMap := map[]

  /** The witness run: look "p" up, let an update remove it and finish, then commit. */
  const HANDSHAKE := [Accept(0), ConnStep(0), ConnStep(0), Request(0, "p"), AuthStep(0), AuthStep(0)]
  const SWAP := [Update([], []), PanelStep(0), PanelStep(0)]
  const SCAN := [PanelStep(0), PanelStep(0), PanelStep(0)]
  const RETAIN := SCAN + SCAN
  const COMMIT := [AuthStep(0), AuthStep(0), AuthStep(0), AuthStep(0), AuthStep(0)]

  function WitnessTable(auth: AuthPc, id: Identity, at: Stamps): map<Sid, Session> {
    map[0 := Session(Serving, auth, Resting, None, None, id, Channel(false, 0), at)]
  }

  function AfterHandshake(): State {
    State(Users(BEFORE, None, {}, [BEFORE], 0), Registry({0}, None),
          WitnessTable(CommitWait("p", "u"), ANONYMOUS, Stamps(3, 6, 1, 0, 0)), Ready, 6, [])
  }

  function AfterSwap(): State {
    State(Users(AFTER, None, {}, [BEFORE, AFTER], 9), Registry({0}, None),
          WitnessTable(CommitWait("p", "u"), ANONYMOUS, Stamps(3, 6, 1, 0, 0)), RetainWait({}), 9, [])
  }

  function AfterRetain(): State {
    State(Users(AFTER, None, {}, [BEFORE, AFTER], 9), Registry({0}, None),
          WitnessTable(CommitWait("p", "u"), ANONYMOUS, Stamps(3, 6, 1, 0, 13)), Ready, 15, [])
  }

  function AfterCommit(): State {
    State(Users(AFTER, None, {}, [BEFORE, AFTER], 9), Registry({0}, None),
          WitnessTable(Quiet, Identity(true, "u", "p"), Stamps(3, 6, 1, 19, 13)), Ready, 20, [])
  }

  lemma RunHandshake()
    ensures ValidRun(Init(BEFORE), HANDSHAKE) && Exec(Init(BEFORE), HANDSHAKE) == AfterHandshake()
  {
  }

  lemma RunSwap()
    ensures ValidRun(AfterHandshake(), SWAP) && Exec(AfterHandshake(), SWAP) == AfterSwap()
  {
    assert (set p: string | p in []) == {};
  }

  function MidRetain(): State {
    State(Users(AFTER, None, {}, [BEFORE, AFTER], 9), Registry({0}, Some(Panel)),
          map[0 := Session(Serving, CommitWait("p", "u"), Resting, Some(Panel), None, ANONYMOUS, Channel(false, 0),
                           Stamps(3, 6, 1, 0, 0))],
          ScanHeld({}, {}, [], 0), 12, [])
  }

  lemma RunLock()
    ensures ValidRun(AfterSwap(), SCAN) && Exec(AfterSwap(), SCAN) == MidRetain()
  {
    assert {0} - {0} == (set s: Sid | s in []);
    var st2 := Apply(Apply(AfterSwap(), PanelStep(0)), PanelStep(0));
    assert st2.panel == ScanWait({}, {}, [], 0);
    assert Apply(st2, PanelStep(0)).table == MidRetain().table;
  }

  lemma RunScan()
    ensures ValidRun(MidRetain(), SCAN) && Exec(MidRetain(), SCAN) == AfterRetain()
  {
  }

  lemma RunRetain()
    ensures ValidRun(AfterSwap(), RETAIN) && Exec(AfterSwap(), RETAIN) == AfterRetain()
  {
    hide ValidRun, Exec, AfterSwap, MidRetain, AfterRetain;
    RunLock();
    RunScan();
    Compose(AfterSwap(), SCAN, SCAN);
  }

  lemma RunCommit()
    ensures ValidRun(AfterRetain(), COMMIT) && Exec(AfterRetain(), COMMIT) == AfterCommit()
  {
  }

  /** One handshake across one update leaves a session open under a removed password. */
  lemma InFlightEscapes()
    ensures var steps := HANDSHAKE + (SWAP + (RETAIN + COMMIT));
            && ValidRun(Init(BEFORE), steps)
            && var st := Exec(Init(BEFORE), steps);
               && st.panel.Ready? && Open(st, 0) && st.users.userMap == AFTER
               && st.table[0].id.password == "p" && InFlight(st, st.table[0])
  {
    RunHandshake();
    RunSwap();
    RunRetain();
    RunCommit();
    Compose(AfterRetain(), [], COMMIT);
    Compose(AfterSwap(), RETAIN, COMMIT);
    Compose(AfterHandshake(), SWAP, RETAIN + COMMIT);
    Compose(Init(BEFORE), HANDSHAKE, SWAP + (RETAIN + COMMIT));
  }

  // ---------- no valid session is dropped ----------

  predicate Done(st: State, s: Sid) {
    s in st.table && st.table[s].channel.done
  }

  /** The panel closes a session only if it is authenticated with a password outside the current set. */
  lemma NoDrop(users: UserMap, steps: seq<Step>, pick: Sid, s: Sid)
    requires ValidRun(Init(users), steps) && Enabled(Exec(Init(users), steps), PanelStep(pick))
    requires var st := Exec(Init(users), steps); !Done(st, s) && Done(Apply(st, PanelStep(pick)), s)
    ensures var st := Exec(Init(users), steps);
            s in st.table && st.table[s].id.authenticated && st.table[s].id.password !in st.users.userMap
  {
    var st := Exec(Init(users), steps);
    assert Inv(st) by { InvInit(users); InvRun(Init(users), steps); }
    NoDropState(st, pick, s);
  }

  lemma NoDropState(st: State, pick: Sid, s: Sid)
    requires Inv(st) && PanelEnabled(st, pick)
    requires !Done(st, s) && Done(Apply(st, PanelStep(pick)), s)
    ensures s in st.table && Condemned(st.users, st.table[s])
  {
    hide SharedInv, StreamInv, UserLockOf, RegistryOf, AuthLockOf, ConnLockOf, HistoryOf;
    assert s in st.table;
    assert SessionInv(st, s, st.table[s]);
  }

  /** connDone is closed at most once, whatever the closers do. */
  lemma ClosedAtMostOnce(users: UserMap, steps: seq<Step>, s: Sid)
    requires ValidRun(Init(users), steps) && s in Exec(Init(users), steps).table
    ensures var c := Exec(Init(users), steps).table[s].channel; c.closes == if c.done then 1 else 0
  {
    var st := Exec(Init(users), steps);
    assert Inv(st) by { InvInit(users); InvRun(Init(users), steps); }
    assert SessionInv(st, s, st.table[s]);
  }

  // ---------- stable attribution ----------

  /** The session's identity is the one its password had in the map it was looked up in. */
  ghost predicate Attributed(st: State, s: Sid) {
    && s in st.table && st.table[s].id.authenticated
    && var r := st.table[s];
       && 0 < r.at.epoch <= |st.users.epochs|
       && r.id.password in st.users.epochs[r.at.epoch - 1]
       && r.id.user == st.users.epochs[r.at.epoch - 1][r.id.password]
  }

  lemma AttributedState(st: State, s: Sid)
    requires Inv(st) && s in st.table && st.table[s].id.authenticated
    ensures Attributed(st, s)
  {
    assert SessionInv(st, s, st.table[s]);
  }

  /** One step of anyone leaves an authenticated session's identity and lookup alone, and
      installed maps are never rewritten. */
  lemma IdentityStep(st: State, step: Step, s: Sid)
    requires Inv(st) && Enabled(st, step) && s in st.table && st.table[s].id.authenticated
    ensures var st' := Apply(st, step);
            && s in st'.table && st'.table[s].id == st.table[s].id && st'.table[s].at.epoch == st.table[s].at.epoch
            && st.users.epochs <= st'.users.epochs
  {
    hide SharedInv, PanelInv, StreamInv, UserLockOf, RegistryOf, AuthLockOf, ConnLockOf, ScanOf;
    assert SessionInv(st, s, st.table[s]);
  }

  lemma {:induction false} IdentityRun(st: State, steps: seq<Step>, s: Sid)
    requires Inv(st) && ValidRun(st, steps) && s in st.table && st.table[s].id.authenticated
    ensures var end := Exec(st, steps);
            && s in end.table && end.table[s].id == st.table[s].id && end.table[s].at.epoch == st.table[s].at.epoch
            && st.users.epochs <= end.users.epochs
    decreases |steps|
  {
    if steps != [] {
      IdentityStep(st, steps[0], s);
      InvStep(st, steps[0]);
      IdentityRun(Apply(st, steps[0]), steps[1..], s);
    }
  }

  /** However many updates follow, an authenticated session keeps the name its password mapped
      to when it was looked up, and every stream it ever opened is accounted under that name. */
  lemma StableAttribution(users: UserMap, before: seq<Step>, after: seq<Step>, s: Sid)
    requires ValidRun(Init(users), before) && ValidRun(Exec(Init(users), before), after)
    requires var st := Exec(Init(users), before); s in st.table && st.table[s].id.authenticated
    ensures var st, end := Exec(Init(users), before), Exec(Exec(Init(users), before), after);
            && Attributed(st, s) && Attributed(end, s)
            && end.table[s].id == st.table[s].id
            && end.table[s].at.epoch == st.table[s].at.epoch && st.users.epochs <= end.users.epochs
            && (forall x :: x in end.streams && x.s == s ==> x.user == st.table[s].id.user)
  {
    hide *;
    var st := Exec(Init(users), before);
    InvInit(users);
    InvRun(Init(users), before);
    InvRun(st, after);
    IdentityRun(st, after, s);
    AttributedState(st, s);
    AttributedState(Exec(st, after), s);
    StreamsState(Exec(st, after), s);
  }

  lemma StreamsState(st: State, s: Sid)
    requires Inv(st) && s in st.table
    ensures forall x :: x in st.streams && x.s == s ==> x.user == st.table[s].id.user
  {
  }

  /** In every reachable state all streams of a session carry its user name. */
  lemma StreamsAttributed(users: UserMap, steps: seq<Step>, s: Sid)
    requires ValidRun(Init(users), steps) && s in Exec(Init(users), steps).table
    ensures var st := Exec(Init(users), steps);
            forall x :: x in st.streams && x.s == s ==> x.user == st.table[s].id.user
  {
    hide *;
    InvInit(users);
    InvRun(Init(users), steps);
    StreamsState(Exec(Init(users), steps), s);
  }

  // ---------- no deadlock ----------

  /** The thread has called something it has not finished. */
  predicate Working(st: State, role: Role) {
    match role
    case Panel => !st.panel.Ready?
    case Conn(s) => s in st.table && !st.table[s].conn.Serving? && !st.table[s].conn.Gone?
    case Auth(s) => s in st.table && !st.table[s].auth.Quiet?
    case Closer(s) => s in st.table && !st.table[s].closer.Resting?
  }

  /** The thread can go on with what it has not finished. */
  ghost predicate CanRun(st: State, role: Role) {
    match role
    case Panel => exists pick :: PanelEnabled(st, pick)
    case Conn(s) => s in st.table && !st.table[s].conn.Serving? && ConnEnabled(st.reg, st.table[s].conn)
    case Auth(s) => s in st.table && AuthEnabled(st.users, st.panel, st.table[s])
    case Closer(s) => s in st.table && CloserEnabled(st.table[s])
  }

  /** `role` is waiting for a lock that `holder` holds (or, for a reader, has announced). */
  predicate WaitsFor(st: State, role: Role, holder: Role) {
    match role
    case Panel =>
      (match st.panel
       case SwapWait(_, _) => st.users.writer == Some(holder) || (holder.Auth? && holder.s in st.users.readers)
       case RetainWait(_) => st.reg.lock == Some(holder)
       case ScanWait(_, _, _, cur) => cur in st.table && st.table[cur].authLock == Some(holder)
       case EvictWait(cur, _) => cur in st.table && st.table[cur].connLock == Some(holder)
       case _ => false)
    case Conn(s) =>
      s in st.table && (st.table[s].conn.AddWait? || st.table[s].conn.EndWait?) && st.reg.lock == Some(holder)
    case Auth(s) =>
      && s in st.table
      && (st.table[s].auth.LookWait? ==>
            st.users.writer == Some(holder) || (st.panel.SwapWait? && holder == Panel))
      && (!st.table[s].auth.LookWait? ==>
            st.table[s].auth.CommitWait? && st.table[s].authLock == Some(holder))
    case Closer(s) => s in st.table && st.table[s].closer.CloserWait? && st.table[s].connLock == Some(holder)
  }

  /** The thread can run, or waits for one that can, or for one that waits for one that can. */
  ghost predicate Unblocked(st: State, role: Role) {
    || CanRun(st, role)
    || exists h :: WaitsFor(st, role, h) && (CanRun(st, h) || exists g :: WaitsFor(st, h, g) && CanRun(st, g))
  }

  lemma PanelUnblocked(st: State)
    requires Inv(st) && Working(st, Panel)
    ensures CanRun(st, Panel) || exists h :: WaitsFor(st, Panel, h) && h != Panel && CanRun(st, h)
  {
    hide HistoryOf, ScanOf, StreamInv;
    match st.panel
    case SwapWait(_, _) =>
      if st.users.readers == {} {
        assert PanelEnabled(st, 0);
      } else {
        var r :| r in st.users.readers;
        assert SessionInv(st, r, st.table[r]);
        assert WaitsFor(st, Panel, Auth(r)) && CanRun(st, Auth(r));
      }
    case RetainWait(_) =>
      match st.reg.lock {
        case None => assert PanelEnabled(st, 0);
        case Some(h) =>
          assert SessionInv(st, h.s, st.table[h.s]);
          assert WaitsFor(st, Panel, h) && CanRun(st, h);
      }
    case Scan(_, todo, _) =>
      var pick: Sid := if todo == {} then 0 else var p :| p in todo; p;
      assert PanelEnabled(st, pick);
    case ScanWait(_, _, _, cur) =>
      assert SessionInv(st, cur, st.table[cur]);
      if st.table[cur].authLock.None? {
        assert PanelEnabled(st, 0);
      } else {
        assert WaitsFor(st, Panel, Auth(cur)) && CanRun(st, Auth(cur));
      }
    case EvictWait(cur, _) =>
      assert SessionInv(st, cur, st.table[cur]);
      if st.table[cur].connLock.None? {
        assert PanelEnabled(st, 0);
      } else {
        assert WaitsFor(st, Panel, Closer(cur)) && CanRun(st, Closer(cur));
      }
    case SwapHeld(_, _) => assert PanelEnabled(st, 0);
    case ScanHeld(_, _, _, _) => assert PanelEnabled(st, 0);
    case Evict(_) => assert PanelEnabled(st, 0);
    case EvictHeld(_, _) => assert PanelEnabled(st, 0);
  }

  /** The other threads wait only for the panel or for a thread that can run. */
  lemma SessionThreadUnblocked(st: State, role: Role)
    requires Inv(st) && Working(st, role) && role != Panel
    ensures CanRun(st, role) || (Working(st, Panel) && WaitsFor(st, role, Panel))
            || exists h :: WaitsFor(st, role, h) && CanRun(st, h)
  {
    hide HistoryOf, ScanOf, StreamInv;
    assert SessionInv(st, role.s, st.table[role.s]);
    if !CanRun(st, role) && role.Conn? && st.reg.lock != Some(Panel) {
      var h := st.reg.lock.value;
      assert SessionInv(st, h.s, st.table[h.s]);
      assert WaitsFor(st, role, h) && CanRun(st, h);
    }
  }

  /** Lock order pays off: no chain of waiting threads is longer than two, and it ends in a
      thread that can run. */
  lemma NoDeadlock(users: UserMap, steps: seq<Step>, role: Role)
    requires ValidRun(Init(users), steps) && Working(Exec(Init(users), steps), role)
    ensures Unblocked(Exec(Init(users), steps), role)
  {
    hide *;
    var st := Exec(Init(users), steps);
    InvInit(users);
    InvRun(Init(users), steps);
    UnblockedState(st, role);
  }

  lemma UnblockedState(st: State, role: Role)
    requires Inv(st) && Working(st, role)
    ensures Unblocked(st, role)
  {
    hide Inv, Working, CanRun, WaitsFor;
    if role == Panel {
      PanelUnblocked(st);
    } else {
      SessionThreadUnblocked(st, role);
      if WaitsFor(st, role, Panel) && Working(st, Panel) {
        PanelUnblocked(st);
      }
    }
  }

  /** The step belongs to a thread with unfinished work; no new work counts. */
  predicate Advances(st: State, step: Step) {
    match step
    case ConnStep(s) => Working(st, Conn(s))
    case AuthStep(s) => Working(st, Auth(s))
    case CloserStep(s) => Working(st, Closer(s))
    case PanelStep(_) => Working(st, Panel)
    case Accept(_) => false
    case Request(_, _) => false
    case CloseCall(_) => false
    case OpenStream(_) => false
    case Update(_, _) => false
  }

  /** So in a reachable state with unfinished work some thread with unfinished work has a step. */
  lemma SomeStepEnabled(users: UserMap, steps: seq<Step>, role: Role)
    requires ValidRun(Init(users), steps) && Working(Exec(Init(users), steps), role)
    ensures var st := Exec(Init(users), steps); exists step :: Enabled(st, step) && Advances(st, step)
  {
    hide ValidRun, Exec, CanRun, WaitsFor, Working;
    var st := Exec(Init(users), steps);
    NoDeadlock(users, steps, role);
    assert Unblocked(st, role);
    assert exists r: Role :: CanRun(st, r);
    var r: Role :| CanRun(st, r);
    RunnableAdvances(st, r);
  }

  lemma RunnableAdvances(st: State, role: Role)
    requires CanRun(st, role)
    ensures exists step :: Enabled(st, step) && Advances(st, step)
  {
    match role
    case Panel =>
      var pick :| PanelEnabled(st, pick);
      assert Enabled(st, PanelStep(pick)) && Advances(st, PanelStep(pick));
    case Conn(s) => assert Enabled(st, ConnStep(s)) && Advances(st, ConnStep(s));
    case Auth(s) => assert Enabled(st, AuthStep(s)) && Advances(st, AuthStep(s));
    case Closer(s) => assert Enabled(st, CloserStep(s)) && Advances(st, CloserStep(s));
  }

  // ---------- an update ends ----------

  /** Panel steps left once the scan has begun. */
  function Left(p: PanelPc): nat {
    match p
    case Scan(_, todo, victims) => 6 * |todo| + 3 * |victims| + 2
    case ScanWait(_, todo, victims, _) => 6 * |todo| + 3 * |victims| + 7
    case ScanHeld(_, todo, victims, _) => 6 * |todo| + 3 * |victims| + 6
    case Evict(victims) => 3 * |victims| + 1
    case EvictWait(_, victims) => 3 * |victims| + 3
    case EvictHeld(_, victims) => 3 * |victims| + 2
    case _ => 0
  }

  /** Once RetainUsers holds the registry lock, each panel step brings the end nearer and no
      other thread can move it away. */
  lemma RetainEnds(st: State, step: Step)
    requires Enabled(st, step) && 0 < Left(st.panel)
    ensures var st' := Apply(st, step);
            if step.PanelStep? then Left(st'.panel) < Left(st.panel) else Left(st'.panel) == Left(st.panel)
    ensures Left(Apply(st, step).panel) == 0 ==> Apply(st, step).panel.Ready?
  {
  }

  // ---------- the other threads ----------

  /** Over every run from then on: a session whose close was called is closed once that call returned. */
  lemma {:induction false} CloseFinishes(st: State, steps: seq<Step>, s: Sid)
    requires ValidRun(st, steps) && s in st.table
    requires st.table[s].channel.done || !st.table[s].closer.Resting?
    ensures var end := Exec(st, steps);
            s in end.table && (end.table[s].channel.done || !end.table[s].closer.Resting?)
    decreases |steps|
  {
    if steps != [] {
      CloseStep(st, steps[0], s);
      CloseFinishes(Apply(st, steps[0]), steps[1..], s);
    }
  }

  lemma CloseStep(st: State, step: Step, s: Sid)
    requires Enabled(st, step) && s in st.table
    requires st.table[s].channel.done || !st.table[s].closer.Resting?
    ensures var next := Apply(st, step);
            s in next.table && (next.table[s].channel.done || !next.table[s].closer.Resting?)
  {
  }

  /** After every run the registry holds exactly the sessions whose thread has added them and not yet
      removed them. */
  lemma RegisteredExactly(users: UserMap, steps: seq<Step>, s: Sid)
    requires ValidRun(Init(users), steps)
    ensures var st := Exec(Init(users), steps);
            s in st.reg.ids <==> s in st.table && (st.table[s].conn == Serving || st.table[s].conn == EndWait
                                                   || st.table[s].conn == EndHeld)
  {
    hide ValidRun, Exec;
    InvRun(Init(users), steps);
  }
}
