/** What every interleaving of Hy2Protocol keeps: facts about the shared fields and, for
every session, facts about that session alone. */
module Hy2Invariant {
  import opened Model
  import opened Hy2Protocol
  import Hy2Service

  predicate ScanLocked(p: PanelPc) { p.Scan? || p.ScanWait? || p.ScanHeld? }

  predicate Registered(pc: ConnPc) { pc.Serving? || pc.EndWait? || pc.EndHeld? }

  predicate Unregistered(pc: ConnPc) { pc.AddWait? || pc.AddHeld? }

  // ---------- locks: held exactly by the thread that is in the critical section ----------

  predicate UserLockOf(users: Users, s: Sid, pc: AuthPc) {
    (s in users.readers <==> pc.LookHeld?) && (users.writer.Some? ==> !pc.LookHeld?)
  }

  predicate RegistryOf(reg: Registry, s: Sid, pc: ConnPc) {
    && (reg.lock == Some(Conn(s)) <==> pc.AddHeld? || pc.EndHeld?)
    && (s in reg.ids <==> Registered(pc))
  }

  predicate AuthLockOf(panel: PanelPc, s: Sid, pc: AuthPc, lock: Option<Role>) {
    && (lock.None? || lock == Some(Auth(s)) || lock == Some(Panel))
    && (lock == Some(Auth(s)) <==> pc.CommitHeld?)
    && (lock == Some(Panel) <==> panel.ScanHeld? && panel.cur == s)
  }

  predicate ConnLockOf(panel: PanelPc, s: Sid, pc: CloserPc, lock: Option<Role>) {
    && (lock.None? || lock == Some(Closer(s)) || lock == Some(Panel))
    && (lock == Some(Closer(s)) <==> pc.CloserHeld?)
    && (lock == Some(Panel) <==> panel.EvictHeld? && panel.cur == s)
  }

  // ---------- history ----------

  /** The pair was read from the map that was current at the stamped lookup. */
  predicate LookedUp(users: Users, now: nat, at: Stamps, pw: string, user: string) {
    && 0 < at.registered < at.lookup <= now && at.lookup != users.swapAt
    && 0 < at.epoch <= |users.epochs|
    && pw in users.epochs[at.epoch - 1] && users.epochs[at.epoch - 1][pw] == user
    && (at.epoch == |users.epochs| <==> users.swapAt < at.lookup)
  }

  predicate AuthHistory(users: Users, now: nat, pc: AuthPc, id: Identity, at: Stamps) {
    && (pc.LookWait? || pc.LookHeld? || pc.CommitWait? ==> !id.authenticated)
    && (pc.CommitWait? ==> LookedUp(users, now, at, pc.pw, pc.user))
    && (pc.CommitHeld? ==>
          && LookedUp(users, now, at, pc.pw, pc.user)
          && (id.authenticated <==> pc.writes == 3) && pc.writes <= 3
          && (1 <= pc.writes ==> id.user == pc.user)
          && (2 <= pc.writes ==> id.password == pc.pw))
    && (id.authenticated ==>
          && LookedUp(users, now, at, id.password, id.user)
          && at.lookup < at.commit && at.commit != at.scanned)
  }

  predicate HistoryOf(users: Users, now: nat, r: Session) {
    && r.at.registered <= now && r.at.scanned <= now && r.at.commit <= now
    && r.channel.closes == (if r.channel.done then 1 else 0)
    && (Unregistered(r.conn) ==> r.auth.Quiet? && !r.id.authenticated && r.at.scanned == 0)
    && (!Unregistered(r.conn) ==> 0 < r.at.registered)
    && AuthHistory(users, now, r.auth, r.id, r.at)
  }

  // ---------- eviction ----------

  /** RetainUsers has to close this session: the scan of the current update read it after its
      commit, and its password is not in the current set. */
  predicate Condemned(users: Users, r: Session) {
    && users.swapAt < r.at.scanned
    && r.id.authenticated && r.at.commit < r.at.scanned
    && r.id.password !in users.userMap
  }

  /** Once the scan is over, a condemned session is closed or pending, and a registered session
      that the scan did not see was registered after the swap. */
  predicate SettledOf(users: Users, r: Session, pending: bool) {
    && (Condemned(users, r) ==> pending || r.channel.done)
    && (pending ==> Condemned(users, r))
    && (Registered(r.conn) && r.at.scanned <= users.swapAt ==> users.swapAt < r.at.registered)
  }

  predicate ScanningOf(users: Users, r: Session, unread: bool, victim: bool) {
    && (unread ==> r.at.scanned <= users.swapAt)
    && (Registered(r.conn) && !unread ==> users.swapAt < r.at.scanned)
    && (victim <==> Condemned(users, r))
  }

  /** What the victim list means for this session at each point of an update. */
  predicate ScanOf(users: Users, panel: PanelPc, s: Sid, r: Session) {
    match panel
    case Ready => SettledOf(users, r, false)
    case SwapWait(_, _) => SettledOf(users, r, false)
    case SwapHeld(_, _) => SettledOf(users, r, false)
    case RetainWait(_) => r.at.scanned <= users.swapAt
    case Scan(_, todo, victims) => ScanningOf(users, r, s in todo, s in victims)
    case ScanWait(_, todo, victims, cur) => ScanningOf(users, r, s in todo || s == cur, s in victims)
    case ScanHeld(_, todo, victims, cur) => ScanningOf(users, r, s in todo || s == cur, s in victims)
    case Evict(victims) => SettledOf(users, r, s in victims)
    case EvictWait(cur, victims) => SettledOf(users, r, s == cur || s in victims)
    case EvictHeld(cur, victims) => SettledOf(users, r, s == cur || s in victims)
  }

  predicate SessionInv(st: State, s: Sid, r: Session) {
    && UserLockOf(st.users, s, r.auth)
    && RegistryOf(st.reg, s, r.conn)
    && AuthLockOf(st.panel, s, r.auth, r.authLock)
    && ConnLockOf(st.panel, s, r.closer, r.connLock)
    && HistoryOf(st.users, st.clock, r)
    && ScanOf(st.users, st.panel, s, r)
  }

  ghost predicate Known(table: map<Sid, Session>, victims: seq<Sid>) {
    forall v :: v in victims ==> v in table
  }

  /** The panel only names sessions that exist, and keeps exactly the keys of the map. */
  ghost predicate PanelInv(st: State) {
    match st.panel
    case Ready => true
    case SwapWait(users, keep) => users.Keys == keep
    case SwapHeld(users, keep) => users.Keys == keep
    case RetainWait(keep) => st.users.userMap.Keys == keep
    case Scan(keep, todo, victims) =>
      st.users.userMap.Keys == keep && todo <= st.reg.ids && Known(st.table, victims)
    case ScanWait(keep, todo, victims, cur) =>
      st.users.userMap.Keys == keep && todo <= st.reg.ids && cur in st.reg.ids - todo && Known(st.table, victims)
    case ScanHeld(keep, todo, victims, cur) =>
      st.users.userMap.Keys == keep && todo <= st.reg.ids && cur in st.reg.ids - todo && Known(st.table, victims)
    case Evict(victims) => Known(st.table, victims)
    case EvictWait(cur, victims) => cur in st.table && Known(st.table, victims)
    case EvictHeld(cur, victims) => cur in st.table && Known(st.table, victims)
  }

  ghost predicate SharedInv(st: State) {
    && st.users.writer == (if st.panel.SwapHeld? then Some(Panel) else None)
    && (st.reg.lock == Some(Panel) <==> ScanLocked(st.panel))
    && (st.reg.lock.Some? ==>
          st.reg.lock.value.Panel? || (st.reg.lock.value.Conn? && st.reg.lock.value.s in st.table))
    && st.users.readers <= st.table.Keys && st.reg.ids <= st.table.Keys
    && st.users.swapAt <= st.clock
    && 0 < |st.users.epochs| && st.users.userMap == st.users.epochs[|st.users.epochs| - 1]
  }

  ghost predicate StreamInv(st: State) {
    forall x :: x in st.streams ==>
      x.s in st.table && st.table[x.s].id.authenticated && x.user == st.table[x.s].id.user
  }

  ghost predicate Inv(st: State) {
    && SharedInv(st) && PanelInv(st) && StreamInv(st)
    && forall s :: s in st.table ==> SessionInv(st, s, st.table[s])
  }

  // ---------- preservation, one thread at a time ----------

  /** Every stamp rule survives a tick that changes nothing else. */
  lemma Tick(users: Users, now: nat, r: Session)
    requires HistoryOf(users, now, r)
    ensures HistoryOf(users, now + 1, r)
  {
  }

  /** ScanOf reads a session only through these facts. */
  lemma ScanFrame(users: Users, panel: PanelPc, s: Sid, r: Session, r': Session)
    requires ScanOf(users, panel, s, r)
    requires Condemned(users, r') == Condemned(users, r)
    requires r'.at.scanned == r.at.scanned
    requires Registered(r'.conn) ==> Registered(r.conn) && r'.at.registered == r.at.registered
    requires r.channel.done ==> r'.channel.done
    ensures ScanOf(users, panel, s, r')
  {
  }

  lemma ConnOwnHistory(st: State, s: Sid, r: Session)
    requires HistoryOf(st.users, st.clock, r) && ConnEnabled(st.reg, r.conn)
    ensures HistoryOf(st.users, st.clock + 1, ConnSession(r, st.clock + 1))
  {
    Tick(st.users, st.clock, r);
  }

  lemma ConnOwnScan(st: State, s: Sid, r: Session)
    requires SharedInv(st) && ConnEnabled(st.reg, r.conn)
    requires RegistryOf(st.reg, s, r.conn) && HistoryOf(st.users, st.clock, r) && ScanOf(st.users, st.panel, s, r)
    ensures var r' := ConnSession(r, st.clock + 1);
            RegistryOf(ConnReg(st.reg, s, r.conn), s, r'.conn) && ScanOf(st.users, st.panel, s, r')
  {
    hide LookedUp;
    if !r.conn.AddHeld? {
      ScanFrame(st.users, st.panel, s, r, ConnSession(r, st.clock + 1));
    }
  }

  lemma AuthOwnLocks(st: State, s: Sid, r: Session)
    requires SharedInv(st) && AuthEnabled(st.users, st.panel, r)
    requires UserLockOf(st.users, s, r.auth) && AuthLockOf(st.panel, s, r.auth, r.authLock)
    ensures var r' := AuthSession(st.users, s, r, st.clock + 1);
            && UserLockOf(AuthUsers(st.users, s, r.auth), s, r'.auth)
            && AuthLockOf(st.panel, s, r'.auth, r'.authLock)
  {
  }

  lemma AuthOwnHistory(st: State, s: Sid, r: Session)
    requires SharedInv(st) && HistoryOf(st.users, st.clock, r) && AuthEnabled(st.users, st.panel, r)
    ensures HistoryOf(AuthUsers(st.users, s, r.auth), st.clock + 1, AuthSession(st.users, s, r, st.clock + 1))
  {
    Tick(st.users, st.clock, r);
  }

  lemma AuthOwnScan(st: State, s: Sid, r: Session)
    requires HistoryOf(st.users, st.clock, r) && ScanOf(st.users, st.panel, s, r)
    requires AuthEnabled(st.users, st.panel, r)
    ensures ScanOf(AuthUsers(st.users, s, r.auth), st.panel, s, AuthSession(st.users, s, r, st.clock + 1))
  {
    ScanFrame(st.users, st.panel, s, r, AuthSession(st.users, s, r, st.clock + 1));
  }

  lemma CloserOwn(st: State, s: Sid, r: Session)
    requires SharedInv(st) && SessionInv(st, s, r) && CloserEnabled(r)
    ensures var r' := CloserSession(s, r);
            && ConnLockOf(st.panel, s, r'.closer, r'.connLock)
            && HistoryOf(st.users, st.clock + 1, r')
            && ScanOf(st.users, st.panel, s, r')
  {
    Tick(st.users, st.clock, r);
    ScanFrame(st.users, st.panel, s, r, CloserSession(s, r));
  }

  /** What a panel step does to the locks of any session. */
  lemma PanelLocks(st: State, pick: Sid, s: Sid)
    requires SharedInv(st) && PanelEnabled(st, pick) && s in st.table && SessionInv(st, s, st.table[s])
    ensures var now := st.clock + 1; var r' := PanelTable(st.table, st.panel, now)[s];
            var panel' := PanelNext(st, pick);
            && UserLockOf(PanelUsers(st.users, st.panel, now), s, r'.auth)
            && RegistryOf(PanelReg(st.reg, st.panel), s, r'.conn)
            && AuthLockOf(panel', s, r'.auth, r'.authLock)
            && ConnLockOf(panel', s, r'.closer, r'.connLock)
  {
  }

  lemma PanelHistory(st: State, s: Sid)
    requires SharedInv(st) && PanelInv(st) && s in st.table && SessionInv(st, s, st.table[s])
    ensures var now := st.clock + 1;
            HistoryOf(PanelUsers(st.users, st.panel, now), now, PanelTable(st.table, st.panel, now)[s])
  {
    Tick(st.users, st.clock, st.table[s]);
  }

  lemma PanelScan(st: State, pick: Sid, s: Sid)
    requires SharedInv(st) && PanelInv(st) && PanelEnabled(st, pick)
    requires s in st.table && SessionInv(st, s, st.table[s])
    ensures var now := st.clock + 1;
            ScanOf(PanelUsers(st.users, st.panel, now), PanelNext(st, pick), s,
                   PanelTable(st.table, st.panel, now)[s])
  {
  }

  /** The sessions a step of `s` does not belong to. */
  lemma OtherSessions(st: State, s: Sid, x: Sid)
    requires SharedInv(st) && s in st.table && x in st.table && s != x
    requires SessionInv(st, s, st.table[s]) && SessionInv(st, x, st.table[x])
    ensures HistoryOf(st.users, st.clock + 1, st.table[x])
    ensures ConnEnabled(st.reg, st.table[s].conn) ==>
              RegistryOf(ConnReg(st.reg, s, st.table[s].conn), x, st.table[x].conn)
    ensures AuthEnabled(st.users, st.panel, st.table[s]) ==>
              && UserLockOf(AuthUsers(st.users, s, st.table[s].auth), x, st.table[x].auth)
              && HistoryOf(AuthUsers(st.users, s, st.table[s].auth), st.clock + 1, st.table[x])
              && ScanOf(AuthUsers(st.users, s, st.table[s].auth), st.panel, x, st.table[x])
  {
    Tick(st.users, st.clock, st.table[x]);
  }

  lemma ConnShared(st: State, s: Sid)
    requires SharedInv(st) && PanelInv(st) && StreamInv(st) && Enabled(st, ConnStep(s))
    requires SessionInv(st, s, st.table[s])
    ensures var st' := Apply(st, ConnStep(s)); SharedInv(st') && PanelInv(st') && StreamInv(st')
  {
  }

  lemma AuthShared(st: State, s: Sid)
    requires SharedInv(st) && PanelInv(st) && StreamInv(st) && Enabled(st, AuthStep(s))
    requires SessionInv(st, s, st.table[s])
    ensures var st' := Apply(st, AuthStep(s)); SharedInv(st') && PanelInv(st') && StreamInv(st')
  {
  }

  lemma CloserShared(st: State, s: Sid)
    requires SharedInv(st) && PanelInv(st) && StreamInv(st) && Enabled(st, CloserStep(s))
    ensures var st' := Apply(st, CloserStep(s)); SharedInv(st') && PanelInv(st') && StreamInv(st')
  {
  }

  lemma PanelShared(st: State, pick: Sid)
    requires SharedInv(st) && PanelInv(st) && StreamInv(st) && Enabled(st, PanelStep(pick))
    ensures var st' := Apply(st, PanelStep(pick)); SharedInv(st') && PanelInv(st') && StreamInv(st')
  {
  }

  lemma EnvironmentShared(st: State, step: Step)
    requires step.Accept? || step.Request? || step.CloseCall? || step.OpenStream?
    requires SharedInv(st) && PanelInv(st) && StreamInv(st) && Enabled(st, step)
    ensures var st' := Apply(st, step); SharedInv(st') && PanelInv(st') && StreamInv(st')
  {
  }

  /** A session fact after a step of one session's own threads. */
  lemma OwnStepSession(st: State, s: Sid, step: Step, x: Sid)
    requires step == ConnStep(s) || step == AuthStep(s) || step == CloserStep(s)
    requires Inv(st) && Enabled(st, step) && x in Apply(st, step).table
    ensures SessionInv(Apply(st, step), x, Apply(st, step).table[x])
  {
    hide UserLockOf, RegistryOf, AuthLockOf, ConnLockOf, HistoryOf, ScanOf, SharedInv, PanelInv, StreamInv;
    assert SessionInv(st, s, st.table[s]) && SessionInv(st, x, st.table[x]);
    var r := st.table[s];
    if x != s {
      OtherSessions(st, s, x);
    } else if step.ConnStep? {
      var r' := ConnSession(r, st.clock + 1);
      assert r'.auth == r.auth && r'.closer == r.closer && r'.authLock == r.authLock && r'.connLock == r.connLock;
      ConnOwnHistory(st, s, r);
      ConnOwnScan(st, s, r);
    } else if step.AuthStep? {
      var r' := AuthSession(st.users, s, r, st.clock + 1);
      assert r'.conn == r.conn && r'.closer == r.closer && r'.connLock == r.connLock;
      AuthOwnLocks(st, s, r);
      AuthOwnHistory(st, s, r);
      AuthOwnScan(st, s, r);
    } else {
      CloserOwn(st, s, r);
    }
  }

  lemma PanelStepSession(st: State, pick: Sid, x: Sid)
    requires Inv(st) && Enabled(st, PanelStep(pick)) && x in Apply(st, PanelStep(pick)).table
    ensures SessionInv(Apply(st, PanelStep(pick)), x, Apply(st, PanelStep(pick)).table[x])
  {
    hide UserLockOf, RegistryOf, AuthLockOf, ConnLockOf, HistoryOf, ScanOf, SharedInv, PanelInv, StreamInv;
    assert SessionInv(st, x, st.table[x]);
    PanelLocks(st, pick, x);
    PanelHistory(st, x);
    PanelScan(st, pick, x);
  }

  lemma EnvironmentOld(st: State, step: Step, x: Sid)
    requires step.Accept? || step.Request? || step.CloseCall? || step.OpenStream?
    requires Enabled(st, step) && x in st.table && SessionInv(st, x, st.table[x])
    ensures SessionInv(Apply(st, step), x, Apply(st, step).table[x])
  {
    hide ScanOf, LookedUp, RegistryOf;
    Tick(st.users, st.clock, st.table[x]);
    ScanFrame(st.users, st.panel, x, st.table[x], Apply(st, step).table[x]);
  }

  lemma EnvironmentNew(st: State, s: Sid)
    requires SharedInv(st) && PanelInv(st) && Enabled(st, Accept(s))
    ensures SessionInv(Apply(st, Accept(s)), s, NewSession())
  {
  }

  lemma EnvironmentSession(st: State, step: Step, x: Sid)
    requires step.Accept? || step.Request? || step.CloseCall? || step.OpenStream?
    requires Inv(st) && Enabled(st, step) && x in Apply(st, step).table
    ensures SessionInv(Apply(st, step), x, Apply(st, step).table[x])
  {
    hide SharedInv, PanelInv, StreamInv;
    if x in st.table {
      EnvironmentOld(st, step, x);
    } else {
      EnvironmentNew(st, x);
    }
  }

  lemma UpdateInv(st: State, names: seq<string>, passwords: seq<string>)
    requires Inv(st) && Enabled(st, Update(names, passwords))
    ensures Inv(Apply(st, Update(names, passwords)))
  {
    var st' := Apply(st, Update(names, passwords));
    forall pw ensures pw in Hy2Service.BuildUsers(names, passwords) <==> pw in passwords {
      Hy2Service.LastListingWins(names, passwords, pw);
      assert passwords[..|names|] == passwords;
    }
    forall x | x in st'.table ensures SessionInv(st', x, st'.table[x]) {
      Tick(st.users, st.clock, st.table[x]);
    }
  }

  lemma SharedStep(st: State, step: Step)
    requires Inv(st) && Enabled(st, step) && !step.Update?
    ensures var st' := Apply(st, step); SharedInv(st') && PanelInv(st') && StreamInv(st')
  {
    hide SharedInv, PanelInv, StreamInv, SessionInv;
    match step
    case ConnStep(s) => assert SessionInv(st, s, st.table[s]); ConnShared(st, s);
    case AuthStep(s) => assert SessionInv(st, s, st.table[s]); AuthShared(st, s);
    case CloserStep(s) => CloserShared(st, s);
    case PanelStep(pick) => PanelShared(st, pick);
    case _ => EnvironmentShared(st, step);
  }

  lemma InvIntro(st: State)
    requires SharedInv(st) && PanelInv(st) && StreamInv(st)
    requires forall s :: s in st.table ==> SessionInv(st, s, st.table[s])
    ensures Inv(st)
  {
  }

  /** Every step of every thread keeps the invariant. */
  lemma InvStep(st: State, step: Step)
    requires Inv(st) && Enabled(st, step)
    ensures Inv(Apply(st, step))
  {
    if step.Update? {
      UpdateInv(st, step.names, step.passwords);
    } else {
      hide *;
      SharedStep(st, step);
      forall x | x in Apply(st, step).table ensures SessionInv(Apply(st, step), x, Apply(st, step).table[x]) {
        match step
        case ConnStep(s) => OwnStepSession(st, s, step, x);
        case AuthStep(s) => OwnStepSession(st, s, step, x);
        case CloserStep(s) => OwnStepSession(st, s, step, x);
        case PanelStep(pick) => PanelStepSession(st, pick, x);
        case _ => EnvironmentSession(st, step, x);
      }
      InvIntro(Apply(st, step));
    }
  }

  lemma InvInit(users: UserMap)
    ensures Inv(Init(users))
  {
  }

  /** Every state of every run satisfies the invariant. */
  lemma {:induction false} InvRun(st: State, steps: seq<Step>)
    requires Inv(st) && ValidRun(st, steps)
    ensures Inv(Exec(st, steps))
    decreases |steps|
  {
    if steps != [] {
      InvStep(st, steps[0]);
      InvRun(Apply(st, steps[0]), steps[1..]);
    }
  }
}
