/** The live user set of a Hysteria2 inbound as an interleaving machine
(forks/patched-files/sing-quic/hysteria2/service.go).

Goroutines: one panel thread (UpdateUsers then RetainUsers), and for every QUIC
connection a connection thread (handleConnection), an authentication handler (ServeHTTP)
and a closer (any caller of closeWithError other than the panel). The four locks are
explicit; a thread takes a lock in one step and does the guarded work and unlocks in later
ones. The three field writes of a commit are separate steps, because dispatchStream reads
`authenticated` without the lock.

Every step advances `clock`. The stamps (`Stamps`, `swapAt`), `epochs`, `closes` and
`streams` are history: no step is guarded by them. */
module Hy2Protocol {
  import opened Model
  import Hy2Service

  type Sid = nat
  type UserMap = map<string, string>

  datatype Role = Panel | Conn(s: Sid) | Auth(s: Sid) | Closer(s: Sid)

  datatype ConnPc = AddWait | AddHeld | Serving | EndWait | EndHeld | Gone

  datatype AuthPc =
    | Quiet
    | LookWait(pw: string)
    | LookHeld(pw: string)
    | CommitWait(pw: string, user: string)
    | CommitHeld(pw: string, user: string, writes: nat)

  datatype CloserPc = Resting | CloserWait | CloserHeld

  datatype PanelPc =
    | Ready
    | SwapWait(users: UserMap, keep: set<string>)
    | SwapHeld(users: UserMap, keep: set<string>)
    | RetainWait(keep: set<string>)
    | Scan(keep: set<string>, todo: set<Sid>, victims: seq<Sid>)
    | ScanWait(keep: set<string>, todo: set<Sid>, victims: seq<Sid>, cur: Sid)
    | ScanHeld(keep: set<string>, todo: set<Sid>, victims: seq<Sid>, cur: Sid)
    | Evict(victims: seq<Sid>)
    | EvictWait(cur: Sid, victims: seq<Sid>)
    | EvictHeld(cur: Sid, victims: seq<Sid>)

  /** userMap and its read-write lock; `epochs` lists every map installed so far. */
  datatype Users = Users(userMap: UserMap, writer: Option<Role>, readers: set<Sid>,
                         epochs: seq<UserMap>, swapAt: nat)

  /** The session registry and its lock. */
  datatype Registry = Registry(ids: set<Sid>, lock: Option<Role>)

  datatype Identity = Identity(authenticated: bool, user: string, password: string)

  datatype Channel = Channel(done: bool, closes: nat)

  datatype Stamps = Stamps(registered: nat, lookup: nat, epoch: nat, commit: nat, scanned: nat)

  datatype Session = Session(
    conn: ConnPc, auth: AuthPc, closer: CloserPc,
    authLock: Option<Role>, connLock: Option<Role>,
    id: Identity, channel: Channel, at: Stamps)

  /** A stream handed to the router, with the user name it is accounted under. */
  datatype Stream = Stream(s: Sid, user: string)

  datatype State = State(users: Users, reg: Registry, table: map<Sid, Session>, panel: PanelPc,
                         clock: nat, streams: seq<Stream>)

  datatype Step =
    | Accept(s: Sid)
    | ConnStep(s: Sid)
    | Request(s: Sid, pw: string)
    | AuthStep(s: Sid)
    | CloseCall(s: Sid)
    | CloserStep(s: Sid)
    | OpenStream(s: Sid)
    | Update(names: seq<string>, passwords: seq<string>)
    | PanelStep(pick: Sid)

  /** NewInbound installs the first map before the listener starts. */
  function Init(users: UserMap): State {
    State(Users(users, None, {}, [users], 0), Registry({}, None), map[], Ready, 0, [])
  }

  function NewSession(): Session {
    Session(AddWait, Quiet, Resting, None, None,
            Identity(false, "", ""), Channel(false, 0), Stamps(0, 0, 0, 0, 0))
  }

  // ---------- connection thread: addSession, serve, removeSession ----------

  predicate ConnEnabled(reg: Registry, pc: ConnPc) {
    match pc
    case AddWait | EndWait => reg.lock.None?
    case AddHeld | Serving | EndHeld => true
    case Gone => false
  }

  function ConnReg(reg: Registry, s: Sid, pc: ConnPc): Registry {
    match pc
    case AddWait | EndWait => reg.(lock := Some(Conn(s)))
    case AddHeld => Registry(reg.ids + {s}, None)
    case EndHeld => Registry(reg.ids - {s}, None)
    case Serving | Gone => reg
  }

  function ConnSession(r: Session, now: nat): Session {
    match r.conn
    case AddWait => r.(conn := AddHeld)
    case AddHeld => r.(conn := Serving, at := r.at.(registered := now))
    case Serving => r.(conn := EndWait)
    case EndWait => r.(conn := EndHeld)
    case EndHeld => r.(conn := Gone)
    case Gone => r
  }

  // ---------- authentication handler: lookup under RLock, commit under authAccess ----------

  /** A waiting writer keeps new readers out (sync.RWMutex). */
  predicate AuthEnabled(users: Users, panel: PanelPc, r: Session) {
    match r.auth
    case Quiet => false
    case LookWait(_) => users.writer.None? && !panel.SwapWait?
    case LookHeld(_) => true
    case CommitWait(_, _) => r.authLock.None?
    case CommitHeld(_, _, _) => true
  }

  function AuthUsers(users: Users, s: Sid, pc: AuthPc): Users {
    match pc
    case LookWait(_) => users.(readers := users.readers + {s})
    case LookHeld(_) => users.(readers := users.readers - {s})
    case _ => users
  }

  function AuthSession(users: Users, s: Sid, r: Session, now: nat): Session {
    match r.auth
    case Quiet => r
    case LookWait(pw) => r.(auth := LookHeld(pw))
    case LookHeld(pw) =>
      if pw in users.userMap then
        r.(auth := CommitWait(pw, users.userMap[pw]), at := r.at.(lookup := now, epoch := |users.epochs|))
      else
        r.(auth := Quiet)
    case CommitWait(pw, user) => r.(auth := CommitHeld(pw, user, 0), authLock := Some(Auth(s)))
    case CommitHeld(pw, user, writes) =>
      if writes == 0 then r.(auth := CommitHeld(pw, user, 1), id := r.id.(user := user))
      else if writes == 1 then r.(auth := CommitHeld(pw, user, 2), id := r.id.(password := pw))
      else if writes == 2 then
        r.(auth := CommitHeld(pw, user, 3), id := r.id.(authenticated := true), at := r.at.(commit := now))
      else r.(auth := Quiet, authLock := None)
  }

  // ---------- closeWithError ----------

  /** The channel is closed only when it is still open. */
  function Close(c: Channel): Channel {
    if c.done then c else Channel(true, c.closes + 1)
  }

  predicate CloserEnabled(r: Session) {
    match r.closer
    case Resting => false
    case CloserWait => r.connLock.None?
    case CloserHeld => true
  }

  function CloserSession(s: Sid, r: Session): Session {
    match r.closer
    case Resting => r
    case CloserWait => r.(closer := CloserHeld, connLock := Some(Closer(s)))
    case CloserHeld => r.(closer := Resting, connLock := None, channel := Close(r.channel))
  }

  // ---------- panel: UpdateUsers, then RetainUsers ----------

  /** The session whose lock the panel is taking or holding. */
  function Target(panel: PanelPc): Option<Sid> {
    match panel
    case ScanWait(_, _, _, cur) => Some(cur)
    case ScanHeld(_, _, _, cur) => Some(cur)
    case EvictWait(cur, _) => Some(cur)
    case EvictHeld(cur, _) => Some(cur)
    case _ => None
  }

  predicate PanelEnabled(st: State, pick: Sid) {
    match st.panel
    case Ready => false
    case SwapWait(_, _) => st.users.writer.None? && st.users.readers == {}
    case SwapHeld(_, _) => true
    case RetainWait(_) => st.reg.lock.None?
    case Scan(_, todo, _) => todo == {} || pick in todo
    case ScanWait(_, _, _, cur) => cur in st.table && st.table[cur].authLock.None?
    case ScanHeld(_, _, _, cur) => cur in st.table
    case Evict(_) => true
    case EvictWait(cur, _) => cur in st.table && st.table[cur].connLock.None?
    case EvictHeld(cur, _) => cur in st.table
  }

  function PanelUsers(users: Users, panel: PanelPc, now: nat): Users {
    match panel
    case SwapWait(_, _) => users.(writer := Some(Panel))
    case SwapHeld(incoming, _) =>
      users.(userMap := incoming, writer := None, epochs := users.epochs + [incoming], swapAt := now)
    case _ => users
  }

  function PanelReg(reg: Registry, panel: PanelPc): Registry {
    match panel
    case RetainWait(_) => reg.(lock := Some(Panel))
    case Scan(_, todo, _) => if todo == {} then reg.(lock := None) else reg
    case _ => reg
  }

  /** What the panel's step does to the session it is working on. */
  function PanelSession(panel: PanelPc, r: Session, now: nat): Session {
    match panel
    case ScanWait(_, _, _, _) => r.(authLock := Some(Panel))
    case ScanHeld(_, _, _, _) => r.(authLock := None, at := r.at.(scanned := now))
    case EvictWait(_, _) => r.(connLock := Some(Panel))
    case EvictHeld(_, _) => r.(connLock := None, channel := Close(r.channel))
    case _ => r
  }

  function PanelTable(table: map<Sid, Session>, panel: PanelPc, now: nat): map<Sid, Session> {
    match Target(panel)
    case None => table
    case Some(cur) => if cur in table then table[cur := PanelSession(panel, table[cur], now)] else table
  }

  function PanelNext(st: State, pick: Sid): PanelPc
    requires PanelEnabled(st, pick)
  {
    match st.panel
    case Ready => Ready
    case SwapWait(incoming, keep) => SwapHeld(incoming, keep)
    case SwapHeld(_, keep) => RetainWait(keep)
    case RetainWait(keep) => Scan(keep, st.reg.ids, [])
    case Scan(keep, todo, victims) =>
      if todo == {} then Evict(victims) else ScanWait(keep, todo - {pick}, victims, pick)
    case ScanWait(keep, todo, victims, cur) => ScanHeld(keep, todo, victims, cur)
    case ScanHeld(keep, todo, victims, cur) =>
      var id := st.table[cur].id;
      Scan(keep, todo, if id.authenticated && id.password !in keep then victims + [cur] else victims)
    case Evict(victims) => if victims == [] then Ready else EvictWait(victims[0], victims[1..])
    case EvictWait(cur, victims) => EvictHeld(cur, victims)
    case EvictHeld(_, victims) => Evict(victims)
  }

  // ---------- the machine ----------

  predicate Enabled(st: State, step: Step) {
    match step
    case Accept(s) => s !in st.table
    case ConnStep(s) => s in st.table && ConnEnabled(st.reg, st.table[s].conn)
    case Request(s, _) =>
      s in st.table && st.table[s].auth.Quiet? && st.table[s].conn.Serving? && !st.table[s].id.authenticated
    case AuthStep(s) => s in st.table && AuthEnabled(st.users, st.panel, st.table[s])
    case CloseCall(s) => s in st.table && st.table[s].closer.Resting?
    case CloserStep(s) => s in st.table && CloserEnabled(st.table[s])
    case OpenStream(s) => s in st.table && st.table[s].conn.Serving? && st.table[s].id.authenticated
    case Update(names, passwords) => st.panel.Ready? && |names| == |passwords|
    case PanelStep(pick) => PanelEnabled(st, pick)
  }

  /** One step; stamps use the clock after the tick, so a stamp of 0 means never. */
  function Apply(st: State, step: Step): State
    requires Enabled(st, step)
  {
    var now := st.clock + 1;
    match step
    case Accept(s) => st.(clock := now, table := st.table[s := NewSession()])
    case ConnStep(s) =>
      st.(clock := now, reg := ConnReg(st.reg, s, st.table[s].conn),
          table := st.table[s := ConnSession(st.table[s], now)])
    case Request(s, pw) => st.(clock := now, table := st.table[s := st.table[s].(auth := LookWait(pw))])
    case AuthStep(s) =>
      st.(clock := now, users := AuthUsers(st.users, s, st.table[s].auth),
          table := st.table[s := AuthSession(st.users, s, st.table[s], now)])
    case CloseCall(s) => st.(clock := now, table := st.table[s := st.table[s].(closer := CloserWait)])
    case CloserStep(s) => st.(clock := now, table := st.table[s := CloserSession(s, st.table[s])])
    case OpenStream(s) => st.(clock := now, streams := st.streams + [Stream(s, st.table[s].id.user)])
    case Update(names, passwords) =>
      st.(clock := now,
          panel := SwapWait(Hy2Service.BuildUsers(names, passwords), set p | p in passwords))
    case PanelStep(pick) =>
      State(PanelUsers(st.users, st.panel, now), PanelReg(st.reg, st.panel),
            PanelTable(st.table, st.panel, now), PanelNext(st, pick), now, st.streams)
  }

  predicate ValidRun(st: State, steps: seq<Step>)
    decreases |steps|
  {
    steps == [] || (Enabled(st, steps[0]) && ValidRun(Apply(st, steps[0]), steps[1..]))
  }

  /** The state a run ends in. */
  function Exec(st: State, steps: seq<Step>): State
    requires ValidRun(st, steps)
    decreases |steps|
  {
    if steps == [] then st else Exec(Apply(st, steps[0]), steps[1..])
  }
}
