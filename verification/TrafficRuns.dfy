/** Traffic conservation: connections counting bytes, the stats job draining counters one atomic
swap at a time, its transaction committing or failing, periodic resets, bans and core stops, in
any interleaving (core/tracker_stats.go, service/stats.go, service/client.go).

`sent`, `lost`, `stray` and `retired` are history: no step is guarded by them. */
module TrafficRuns {
  import opened Model
  import opened Traffic
  import LifecycleRuns
  import Lifecycle

  /** A counter's two atomics. */
  datatype Cell = Cell(up: nat, down: nat)

  function Part(c: Cell, upload: bool): nat {
    if upload then c.up else c.down
  }

  datatype Conn = Conn(user: string, cell: nat)

  /** Where the stats job is; it holds the tracker lock in `Draining` and `Half`. */
  datatype Drain =
    | Idle
    | Draining(todo: set<string>, rows: seq<Stat>)
    | Half(todo: set<string>, user: string, down: nat, rows: seq<Stat>)
    | Collected(rows: seq<Stat>)

  datatype State = State(
    cells: map<nat, Cell>, users: map<string, nat>, conns: map<nat, Conn>, next: nat,
    drain: Drain, table: seq<Client>,
    sent: seq<Stat>, lost: seq<Stat>, stray: seq<Stat>, retired: seq<map<string, Cell>>)

  datatype Step =
    | Open(conn: nat, user: string)
    | Count(conn: nat, upload: bool, bytes: nat)
    | BeginDrain
    | SwapDown(user: string)
    | SwapUp
    | EndDrain
    | Save(commits: bool)
    | Tick(dt: int)
    | Ban(clientId: nat, banned: bool, now: int)
    | StopCore

  function Init(table: seq<Client>): State {
    State(map[], map[], map[], 0, Idle, table, [], [], [], [])
  }

  predicate Locked(st: State) {
    st.drain.Draining? || st.drain.Half?
  }

  predicate Enabled(st: State, step: Step) {
    match step
    case Open(conn, user) => conn !in st.conns && !Locked(st)
    case Count(conn, _, _) => conn in st.conns && st.conns[conn].cell in st.cells
    case BeginDrain => st.drain.Idle?
    case SwapDown(user) => st.drain.Draining? && user in st.drain.todo && Live(st, user)
    case SwapUp => st.drain.Half? && Live(st, st.drain.user)
    case EndDrain => st.drain.Draining? && st.drain.todo == {}
    case Save(_) => st.drain.Collected?
    case Tick(_) => true
    case Ban(_, _, _) => true
    case StopCore => !Locked(st) && forall u :: u in st.users ==> Live(st, u)
  }

  predicate Live(st: State, user: string) {
    user in st.users && st.users[user] in st.cells
  }

  function Bump(c: Cell, upload: bool, bytes: nat): Cell {
    if upload then Cell(c.up + bytes, c.down) else Cell(c.up, c.down + bytes)
  }

  function Apply(st: State, step: Step): State
    requires Enabled(st, step)
  {
    match step
    case Open(conn, user) =>
      if user in st.users then st.(conns := st.conns[conn := Conn(user, st.users[user])])
      else st.(conns := st.conns[conn := Conn(user, st.next)], users := st.users[user := st.next],
               cells := st.cells[st.next := Cell(0, 0)], next := st.next + 1)
    case Count(conn, upload, bytes) =>
      var c := st.conns[conn];
      var live := c.user in st.users && st.users[c.user] == c.cell;
      var entry := [Stat(User, c.user, upload, bytes)];
      st.(cells := st.cells[c.cell := Bump(st.cells[c.cell], upload, bytes)],
          sent := st.sent + entry, stray := if live then st.stray else st.stray + entry)
    case BeginDrain => st.(drain := Draining(st.users.Keys, []))
    case SwapDown(user) =>
      var id := st.users[user];
      st.(drain := Half(st.drain.todo - {user}, user, st.cells[id].down, st.drain.rows),
          cells := st.cells[id := Cell(st.cells[id].up, 0)])
    case SwapUp =>
      var d := st.drain;
      var id := st.users[d.user];
      st.(drain := Draining(d.todo, d.rows + Report(User, d.user, st.cells[id].up, d.down)),
          cells := st.cells[id := Cell(0, st.cells[id].down)])
    case EndDrain => st.(drain := Collected(st.drain.rows))
    case Save(commits) =>
      if commits then st.(drain := Idle, table := CreditAll(st.table, st.drain.rows))
      else st.(drain := Idle, lost := st.lost + st.drain.rows)
    case Tick(dt) => st.(table := LifecycleRuns.TableStep(st.table, LifecycleRuns.Tick(dt)))
    case Ban(id, banned, now) => st.(table := LifecycleRuns.TableStep(st.table, LifecycleRuns.Ban(id, banned, now)))
    case StopCore =>
      st.(users := map[], retired := st.retired + [map u | u in st.users :: st.cells[st.users[u]]])
  }

  predicate ValidRun(st: State, steps: seq<Step>)
    decreases |steps|
  {
    steps == [] || (Enabled(st, steps[0]) && ValidRun(Apply(st, steps[0]), steps[1..]))
  }

  function Exec(st: State, steps: seq<Step>): State
    requires ValidRun(st, steps)
    decreases |steps|
  {
    if steps == [] then st else Exec(Apply(st, steps[0]), steps[1..])
  }

  // ---------- where a user's bytes can be ----------

  /** In the counter the tracker would drain. */
  function Undrained(st: State, user: string, upload: bool): nat {
    if Live(st, user) then Part(st.cells[st.users[user]], upload) else 0
  }

  /** Drained, not yet saved. */
  function Pending(d: Drain, user: string, upload: bool): nat {
    match d
    case Idle => 0
    case Draining(_, rows) => Reading(rows, User, user, upload)
    case Half(_, u, down, rows) =>
      Reading(rows, User, user, upload) + if u == user && !upload then down else 0
    case Collected(rows) => Reading(rows, User, user, upload)
  }

  /** In counters that a core stop threw away. */
  function Retired(maps: seq<map<string, Cell>>, user: string, upload: bool): nat {
    if maps == [] then 0
    else
      var m := maps[|maps| - 1];
      Retired(maps[..|maps| - 1], user, upload) + if user in m then Part(m[user], upload) else 0
  }

  /** Every byte sent is in exactly one place. */
  predicate Balanced(st: State, k: nat, upload: bool, base: int)
    requires k < |st.table|
  {
    var u := st.table[k].name;
    base + Reading(st.sent, User, u, upload)
    == Credited(st.table[k], upload) + Undrained(st, u, upload) + Pending(st.drain, u, upload)
       + Reading(st.lost, User, u, upload) + Reading(st.stray, User, u, upload) + Retired(st.retired, u, upload)
  }

  // ---------- invariants ----------

  ghost predicate Wired(st: State) {
    && (forall id :: id in st.cells ==> id < st.next)
    && (forall u :: u in st.users ==> st.users[u] in st.cells)
    && (forall u, v :: u in st.users && v in st.users && u != v ==> st.users[u] != st.users[v])
    && (forall c :: c in st.conns ==> st.conns[c].cell in st.cells)
    && (forall c, u :: c in st.conns && u in st.users && st.users[u] == st.conns[c].cell ==> u == st.conns[c].user)
    && (st.drain.Draining? ==> st.drain.todo <= st.users.Keys)
    && (st.drain.Half? ==> st.drain.todo <= st.users.Keys && st.drain.user in st.users)
  }

  lemma WiredStep(st: State, step: Step)
    requires Wired(st) && Enabled(st, step)
    ensures Wired(Apply(st, step))
  {
    hide LifecycleRuns.TableStep, CreditAll, Report, Bump;
    if step.Open? {
      WiredOpen(st, step);
    } else if step.Count? || step.SwapDown? || step.SwapUp? {
      assert Apply(st, step).cells.Keys == st.cells.Keys;
    }
  }

  lemma WiredOpen(st: State, step: Step)
    requires step.Open? && Wired(st) && Enabled(st, step)
    ensures Wired(Apply(st, step))
  {
  }

  /** A counted byte moves the sent log and one counter together. */
  lemma CountBalanced(st: State, step: Step, k: nat, upload: bool, base: int)
    requires step.Count?
    requires Wired(st) && Enabled(st, step) && k < |st.table| && Balanced(st, k, upload, base)
    ensures |Apply(st, step).table| == |st.table| && Apply(st, step).table[k].name == st.table[k].name
    ensures Balanced(Apply(st, step), k, upload, base)
  {
    hide Reading, Report, CreditAll, Retired, Credited, Pending;
    var u := st.table[k].name;
    var entry := [Stat(User, st.conns[step.conn].user, step.upload, step.bytes)];
    ReadingAppend(st.sent, entry, User, u, upload);
    ReadingAppend(st.stray, entry, User, u, upload);
    ReadingOne(entry[0], u, upload);
  }

  /** The stats job's own steps move bytes from counters to readings, and only there. */
  lemma DrainBalanced(st: State, step: Step, k: nat, upload: bool, base: int)
    requires step.BeginDrain? || step.SwapDown? || step.SwapUp? || step.EndDrain?
    requires Wired(st) && Enabled(st, step) && k < |st.table| && Balanced(st, k, upload, base)
    ensures |Apply(st, step).table| == |st.table| && Apply(st, step).table[k].name == st.table[k].name
    ensures Balanced(Apply(st, step), k, upload, base)
  {
    hide Reading, Report, CreditAll, Retired, Credited;
    var u := st.table[k].name;
    if step.BeginDrain? {
      NoReading(u, upload);
    } else if step.SwapUp? {
      var d := st.drain;
      ReadingMore(d.rows, User, d.user, st.cells[st.users[d.user]].up, d.down, User, u, upload);
    }
  }

  /** Transactions move readings to columns, columns to totals, or readings to the lost log. */
  lemma TableBalanced(st: State, step: Step, k: nat, upload: bool, base: int)
    requires step.Save? || step.Tick? || step.Ban?
    requires Wired(st) && Enabled(st, step) && k < |st.table| && Balanced(st, k, upload, base)
    ensures |Apply(st, step).table| == |st.table| && Apply(st, step).table[k].name == st.table[k].name
    ensures Balanced(Apply(st, step), k, upload, base)
  {
    var u := st.table[k].name;
    hide Reading, Report, CreditAll, Retired, Credited, LifecycleRuns.RowStep;
    match step
    case Save(_) =>
      SavedRow(st.table, st.drain.rows, k, upload);
      ReadingAppend(st.lost, st.drain.rows, User, u, upload);
    case Tick(dt) => RowKeepsTraffic(st.table[k], LifecycleRuns.Tick(dt), upload);
    case Ban(id, banned, now) => RowKeepsTraffic(st.table[k], LifecycleRuns.Ban(id, banned, now), upload);
  }

  lemma SavedRow(t: seq<Client>, rows: seq<Stat>, k: nat, upload: bool)
    requires k < |t|
    ensures CreditAll(t, rows)[k].name == t[k].name
    ensures Credited(CreditAll(t, rows)[k], upload) == Credited(t[k], upload) + Reading(rows, User, t[k].name, upload)
  {
    CreditAllRows(t, rows, k);
  }

  /** Resets, depletion, bans and unbans only move bytes between the columns of a row. */
  lemma RowKeepsTraffic(c: Client, op: LifecycleRuns.Op, upload: bool)
    requires !op.Credit?
    ensures LifecycleRuns.RowStep(c, op).name == c.name
    ensures Credited(LifecycleRuns.RowStep(c, op), upload) == Credited(c, upload)
  {
    match op
    case Tick(dt) =>
      var r := Lifecycle.ResetRow(c, dt);
      assert r.name == c.name && Credited(r, upload) == Credited(c, upload);
      hide Lifecycle.ResetRow;
      assert LifecycleRuns.RowStep(c, op) == Lifecycle.DepleteRow(r, dt);
    case Ban(_, banned, now) =>
      hide Lifecycle.OverLimit;
      var b := Lifecycle.BanRow(c, banned, now);
      assert b.name == c.name && Credited(b, upload) == Credited(c, upload);
  }

  lemma CoreBalanced(st: State, step: Step, k: nat, upload: bool, base: int)
    requires step.Open? || step.StopCore?
    requires Wired(st) && Enabled(st, step) && k < |st.table| && Balanced(st, k, upload, base)
    ensures |Apply(st, step).table| == |st.table| && Apply(st, step).table[k].name == st.table[k].name
    ensures Balanced(Apply(st, step), k, upload, base)
  {
    hide Reading, Report, CreditAll, Credited, Pending;
    if step.StopCore? {
      var m := map x | x in st.users :: st.cells[st.users[x]];
      assert (st.retired + [m])[..|st.retired|] == st.retired;
    }
  }

  lemma BalancedStep(st: State, step: Step, k: nat, upload: bool, base: int)
    requires Wired(st) && Enabled(st, step) && k < |st.table| && Balanced(st, k, upload, base)
    ensures |Apply(st, step).table| == |st.table| && Apply(st, step).table[k].name == st.table[k].name
    ensures Balanced(Apply(st, step), k, upload, base)
  {
    hide *;
    match step
    case Open(_, _) => CoreBalanced(st, step, k, upload, base);
    case StopCore => CoreBalanced(st, step, k, upload, base);
    case Count(_, _, _) => CountBalanced(st, step, k, upload, base);
    case BeginDrain => DrainBalanced(st, step, k, upload, base);
    case SwapDown(_) => DrainBalanced(st, step, k, upload, base);
    case SwapUp => DrainBalanced(st, step, k, upload, base);
    case EndDrain => DrainBalanced(st, step, k, upload, base);
    case Save(_) => TableBalanced(st, step, k, upload, base);
    case Tick(_) => TableBalanced(st, step, k, upload, base);
    case Ban(_, _, _) => TableBalanced(st, step, k, upload, base);
  }

  lemma ReadingOne(s: Stat, user: string, upload: bool)
    ensures Reading([s], User, user, upload)
            == if s.resource == User && s.tag == user && s.upload == upload then s.traffic else 0
  {
    assert [s][..|[s]| - 1] == [];
  }

  lemma NoReading(user: string, upload: bool)
    ensures Reading([], User, user, upload) == 0
  {
  }

  lemma {:induction false} BalancedRun(st: State, steps: seq<Step>, k: nat, upload: bool, base: int)
    requires Wired(st) && ValidRun(st, steps) && k < |st.table| && Balanced(st, k, upload, base)
    ensures var end := Exec(st, steps);
            |end.table| == |st.table| && end.table[k].name == st.table[k].name && Balanced(end, k, upload, base)
    decreases |steps|
  {
    if steps != [] {
      WiredStep(st, steps[0]);
      BalancedStep(st, steps[0], k, upload, base);
      BalancedRun(Apply(st, steps[0]), steps[1..], k, upload, base);
    }
  }

  /** In every run, for every client row and direction: what the row held at the start plus every
      byte sent under its name is what it holds now, plus what is still in its counter or in a
      pending drain, plus what failed transactions and core stops lost. */
  lemma Conservation(table: seq<Client>, steps: seq<Step>, k: nat, upload: bool)
    requires ValidRun(Init(table), steps) && k < |table|
    ensures var st := Exec(Init(table), steps); var u := table[k].name;
            && |st.table| == |table| && st.table[k].name == u
            && Credited(table[k], upload) + Reading(st.sent, User, u, upload)
               == Credited(st.table[k], upload) + Undrained(st, u, upload) + Pending(st.drain, u, upload)
                  + Reading(st.lost, User, u, upload) + Reading(st.stray, User, u, upload)
                  + Retired(st.retired, u, upload)
  {
    BalancedRun(Init(table), steps, k, upload, Credited(table[k], upload));
  }

  // ---------- without failures ----------

  predicate Failure(step: Step) {
    step.StopCore? || step == Save(false)
  }

  lemma {:induction false} NothingLost(st: State, steps: seq<Step>)
    requires Wired(st) && ValidRun(st, steps)
    requires forall s :: s in steps ==> !Failure(s)
    requires st.lost == [] && st.stray == [] && st.retired == []
    requires forall c :: c in st.conns ==>
               st.conns[c].user in st.users && st.users[st.conns[c].user] == st.conns[c].cell
    ensures var end := Exec(st, steps); end.lost == [] && end.stray == [] && end.retired == []
    decreases |steps|
  {
    if steps != [] {
      assert steps[0] in steps;
      WiredStep(st, steps[0]);
      NothingLost(Apply(st, steps[0]), steps[1..]);
    }
  }

  /** When every transaction commits and the core is never stopped, an idle moment with empty
      counters has every byte in the client's columns. */
  lemma NoFailureNoLoss(table: seq<Client>, steps: seq<Step>, k: nat, upload: bool)
    requires ValidRun(Init(table), steps) && k < |table| && forall s :: s in steps ==> !Failure(s)
    requires var st := Exec(Init(table), steps);
             st.drain.Idle? && forall c :: c in st.cells ==> st.cells[c] == Cell(0, 0)
    ensures var st := Exec(Init(table), steps);
            |st.table| == |table|
            && Credited(st.table[k], upload)
               == Credited(table[k], upload) + Reading(st.sent, User, table[k].name, upload)
  {
    Conservation(table, steps, k, upload);
    NothingLost(Init(table), steps);
  }
}
