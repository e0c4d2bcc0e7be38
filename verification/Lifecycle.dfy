/** Delay start, periodic reset, quota and expiry depletion, ban and unban
(service/client.go, service/config.go). */
module Lifecycle {
  import opened Model
  import opened UintArrays

  const DAY := 86400

  // ---------- the three reset queries and what each does to a row ----------

  /** Used for the first time, no periodic reset: the expiry clock starts. */
  predicate StartsExpiry(c: Client) {
    c.enable && c.delayStart && !c.autoReset && c.up + c.down > 0
  }

  /** Used for the first time, periodic reset: the reset clock starts. */
  predicate StartsPeriod(c: Client) {
    c.enable && c.delayStart && c.autoReset && c.up + c.down > 0
  }

  predicate DueReset(c: Client, dt: int) {
    !c.delayStart && c.autoReset && c.nextReset < dt
  }

  function StartExpiry(c: Client, dt: int): Client {
    c.(expiry := dt + c.resetDays * DAY, delayStart := false)
  }

  function StartPeriod(c: Client, dt: int): Client {
    c.(nextReset := dt + c.resetDays * DAY, delayStart := false)
  }

  /** Does not resurrect a banned client. */
  function PeriodicReset(c: Client, dt: int): Client {
    c.(nextReset := dt + c.resetDays * DAY,
       totalUp := c.totalUp + c.up, totalDown := c.totalDown + c.down, up := 0, down := 0,
       enable := c.enable || !c.banned)
  }

  predicate Revived(c: Client, dt: int) {
    DueReset(c, dt) && !c.enable && !c.banned
  }

  function ResetRow(c: Client, dt: int): Client {
    if StartsExpiry(c) then StartExpiry(c, dt)
    else if StartsPeriod(c) then StartPeriod(c, dt)
    else if DueReset(c, dt) then PeriodicReset(c, dt)
    else c
  }

  // ---------- limits ----------

  predicate OverLimit(c: Client, now: int) {
    (c.volume > 0 && c.up + c.down > c.volume) || (c.expiry > 0 && c.expiry < now)
  }

  predicate Depleted(c: Client, now: int) {
    c.enable && OverLimit(c, now)
  }

  function DepleteRow(c: Client, now: int): Client {
    if Depleted(c, now) then c.(enable := false) else c
  }

  function TickRow(c: Client, dt: int): Client {
    DepleteRow(ResetRow(c, dt), dt)
  }

  function BanRow(c: Client, banned: bool, now: int): Client {
    if banned then c.(banned := true, enable := false, bannedAt := now)
    else c.(banned := false, enable := !OverLimit(c, now), bannedAt := 0)
  }

  // ---------- tables ----------

  function ResetTable(t: seq<Client>, dt: int): (r: seq<Client>)
    ensures |r| == |t|
  {
    seq(|t|, i requires 0 <= i < |t| => ResetRow(t[i], dt))
  }

  function DepleteTable(t: seq<Client>, dt: int): (r: seq<Client>)
    ensures |r| == |t|
  {
    seq(|t|, i requires 0 <= i < |t| => DepleteRow(t[i], dt))
  }

  function TickTable(t: seq<Client>, dt: int): (r: seq<Client>)
    ensures |r| == |t|
  {
    seq(|t|, i requires 0 <= i < |t| => TickRow(t[i], dt))
  }

  function Audit(rows: seq<Client>, dt: int, actor: string, action: string): seq<Change> {
    seq(|rows|, i requires 0 <= i < |rows| => Change(dt, actor, action, rows[i].name))
  }

  function ResetAudit(t: seq<Client>, dt: int): seq<Change> {
    Audit(Select(t, StartsExpiry) + Select(t, StartsPeriod), dt, "ResetJob", "reset")
  }

  function DepletedRows(t: seq<Client>, dt: int): seq<Client> {
    Select(t, (c: Client) => Depleted(c, dt))
  }

  function DepleteAudit(t: seq<Client>, dt: int): seq<Change> {
    Audit(DepletedRows(t, dt), dt, "DepleteJob", "disable")
  }

  /** The inbounds of a set of rows. */
  function InboundsOf(rows: seq<Client>): set<nat> {
    set c, i | c in rows && i in c.inbounds :: i
  }

  function RevivedRows(t: seq<Client>, dt: int): seq<Client> {
    Select(t, (c: Client) => Revived(c, dt))
  }

  /** The inbounds a tick has to refresh. */
  function TickInbounds(t: seq<Client>, dt: int): set<nat> {
    InboundsOf(RevivedRows(t, dt)) + InboundsOf(DepletedRows(ResetTable(t, dt), dt))
  }

  // ---------- the loops over selected rows ----------

  method StartExpiryClocks(rows: seq<Client>, dt: int) returns (batch: seq<Client>, audit: seq<Change>)
    ensures |batch| == |rows| && forall k :: 0 <= k < |rows| ==> batch[k] == StartExpiry(rows[k], dt)
    ensures audit == Audit(rows, dt, "ResetJob", "reset")
  {
    batch, audit := [], [];
    for i := 0 to |rows|
      invariant |batch| == i && forall k :: 0 <= k < i ==> batch[k] == StartExpiry(rows[k], dt)
      invariant audit == Audit(rows[..i], dt, "ResetJob", "reset")
    {
      var client := rows[i];
      client := client.(expiry := dt + client.resetDays * 86400);
      client := client.(delayStart := false);
      batch := batch + [client];
      audit := audit + [Change(dt, "ResetJob", "reset", client.name)];
    }
    assert rows[..|rows|] == rows;
  }

  method StartResetClocks(rows: seq<Client>, dt: int) returns (batch: seq<Client>, audit: seq<Change>)
    ensures |batch| == |rows| && forall k :: 0 <= k < |rows| ==> batch[k] == StartPeriod(rows[k], dt)
    ensures audit == Audit(rows, dt, "ResetJob", "reset")
  {
    batch, audit := [], [];
    for i := 0 to |rows|
      invariant |batch| == i && forall k :: 0 <= k < i ==> batch[k] == StartPeriod(rows[k], dt)
      invariant audit == Audit(rows[..i], dt, "ResetJob", "reset")
    {
      var client := rows[i];
      client := client.(nextReset := dt + client.resetDays * 86400);
      client := client.(delayStart := false);
      batch := batch + [client];
      audit := audit + [Change(dt, "ResetJob", "reset", client.name)];
    }
    assert rows[..|rows|] == rows;
  }

  /** Moves the traffic of the period to the totals, and collects the inbounds of the clients it
      enables again. */
  method ResetPeriods(rows: seq<Client>, dt: int) returns (batch: seq<Client>, inboundIds: seq<nat>)
    ensures |batch| == |rows| && forall k :: 0 <= k < |rows| ==> batch[k] == PeriodicReset(rows[k], dt)
    ensures NoDuplicates(inboundIds) && ToSet(inboundIds) == InboundsOf(Disabled(rows))
  {
    batch, inboundIds := [], [];
    for i := 0 to |rows|
      invariant |batch| == i && forall k :: 0 <= k < i ==> batch[k] == PeriodicReset(rows[k], dt)
      invariant NoDuplicates(inboundIds) && ToSet(inboundIds) == InboundsOf(Disabled(rows[..i]))
    {
      DisabledAppend(rows[..i], rows[i]);
      assert rows[..i + 1] == rows[..i] + [rows[i]];
      var client := rows[i];
      client := client.(nextReset := dt + client.resetDays * 86400);
      client := client.(totalUp := client.totalUp + client.up);
      client := client.(totalDown := client.totalDown + client.down);
      client := client.(up := 0);
      client := client.(down := 0);
      if !client.enable && !client.banned {
        client := client.(enable := true);
        inboundIds := UnionUintArray(inboundIds, client.inbounds);
      }
      batch := batch + [client];
    }
    assert rows[..|rows|] == rows;
  }

  /** Disabled without being banned. */
  function Disabled(rows: seq<Client>): seq<Client> {
    Select(rows, (c: Client) => !c.enable && !c.banned)
  }

  lemma DisabledAppend(rows: seq<Client>, c: Client)
    ensures InboundsOf(Disabled(rows + [c]))
            == InboundsOf(Disabled(rows)) + if !c.enable && !c.banned then ToSet(c.inbounds) else {}
  {
    SelectElements(rows, (c: Client) => !c.enable && !c.banned);
    SelectElements(rows + [c], (c: Client) => !c.enable && !c.banned);
  }

  /** One audit row per client to disable, and their inbounds added to `before`. */
  method ListDepleted(over: seq<Client>, before: seq<nat>, dt: int)
    returns (inboundIds: seq<nat>, audit: seq<Change>)
    requires NoDuplicates(before)
    ensures NoDuplicates(inboundIds) && ToSet(inboundIds) == ToSet(before) + InboundsOf(over)
    ensures audit == Audit(over, dt, "DepleteJob", "disable")
  {
    inboundIds, audit := before, [];
    for i := 0 to |over|
      invariant NoDuplicates(inboundIds) && ToSet(inboundIds) == ToSet(before) + InboundsOf(over[..i])
      invariant audit == Audit(over[..i], dt, "DepleteJob", "disable")
    {
      assert over[..i + 1] == over[..i] + [over[i]];
      inboundIds := UnionUintArray(inboundIds, over[i].inbounds);
      audit := audit + [Change(dt, "DepleteJob", "disable", over[i].name)];
    }
    assert over[..|over|] == over;
  }

  // ---------- the database service ----------

  class ClientDb {
    var clients: seq<Client>
    var changes: seq<Change>

    constructor (initial: seq<Client>)
      ensures clients == initial && changes == []
    {
      clients, changes := initial, [];
    }

    /** Runs the three queries, then saves all touched rows in one batch. */
    method ResetClients(dt: int) returns (inboundIds: seq<nat>)
      requires DistinctIds(clients)
      modifies this
      ensures clients == ResetTable(old(clients), dt)
      ensures changes == old(changes) + ResetAudit(old(clients), dt)
      ensures NoDuplicates(inboundIds) && ToSet(inboundIds) == InboundsOf(RevivedRows(old(clients), dt))
    {
      hide StartsExpiry, StartsPeriod, DueReset, StartExpiry, StartPeriod, PeriodicReset, Revived, Select, SaveAll,
           InboundsOf,
           Disabled;
      var due := (c: Client) => DueReset(c, dt);
      var first, second, third := Select(clients, StartsExpiry), Select(clients, StartsPeriod), Select(clients, due);
      var batch1, audit1 := StartExpiryClocks(first, dt);
      var batch2, audit2 := StartResetClocks(second, dt);
      var batch3;
      batch3, inboundIds := ResetPeriods(third, dt);
      ResetBatch(clients, dt, batch1, batch2, batch3);
      RevivedAreDue(clients, dt);
      assert audit1 + audit2 == ResetAudit(clients, dt);
      clients := SaveAll(clients, batch1 + batch2 + batch3);
      changes := changes + (audit1 + audit2);
    }

    /** One depletion tick: reset, then disable what is over its limits. */
    method DepleteClients(dt: int) returns (inboundIds: seq<nat>)
      requires DistinctIds(clients)
      modifies this
      ensures clients == TickTable(old(clients), dt)
      ensures changes == old(changes) + ResetAudit(old(clients), dt) + DepleteAudit(ResetTable(old(clients), dt), dt)
      ensures NoDuplicates(inboundIds) && ToSet(inboundIds) == TickInbounds(old(clients), dt)
    {
      inboundIds := ResetClients(dt);
      var audit;
      inboundIds, audit := ListDepleted(DepletedRows(clients, dt), inboundIds, dt);
      if |audit| > 0 {
        clients := DepleteTable(clients, dt);
        changes := changes + audit;
      } else {
        NoneDepleted(clients, dt);
      }
    }

    /** The whole transaction; `None` when there is no such client, and then nothing changes. */
    method BanClient(clientId: nat, banned: bool, loginUser: string, now: int) returns (r: Option<seq<nat>>)
      requires DistinctIds(clients)
      modifies this
      ensures r.None? <==> forall c :: c in old(clients) ==> c.id != clientId
      ensures r.None? ==> clients == old(clients) && changes == old(changes)
      ensures r.Some? ==> |clients| == |old(clients)| && forall k :: 0 <= k < |clients| ==>
                clients[k] == (if old(clients)[k].id == clientId then BanRow(old(clients)[k], banned, now)
                               else old(clients)[k])
      ensures r.Some? ==> forall c :: c in old(clients) && c.id == clientId ==>
                r.value == c.inbounds
                && changes == old(changes) + [Change(now, loginUser, if banned then "ban" else "unban", c.name)]
    {
      var row := Find(clients, clientId);
      if row.None? {
        return None;
      }
      var client := row.value;
      forall c | c in clients && c.id == clientId ensures c == client {
        var k :| 0 <= k < |clients| && clients[k] == c;
        FindUnique(clients, k);
      }
      var updated := client;
      updated := updated.(banned := banned);
      if banned {
        updated := updated.(enable := false, bannedAt := now);
      } else {
        var overQuota := client.volume > 0 && client.up + client.down > client.volume;
        var expired := client.expiry > 0 && client.expiry < now;
        updated := updated.(enable := !overQuota && !expired, bannedAt := 0);
      }
      SaveRows(clients, updated);
      clients := Save(clients, updated);
      changes := changes + [Change(now, loginUser, if banned then "ban" else "unban", client.name)];
      r := Some(client.inbounds);
    }
  }

  // ---------- why one batch is enough ----------

  /** A row some query selects has its image in the batch. */
  lemma InBatch(t: seq<Client>, dt: int, batch1: seq<Client>, batch2: seq<Client>, batch3: seq<Client>, k: nat)
    requires DistinctIds(t)
    requires var first := Select(t, StartsExpiry);
             |batch1| == |first| && forall k :: 0 <= k < |first| ==> batch1[k] == StartExpiry(first[k], dt)
    requires var second := Select(t, StartsPeriod);
             |batch2| == |second| && forall k :: 0 <= k < |second| ==> batch2[k] == StartPeriod(second[k], dt)
    requires var third := Select(t, (c: Client) => DueReset(c, dt));
             |batch3| == |third| && forall k :: 0 <= k < |third| ==> batch3[k] == PeriodicReset(third[k], dt)
    requires k < |t|
    ensures ResetRow(t[k], dt) in batch1 + batch2 + batch3 || ResetRow(t[k], dt) == t[k]
  {
    var due := (c: Client) => DueReset(c, dt);
    var batch := batch1 + batch2 + batch3;
    var c := t[k];
    assert c in t;
    if StartsExpiry(c) {
      SelectElements(t, StartsExpiry);
      var j :| 0 <= j < |batch1| && Select(t, StartsExpiry)[j] == c;
      assert batch[j] == ResetRow(c, dt);
    } else if StartsPeriod(c) {
      SelectElements(t, StartsPeriod);
      var j :| 0 <= j < |batch2| && Select(t, StartsPeriod)[j] == c;
      assert batch[|batch1| + j] == ResetRow(c, dt);
    } else if DueReset(c, dt) {
      SelectElements(t, due);
      var j :| 0 <= j < |batch3| && Select(t, due)[j] == c;
      assert batch[|batch1| + |batch2| + j] == ResetRow(c, dt);
    }
  }

  /** The queries select disjoint rows, so the one batch leaves every row at its own image. */
  lemma ResetBatch(t: seq<Client>, dt: int, batch1: seq<Client>, batch2: seq<Client>, batch3: seq<Client>)
    requires DistinctIds(t)
    requires var first := Select(t, StartsExpiry);
             |batch1| == |first| && forall k :: 0 <= k < |first| ==> batch1[k] == StartExpiry(first[k], dt)
    requires var second := Select(t, StartsPeriod);
             |batch2| == |second| && forall k :: 0 <= k < |second| ==> batch2[k] == StartPeriod(second[k], dt)
    requires var third := Select(t, (c: Client) => DueReset(c, dt));
             |batch3| == |third| && forall k :: 0 <= k < |third| ==> batch3[k] == PeriodicReset(third[k], dt)
    ensures SaveAll(t, batch1 + batch2 + batch3) == ResetTable(t, dt)
  {
    var due := (c: Client) => DueReset(c, dt);
    var target := ResetTable(t, dt);
    var batch := batch1 + batch2 + batch3;
    SelectElements(t, StartsExpiry);
    SelectElements(t, StartsPeriod);
    SelectElements(t, due);
    forall k | 0 <= k < |t| ensures target[k] in batch || target[k] == t[k] {
      InBatch(t, dt, batch1, batch2, batch3, k);
    }
    BatchInTarget(t, dt, batch1, Select(t, StartsExpiry));
    BatchInTarget(t, dt, batch2, Select(t, StartsPeriod));
    BatchInTarget(t, dt, batch3, Select(t, due));
    SaveAllRows(t, batch, target);
  }

  lemma BatchInTarget(t: seq<Client>, dt: int, batch: seq<Client>, rows: seq<Client>)
    requires |batch| == |rows| && forall k :: 0 <= k < |rows| ==> rows[k] in t && batch[k] == ResetRow(rows[k], dt)
    ensures forall r :: r in batch ==> r in ResetTable(t, dt)
  {
    forall r | r in batch ensures r in ResetTable(t, dt) {
      var k :| 0 <= k < |batch| && batch[k] == r;
      var j :| 0 <= j < |t| && t[j] == rows[k];
      assert ResetTable(t, dt)[j] == r;
    }
  }

  lemma RevivedAreDue(t: seq<Client>, dt: int)
    ensures InboundsOf(Disabled(Select(t, (c: Client) => DueReset(c, dt)))) == InboundsOf(RevivedRows(t, dt))
  {
    var due := (c: Client) => DueReset(c, dt);
    SelectElements(t, due);
    SelectElements(t, (c: Client) => Revived(c, dt));
    SelectElements(Select(t, due), (c: Client) => !c.enable && !c.banned);
  }

  lemma NoneDepleted(t: seq<Client>, dt: int)
    requires DepletedRows(t, dt) == []
    ensures DepleteTable(t, dt) == t
  {
    SelectElements(t, (c: Client) => Depleted(c, dt));
    forall k | 0 <= k < |t| ensures DepleteTable(t, dt)[k] == t[k] {
      assert t[k] in t;
    }
  }
}
