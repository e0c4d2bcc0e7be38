/** The panel service: an operation on the client table, then a refresh of the affected inbounds of
the running core (service/config.go, service/inbounds.go, core/endpoint.go, cronjob/depleteJob.go). */
module Panel {
  import opened Model
  import opened UintArrays
  import opened ClientSave
  import opened Lifecycle
  import opened InboundUsers
  import opened Hy2Service

  type Core = map<string, Serving>

  /** Ids are primary keys; tags are unique and not empty. */
  ghost predicate ValidInbounds(inbounds: seq<Inbound>) {
    && (forall i, j :: 0 <= i < j < |inbounds| ==>
          inbounds[i].id != inbounds[j].id && inbounds[i].tag != inbounds[j].tag)
    && (forall i :: 0 <= i < |inbounds| ==> inbounds[i].tag != "")
  }

  // ---------- what a refresh does to the core ----------

  predicate SameAt(before: Core, after: Core, tag: string) {
    (tag in before <==> tag in after) && (tag in before ==> before[tag] == after[tag])
  }

  predicate Serves(core: Core, tag: string, want: Option<Serving>) {
    want.Some? && tag in core && core[tag] == want.value
  }

  predicate TagAmong(inbounds: seq<Inbound>, ids: set<nat>, tag: string) {
    exists k :: 0 <= k < |inbounds| && inbounds[k].tag == tag && inbounds[k].id in ids
  }

  /** Only the inbounds listed may have changed. */
  ghost predicate Outside(before: Core, after: Core, inbounds: seq<Inbound>, ids: set<nat>) {
    forall tag :: !TagAmong(inbounds, ids, tag) ==> SameAt(before, after, tag)
  }

  ghost predicate Refreshed(core: Core, t: seq<Client>, inbounds: seq<Inbound>, ids: set<nat>, live: bool) {
    forall k :: 0 <= k < |inbounds| && inbounds[k].id in ids ==>
                  Serves(core, inbounds[k].tag, Desired(t, inbounds[k], live))
  }

  // ---------- when a refresh succeeds ----------

  /** Every client that the inline list selects has settings for the inbound's protocol. */
  predicate Readable(t: seq<Client>, inb: Inbound) {
    TakesUsers(inb) ==> forall c :: c in t && c.enable && inb.id in c.inbounds ==> ConfigKey(inb) in c.config
  }

  predicate RunsHy2(core: Core, tag: string) {
    tag in core && core[tag].Hy2?
  }

  /** A live swap needs the inbound to be running as hysteria2; a restart needs it to be closed, its
      users to be read and the core to take it. */
  predicate Refreshable(core: Core, t: seq<Client>, inb: Inbound, live: bool, stuck: set<string>,
                        refused: set<string>)
  {
    if live && inb.kind == "hysteria2" then RunsHy2(core, inb.tag)
    else inb.tag !in stuck && inb.tag !in refused && Readable(t, inb)
  }

  ghost predicate AllRefreshable(core: Core, t: seq<Client>, inbounds: seq<Inbound>, ids: set<nat>, live: bool,
                                 stuck: set<string>, refused: set<string>)
  {
    forall k :: 0 <= k < |inbounds| && inbounds[k].id in ids ==>
                  Refreshable(core, t, inbounds[k], live, stuck, refused)
  }

  ghost predicate SameHy2(a: Core, b: Core) {
    forall tag :: RunsHy2(a, tag) <==> RunsHy2(b, tag)
  }

  /** A restart stops at the first listed inbound that cannot be restarted, and leaves it closed. */
  ghost predicate StoppedAt(before: Core, after: Core, t: seq<Client>, inbounds: seq<Inbound>, ids: set<nat>, k: nat) {
    && k < |inbounds| && inbounds[k].id in ids && inbounds[k].tag !in after
    && (forall j :: 0 <= j < k && inbounds[j].id in ids ==>
                      Serves(after, inbounds[j].tag, Desired(t, inbounds[j], false)))
    && (forall j :: k < j < |inbounds| ==> SameAt(before, after, inbounds[j].tag))
  }

  /** Reading the inline users fails exactly on a selected client without settings. */
  lemma ReadableExact(t: seq<Client>, inb: Inbound)
    ensures Readable(t, inb) <==> Unreadable !in Entries(t, inb, false)
  {
    hide Entries;
    EntrySource(t, inb, false, Unreadable);
    assert forall k :: 0 <= k < |t| ==> t[k] in t;
    if !Readable(t, inb) {
      var c :| c in t && c.enable && inb.id in c.inbounds && ConfigKey(inb) !in c.config;
      var k :| 0 <= k < |t| && t[k] == c;
      assert EntryOf(t[k], inb, false) == Some(Unreadable);
    }
  }

  lemma RefreshableSplit(core: Core, core': Core, t: seq<Client>, inbounds: seq<Inbound>, hy2: set<nat>,
                         others: set<nat>, live: bool, stuck: set<string>, refused: set<string>)
    requires SameHy2(core, core')
    requires live ==> forall k :: 0 <= k < |inbounds| && inbounds[k].id in others ==> inbounds[k].kind != "hysteria2"
    ensures AllRefreshable(core, t, inbounds, hy2 + others, live, stuck, refused)
            <==> AllRefreshable(core, t, inbounds, hy2, live, stuck, refused)
                 && AllRefreshable(core', t, inbounds, others, false, stuck, refused)
  {
    hide Readable;
    forall k | 0 <= k < |inbounds| && inbounds[k].id in others
      ensures Refreshable(core, t, inbounds[k], live, stuck, refused)
              <==> Refreshable(core', t, inbounds[k], false, stuck, refused)
    {
    }
  }

  lemma OutsideCompose(a: Core, b: Core, c: Core, inbounds: seq<Inbound>, ids1: set<nat>, ids2: set<nat>, ids: set<nat>)
    requires Outside(a, b, inbounds, ids1) && Outside(b, c, inbounds, ids2)
    requires ids1 <= ids && ids2 <= ids
    ensures Outside(a, c, inbounds, ids)
  {
    forall tag | !TagAmong(inbounds, ids, tag) ensures SameAt(a, c, tag) {
      assert !TagAmong(inbounds, ids1, tag) && !TagAmong(inbounds, ids2, tag);
    }
  }

  lemma RefreshedCompose(b: Core, c: Core, t: seq<Client>, inbounds: seq<Inbound>, ids1: set<nat>, ids2: set<nat>,
                         live: bool)
    requires ValidInbounds(inbounds)
    requires Refreshed(b, t, inbounds, ids1, live)
    requires Outside(b, c, inbounds, ids2) && Refreshed(c, t, inbounds, ids2, live)
    ensures Refreshed(c, t, inbounds, ids1 + ids2, live)
  {
    hide Desired;
    forall k | 0 <= k < |inbounds| && inbounds[k].id in ids1 + ids2
      ensures Serves(c, inbounds[k].tag, Desired(t, inbounds[k], live))
    {
      if inbounds[k].id !in ids2 {
        assert !TagAmong(inbounds, ids2, inbounds[k].tag);
        assert SameAt(b, c, inbounds[k].tag);
      }
    }
  }

  // ---------- operations on the client table ----------

  datatype Op =
    | New(payload: Client)
    | Edit(payload: Client)
    | AddBulk(rows: seq<Client>)
    | EditBulk(rows: seq<Client>)
    | Del(id: nat)
    | DelBulk(ids: seq<nat>)
    | Ban(clientId: nat, banned: bool, now: int)
    | Tick(dt: int)

  predicate IsSave(op: Op) {
    !op.Ban? && !op.Tick?
  }

  predicate Accepted(t: seq<Client>, op: Op) {
    match op
    case New(_) => true
    case Edit(c) => Find(t, c.id).Some?
    case AddBulk(_) => true
    case EditBulk(rows) => forall c :: c in rows ==> Find(t, c.id).Some?
    case Del(id) => Find(t, id).Some?
    case DelBulk(ids) => forall id :: id in ids ==> Find(t, id).Some?
    case Ban(id, _, _) => Find(t, id).Some?
    case Tick(_) => true
  }

  function BanTable(t: seq<Client>, id: nat, banned: bool, now: int): (r: seq<Client>)
    ensures |r| == |t|
  {
    seq(|t|, i requires 0 <= i < |t| => if t[i].id == id then BanRow(t[i], banned, now) else t[i])
  }

  function After(t: seq<Client>, op: Op): seq<Client> {
    match op
    case New(c) => Save(t, WithIdentity(c))
    case Edit(c) => Save(t, WithIdentity(c))
    case AddBulk(rows) => SaveAll(t, Identified(rows))
    case EditBulk(rows) => SaveAll(t, Merged(t, rows))
    case Del(id) => Delete(t, {id})
    case DelBulk(ids) => Delete(t, ToSet(ids))
    case Ban(id, banned, now) => BanTable(t, id, banned, now)
    case Tick(dt) => TickTable(t, dt)
  }

  /** The inbound ids the operation reports. */
  function Affected(t: seq<Client>, op: Op): set<nat> {
    match op
    case New(c) => ToSet(c.inbounds)
    case Edit(c) => RowChanges(t, c.id, WithIdentity(c))
    case AddBulk(rows) => AllInbounds(rows)
    case EditBulk(rows) => BulkChanges(t, rows)
    case Del(id) => DeletedInbounds(t, [id])
    case DelBulk(ids) => DeletedInbounds(t, ids)
    case Ban(id, _, _) => DeletedInbounds(t, [id])
    case Tick(dt) => TickInbounds(t, dt)
  }

  lemma OneRowInbounds(t: seq<Client>, id: nat)
    requires Find(t, id).Some?
    ensures DeletedInbounds(t, [id]) == ToSet(Find(t, id).value.inbounds)
  {
    assert DeletedInbounds(t, []) == {};
    assert [id][..0] == [];
  }

  datatype Outcome = Refused | NotApplied | Done

  class PanelService {
    var clients: seq<Client>
    const inbounds: seq<Inbound>
    var core: Core
    var running: bool
    var liveUpdate: bool

    ghost predicate Valid()
      reads this`clients
    {
      DistinctIds(clients) && ValidInbounds(inbounds)
    }

    constructor (clients: seq<Client>, inbounds: seq<Inbound>, core: Core, liveUpdate: bool)
      requires DistinctIds(clients) && ValidInbounds(inbounds)
      ensures Valid() && this.clients == clients && this.inbounds == inbounds && this.core == core
      ensures running && this.liveUpdate == liveUpdate
    {
      this.clients, this.inbounds, this.core := clients, inbounds, core;
      this.running, this.liveUpdate := true, liveUpdate;
    }

    /** Swaps the user set of one running hysteria2 inbound; an unknown id is skipped. */
    method UpdateInboundUsers(id: nat) returns (ok: bool)
      requires ValidInbounds(inbounds)
      requires forall k :: 0 <= k < |inbounds| && inbounds[k].id == id ==> inbounds[k].kind == "hysteria2"
      modifies this`core
      ensures Outside(old(core), core, inbounds, {id})
      ensures ok <==> running ==> AllRefreshable(old(core), clients, inbounds, {id}, true, {}, {})
      ensures !ok || !running ==> core == old(core)
      ensures SameHy2(old(core), core)
      ensures ok && running ==> Refreshed(core, clients, inbounds, {id}, true)
    {
      hide Desired, BuildUsers, UserMap;
      if !running {
        return true;
      }
      var i := 0;
      while i < |inbounds| && inbounds[i].id != id
        invariant 0 <= i <= |inbounds|
        invariant forall k :: 0 <= k < i ==> inbounds[k].id != id
      {
        i := i + 1;
      }
      if i == |inbounds| {
        return true;
      }
      var inbound := inbounds[i];
      var names, passwords := Hy2Users(clients, inbound);
      if inbound.tag !in core || !core[inbound.tag].Hy2? {
        return false;
      }
      Hy2Desired(clients, inbound);
      core := core[inbound.tag := Hy2(BuildUsers(names, passwords))];
      assert TagAmong(inbounds, {id}, inbound.tag);
      ok := true;
    }

    /** Removes one inbound of the running core, closing its connections, and adds it again. */
    method RestartInbound(inbound: Inbound, stuck: set<string>, refused: set<string>) returns (ok: bool)
      modifies this`core
      ensures ok <==> Refreshable(old(core), clients, inbound, false, stuck, refused)
      ensures forall tag :: tag != inbound.tag ==> SameAt(old(core), core, tag)
      ensures if ok then Serves(core, inbound.tag, Desired(clients, inbound, false)) else inbound.tag !in core
    {
      hide Entries, UserMap, Readable;
      ReadableExact(clients, inbound);
      RestartDesired(clients, inbound);
      core := core - {inbound.tag};
      if inbound.tag in stuck {
        return false;
      }
      var users: seq<Entry> := [];
      if HasUser(inbound.kind) {
        var fetched := FetchUsers(clients, inbound);
        if fetched.None? {
          return false;
        }
        users := fetched.value;
      }
      if inbound.tag in refused {
        return false;
      }
      if inbound.kind == "hysteria2" {
        var userMap := NewHy2Inbound(users);
        core := core[inbound.tag := Hy2(userMap)];
      } else {
        core := core[inbound.tag := Other(users)];
      }
      ok := true;
    }

    /** Removes and re-adds every listed inbound; closing one may fail, and the core may refuse one. */
    method RestartInbounds(ids: seq<nat>, stuck: set<string>, refused: set<string>) returns (ok: bool)
      requires ValidInbounds(inbounds)
      modifies this`core
      ensures Outside(old(core), core, inbounds, ToSet(ids))
      ensures ok <==> running ==> AllRefreshable(old(core), clients, inbounds, ToSet(ids), false, stuck, refused)
      ensures !running ==> core == old(core)
      ensures !ok ==> exists k :: StoppedAt(old(core), core, clients, inbounds, ToSet(ids), k)
      ensures ok && running ==> Refreshed(core, clients, inbounds, ToSet(ids), false)
    {
      hide Desired, Readable;
      if !running {
        return true;
      }
      for i := 0 to |inbounds|
        invariant Outside(old(core), core, inbounds, ToSet(ids))
        invariant forall k :: 0 <= k < i && inbounds[k].id in ids ==>
                    Serves(core, inbounds[k].tag, Desired(clients, inbounds[k], false))
        invariant forall k :: i <= k < |inbounds| ==> SameAt(old(core), core, inbounds[k].tag)
        invariant forall k :: 0 <= k < i && inbounds[k].id in ids ==>
                    Refreshable(old(core), clients, inbounds[k], false, stuck, refused)
      {
        var inbound := inbounds[i];
        if inbound.id in ids {
          assert TagAmong(inbounds, ToSet(ids), inbound.tag);
          ghost var before := core;
          var restarted := RestartInbound(inbound, stuck, refused);
          assert Refreshable(before, clients, inbound, false, stuck, refused)
              <==> Refreshable(old(core), clients, inbound, false, stuck, refused);
          forall tag | tag != inbound.tag && SameAt(old(core), before, tag) ensures SameAt(old(core), core, tag) {
            assert SameAt(before, core, tag);
          }
          assert forall k :: 0 <= k < |inbounds| && k != i ==> SameAt(before, core, inbounds[k].tag);
          if !restarted {
            assert StoppedAt(old(core), core, clients, inbounds, ToSet(ids), i);
            return false;
          }
        }
      }
      ok := true;
    }

    /** Swaps the user sets of several running hysteria2 inbounds, up to the first that fails. */
    method UpdateAllUsers(ids: seq<nat>) returns (ok: bool)
      requires ValidInbounds(inbounds) && running
      requires forall k :: 0 <= k < |inbounds| && inbounds[k].id in ids ==> inbounds[k].kind == "hysteria2"
      modifies this`core
      ensures Outside(old(core), core, inbounds, ToSet(ids))
      ensures ok <==> AllRefreshable(old(core), clients, inbounds, ToSet(ids), true, {}, {})
      ensures SameHy2(old(core), core)
      ensures ok ==> Refreshed(core, clients, inbounds, ToSet(ids), true)
    {
      hide Desired, Readable;
      for i := 0 to |ids|
        invariant Outside(old(core), core, inbounds, ToSet(ids))
        invariant Refreshed(core, clients, inbounds, ToSet(ids[..i]), true)
        invariant SameHy2(old(core), core)
        invariant AllRefreshable(old(core), clients, inbounds, ToSet(ids[..i]), true, {}, {})
      {
        assert ToSet(ids[..i + 1]) == ToSet(ids[..i]) + {ids[i]};
        assert ids[i] in ToSet(ids);
        ghost var before := core;
        var updated := UpdateInboundUsers(ids[i]);
        OutsideCompose(old(core), before, core, inbounds, ToSet(ids), {ids[i]}, ToSet(ids));
        if !updated {
          return false;
        }
        RefreshedCompose(before, core, clients, inbounds, ToSet(ids[..i]), {ids[i]}, true);
      }
      assert ids[..|ids|] == ids;
      ok := true;
    }

    /** Live update for running hysteria2 inbounds when it is switched on, restart for all others. */
    method ApplyUserChanges(ids: seq<nat>, stuck: set<string>, refused: set<string>) returns (ok: bool)
      requires ValidInbounds(inbounds)
      modifies this`core
      ensures Outside(old(core), core, inbounds, ToSet(ids))
      ensures ok <==> running ==> AllRefreshable(old(core), clients, inbounds, ToSet(ids), liveUpdate, stuck, refused)
      ensures !running ==> core == old(core)
      ensures ok && running ==> Refreshed(core, clients, inbounds, ToSet(ids), liveUpdate)
    {
      hide Desired, Readable;
      if !running || |ids| == 0 {
        return true;
      }
      var hy2Ids: seq<nat>, otherIds: seq<nat> := [], [];
      if liveUpdate {
        var hy2Set := set k | 0 <= k < |inbounds| && inbounds[k].id in ids && inbounds[k].kind == "hysteria2"
                        :: inbounds[k].id;
        hy2Ids, otherIds := Split(ids, hy2Set);
      } else {
        otherIds := ids;
      }
      assert ToSet(hy2Ids) + ToSet(otherIds) == ToSet(ids);
      var updated := UpdateAllUsers(hy2Ids);
      assert AllRefreshable(old(core), clients, inbounds, ToSet(hy2Ids), true, {}, {})
          <==> AllRefreshable(old(core), clients, inbounds, ToSet(hy2Ids), liveUpdate, stuck, refused);
      RefreshableSplit(old(core), core, clients, inbounds, ToSet(hy2Ids), ToSet(otherIds), liveUpdate, stuck, refused);
      if !updated {
        OutsideCompose(old(core), core, core, inbounds, ToSet(hy2Ids), {}, ToSet(ids));
        return false;
      }
      ghost var before := core;
      ok := true;
      if |otherIds| > 0 {
        ok := RestartInbounds(otherIds, stuck, refused);
      }
      OutsideCompose(old(core), before, core, inbounds, ToSet(hy2Ids), ToSet(otherIds), ToSet(ids));
      if ok {
        RestartIsLive(core, clients, inbounds, ToSet(otherIds), liveUpdate);
        RefreshedCompose(before, core, clients, inbounds, ToSet(hy2Ids), ToSet(otherIds), liveUpdate);
      }
    }

    /** One client operation as a transaction: the rows are saved, the affected inbounds refreshed, and
        the rows are rolled back when the refresh or the audit row after it fails. */
    method SaveClients(op: Op, stuck: set<string>, refused: set<string>, auditFails: bool) returns (r: Outcome)
      requires Valid() && IsSave(op)
      modifies this`clients, this`core
      ensures r.Refused? <==> !Accepted(old(clients), op)
      ensures r.Refused? ==> core == old(core)
      ensures clients == if r.Done? then After(old(clients), op) else old(clients)
      ensures r.Done? <==> Accepted(old(clients), op) && !auditFails
                           && (running ==>
                                 AllRefreshable(old(core), After(old(clients), op), inbounds,
                                                Affected(old(clients), op), liveUpdate, stuck, refused))
      ensures Outside(old(core), core, inbounds, Affected(old(clients), op))
      ensures !running ==> core == old(core)
      ensures r.Done? && running ==>
                Refreshed(core, clients, inbounds, Affected(old(clients), op), liveUpdate)
    {
      var tx := new ClientStore(clients);
      var saved := SaveRowsOf(tx, op);
      if saved.Rejected? {
        return Refused;
      }
      var before := clients;
      clients := tx.clients;
      hide Desired, After, Affected, Accepted, Refreshable;
      var ok := true;
      if |saved.ids| > 0 {
        ok := ApplyUserChanges(saved.ids, stuck, refused);
      }
      if !ok || auditFails {
        clients := before;
        return NotApplied;
      }
      r := Done;
    }

    static method SaveRowsOf(tx: ClientStore, op: Op) returns (r: Saved)
      requires IsSave(op)
      modifies tx
      ensures r.Rejected? <==> !Accepted(old(tx.clients), op)
      ensures r.Saved? ==> tx.clients == After(old(tx.clients), op)
      ensures r.Saved? ==> ToSet(r.ids) == Affected(old(tx.clients), op)
    {
      hide Find, Save, SaveAll, WithIdentity, Merged, Identified, Delete, ToSet, RowChanges, BulkChanges,
           DeletedInbounds,
           AllInbounds;
      match op
      case New(c) => r := tx.SaveNew(c);
      case Edit(c) => r := tx.SaveEdit(c);
      case AddBulk(rows) => r := tx.SaveAddBulk(rows);
      case EditBulk(rows) => r := tx.SaveEditBulk(rows);
      case DelBulk(ids) => r := tx.SaveDelBulk(ids);
      case Del(id) =>
        if Find(tx.clients, id).Some? {
          OneRowInbounds(tx.clients, id);
        }
        r := tx.SaveDel(id);
    }

    /** The ban is committed before the refresh, and stays when the refresh fails. */
    method BanClient(clientId: nat, banned: bool, loginUser: string, now: int, stuck: set<string>, refused: set<string>,
                     commitFails: bool)
      returns (r: Outcome)
      requires Valid()
      modifies this`clients, this`core
      ensures r.Refused? <==> !Accepted(old(clients), Ban(clientId, banned, now)) || commitFails
      ensures r.Refused? ==> clients == old(clients) && core == old(core)
      ensures !r.Refused? ==> clients == After(old(clients), Ban(clientId, banned, now))
      ensures r.Done? <==> !r.Refused?
                           && (running ==>
                                 AllRefreshable(old(core), clients, inbounds,
                                                Affected(old(clients), Ban(clientId, banned, now)), liveUpdate,
                                                stuck, refused))
      ensures Outside(old(core), core, inbounds, Affected(old(clients), Ban(clientId, banned, now)))
      ensures !running ==> core == old(core)
      ensures r.Done? && running ==>
                Refreshed(core, clients, inbounds, Affected(old(clients), Ban(clientId, banned, now)), liveUpdate)
    {
      var db := new ClientDb(clients);
      if Find(clients, clientId).Some? {
        OneRowInbounds(clients, clientId);
      }
      var row := db.BanClient(clientId, banned, loginUser, now);
      if row.None? || commitFails {
        return Refused;
      }
      assert db.clients == BanTable(clients, clientId, banned, now);
      hide Desired, BanTable, DeletedInbounds, Refreshable;
      clients := db.clients;
      var ok := ApplyUserChanges(row.value, stuck, refused);
      r := if ok then Done else NotApplied;
    }

    /** The deplete job: the transaction, then the refresh when some inbound is affected. A failed
        transaction ends it. */
    method RunDepleteJob(dt: int, stuck: set<string>, refused: set<string>, txFails: bool) returns (r: Outcome)
      requires Valid()
      modifies this`clients, this`core
      ensures r.Refused? <==> txFails
      ensures r.Refused? ==> clients == old(clients) && core == old(core)
      ensures !r.Refused? ==> clients == After(old(clients), Tick(dt))
      ensures r.Done? <==> !txFails
                           && (running ==>
                                 AllRefreshable(old(core), clients, inbounds, Affected(old(clients), Tick(dt)),
                                                liveUpdate, stuck, refused))
      ensures Outside(old(core), core, inbounds, Affected(old(clients), Tick(dt)))
      ensures !running ==> core == old(core)
      ensures r.Done? && running ==>
                Refreshed(core, clients, inbounds, Affected(old(clients), Tick(dt)), liveUpdate)
    {
      hide Desired, TickTable, TickInbounds, Refreshable;
      var db := new ClientDb(clients);
      var inboundIds := db.DepleteClients(dt);
      if txFails {
        return Refused;
      }
      clients := db.clients;
      var ok := true;
      if |inboundIds| > 0 {
        ok := ApplyUserChanges(inboundIds, stuck, refused);
      }
      r := if ok then Done else NotApplied;
    }

    static method Split(ids: seq<nat>, hy2Map: set<nat>) returns (hy2Ids: seq<nat>, otherIds: seq<nat>)
      ensures forall id :: id in hy2Ids <==> id in ids && id in hy2Map
      ensures forall id :: id in otherIds <==> id in ids && id !in hy2Map
    {
      hy2Ids, otherIds := [], [];
      for i := 0 to |ids|
        invariant forall id :: id in hy2Ids <==> id in ids[..i] && id in hy2Map
        invariant forall id :: id in otherIds <==> id in ids[..i] && id !in hy2Map
      {
        assert ids[..i + 1] == ids[..i] + [ids[i]];
        if ids[i] in hy2Map {
          hy2Ids := hy2Ids + [ids[i]];
        } else {
          otherIds := otherIds + [ids[i]];
        }
      }
      assert ids[..|ids|] == ids;
    }
  }

  lemma Hy2Desired(t: seq<Client>, inb: Inbound)
    requires inb.kind == "hysteria2" && Unreadable !in Entries(t, inb, true)
    ensures Desired(t, inb, true) == Some(Hy2(UserMap(Entries(t, inb, true))))
  {
  }

  lemma RestartDesired(t: seq<Client>, inb: Inbound)
    ensures Desired(t, inb, false) ==
            if Unreadable in Entries(t, inb, false) then None
            else if inb.kind == "hysteria2" then Some(Hy2(UserMap(Entries(t, inb, false))))
            else Some(Other(Entries(t, inb, false)))
    ensures !HasUser(inb.kind) ==> Entries(t, inb, false) == []
  {
    if !HasUser(inb.kind) {
      NoEntries(t, inb);
    }
  }

  /** Both readings of the table are the same for everything that is restarted. */
  lemma RestartIsLive(core: Core, t: seq<Client>, inbounds: seq<Inbound>, ids: set<nat>, live: bool)
    requires Refreshed(core, t, inbounds, ids, false)
    requires live ==> forall k :: 0 <= k < |inbounds| && inbounds[k].id in ids ==> inbounds[k].kind != "hysteria2"
    ensures Refreshed(core, t, inbounds, ids, live)
  {
    forall k | 0 <= k < |inbounds| && inbounds[k].id in ids && live
      ensures Desired(t, inbounds[k], live) == Desired(t, inbounds[k], false)
    {
      SameReading(t, inbounds[k]);
    }
  }

  lemma {:induction false} SameReading(t: seq<Client>, inb: Inbound)
    requires inb.kind != "hysteria2"
    ensures Entries(t, inb, true) == Entries(t, inb, false)
  {
    if t != [] {
      SameReading(t[1..], inb);
    }
  }
}
