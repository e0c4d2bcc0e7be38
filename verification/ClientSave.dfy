/** Saving clients from the panel: which rows are stored and which inbounds are reported as
affected (service/client.go). Links are kept apart, in LinkCache. */
module ClientSave {
  import opened Model
  import opened UintArrays

  // ---------- setConfigIdentity ----------

  function IdentitySettings(cfg: map<string, string>, name: string): map<string, string> {
    if "name" in cfg then cfg["name" := name]
    else if "username" in cfg then cfg["username" := name]
    else cfg
  }

  function IdentityConfig(config: Config, name: string): Config {
    if name == "" then config else map p | p in config :: IdentitySettings(config[p], name)
  }

  /** The row as it is stored: every protocol's settings carry the client's name. */
  function WithIdentity(c: Client): Client {
    c.(config := IdentityConfig(c.config, c.name))
  }

  ghost predicate NamesStored(t: seq<Client>) {
    forall c :: c in t ==> WithIdentity(c) == c
  }

  /** What a protocol's settings hold afterwards, key by key: the name where there is one, otherwise the
      user name, is the client's; every other setting is as it was. */
  lemma IdentityByKey(config: Config, name: string)
    ensures IdentityConfig(config, name).Keys == config.Keys
    ensures forall p :: p in config ==> IdentityConfig(config, name)[p].Keys == config[p].Keys
    ensures forall p, key :: p in config && key in config[p] ==>
              IdentityConfig(config, name)[p][key]
              == if name != "" && (key == "name" || (key == "username" && "name" !in config[p])) then name
                 else config[p][key]
  {
  }

  lemma IdentityIdempotent(c: Client)
    ensures WithIdentity(WithIdentity(c)) == WithIdentity(c)
  {
    var once := IdentityConfig(c.config, c.name);
    var twice := IdentityConfig(once, c.name);
    forall p | p in once ensures p in twice && twice[p] == once[p] {
      assert once[p] == if c.name == "" then c.config[p] else IdentitySettings(c.config[p], c.name);
    }
    assert twice.Keys == once.Keys;
    assert twice == once;
  }

  method SetConfigIdentity(c: Client) returns (r: Client)
    ensures r == WithIdentity(c)
  {
    if c.name == "" {
      return c;
    }
    var configs := c.config;
    var rest := configs.Keys;
    while rest != {}
      invariant rest <= configs.Keys == c.config.Keys
      invariant forall p :: p in configs ==>
                  configs[p] == if p in rest then c.config[p] else IdentitySettings(c.config[p], c.name)
      decreases rest
    {
      var p :| p in rest;
      rest := rest - {p};
      var cfg := configs[p];
      if "name" in cfg {
        cfg := cfg["name" := c.name];
      } else if "username" in cfg {
        cfg := cfg["username" := c.name];
      }
      configs := configs[p := cfg];
    }
    r := c.(config := configs);
  }

  // ---------- the change set of an edit ----------

  predicate SameFace(before: Client, after: Client) {
    before.config == after.config && before.name == after.name && before.enable == after.enable
  }

  function ChangeSet(before: Client, after: Client): set<nat> {
    if !SameFace(before, after) then ToSet(before.inbounds) + ToSet(after.inbounds)
    else (ToSet(before.inbounds) - ToSet(after.inbounds)) + (ToSet(after.inbounds) - ToSet(before.inbounds))
  }

  datatype Saved = Rejected | Saved(ids: seq<nat>)

  class ClientStore {
    var clients: seq<Client>

    constructor (initial: seq<Client>)
      ensures clients == initial
    {
      clients := initial;
    }

    /** A bulk edit omits links and config; they are filled in from the stored row. */
    method FindInboundsChanges(client: Client, fillOmitted: bool) returns (r: Option<(seq<nat>, Client)>)
      ensures r.None? <==> Find(clients, client.id).None?
      ensures r.Some? ==>
                && r.value.1 == (if fillOmitted then Merge(clients, client) else client)
                && ToSet(r.value.0) == RowChanges(clients, client.id, r.value.1)
      ensures r.Some? ==> exists before ::
                before in clients && before.id == client.id
                && r.value.1 == if fillOmitted then client.(links := before.links, config := before.config) else client
    {
      hide Find, ToSet;
      var found := Find(clients, client.id);
      if found.None? {
        return None;
      }
      var oldClient := found.value;
      var filled := client;
      if fillOmitted {
        filled := filled.(links := oldClient.links, config := oldClient.config);
      }
      if oldClient.config != filled.config || oldClient.name != filled.name || oldClient.enable != filled.enable {
        var union := UnionUintArray(oldClient.inbounds, filled.inbounds);
        return Some((union, filled));
      }
      var different := DiffUintArray(oldClient.inbounds, filled.inbounds);
      r := Some((different, filled));
    }

    method SaveNew(payload: Client) returns (r: Saved)
      modifies this
      ensures clients == Save(old(clients), WithIdentity(payload))
      ensures r == Saved(payload.inbounds)
    {
      var client := SetConfigIdentity(payload);
      clients := Save(clients, client);
      r := Saved(client.inbounds);
    }

    method SaveEdit(payload: Client) returns (r: Saved)
      modifies this
      ensures r.Rejected? <==> Find(old(clients), payload.id).None?
      ensures r.Rejected? ==> clients == old(clients)
      ensures r.Saved? ==> clients == Save(old(clients), WithIdentity(payload))
                           && ToSet(r.ids) == RowChanges(old(clients), payload.id, WithIdentity(payload))
    {
      var client := SetConfigIdentity(payload);
      var changes := FindInboundsChanges(client, false);
      if changes.None? {
        return Rejected;
      }
      clients := Save(clients, client);
      r := Saved(changes.value.0);
    }

    method SaveAddBulk(payload: seq<Client>) returns (r: Saved)
      modifies this
      ensures clients == SaveAll(old(clients), Identified(payload))
      ensures r.Saved? && ToSet(r.ids) == AllInbounds(payload)
    {
      var ids: seq<nat> := [];
      var rows: seq<Client> := [];
      for i := 0 to |payload|
        invariant clients == old(clients)
        invariant rows == Identified(payload[..i])
        invariant ToSet(ids) == AllInbounds(payload[..i])
      {
        assert payload[..i + 1] == payload[..i] + [payload[i]];
        var client := SetConfigIdentity(payload[i]);
        assert AllInbounds(payload[..i + 1]) == AllInbounds(payload[..i]) + ToSet(client.inbounds);
        ids := UnionUintArray(ids, client.inbounds);
        rows := rows + [client];
      }
      assert payload[..|payload|] == payload;
      clients := SaveAll(clients, rows);
      r := Saved(ids);
    }

    /** Every row is compared with the stored table, then all are saved. */
    method SaveEditBulk(payload: seq<Client>) returns (r: Saved)
      modifies this
      ensures r.Rejected? <==> exists c :: c in payload && Find(old(clients), c.id).None?
      ensures r.Rejected? ==> clients == old(clients)
      ensures r.Saved? ==> clients == SaveAll(old(clients), Merged(old(clients), payload))
                           && ToSet(r.ids) == BulkChanges(old(clients), payload)
      ensures r.Saved? && DistinctIds(old(clients)) ==> BulkEdited(old(clients), payload, clients)
    {
      hide WithIdentity, Merge, Merged, RowChanges, BulkChanges, SaveAll, Find;
      assert payload[..0] == [];
      BulkChangesEmpty(clients);
      var ids: seq<nat> := [];
      var rows: seq<Client> := [];
      for i := 0 to |payload|
        invariant clients == old(clients)
        invariant forall k :: 0 <= k < i ==> Find(clients, payload[k].id).Some?
        invariant rows == Merged(clients, payload[..i])
        invariant ToSet(ids) == BulkChanges(clients, payload[..i])
      {
        assert payload[..i + 1] == payload[..i] + [payload[i]];
        BulkChangesAppend(clients, payload[..i], payload[i]);
        assert payload[i] in payload;
        var changes := FindInboundsChanges(payload[i], true);
        if changes.None? {
          return Rejected;
        }
        var client := SetConfigIdentity(changes.value.1);
        if |changes.value.0| > 0 {
          ids := UnionUintArray(ids, changes.value.0);
        }
        rows := rows + [client];
      }
      assert payload[..|payload|] == payload;
      if DistinctIds(clients) {
        BulkEditRows(clients, payload);
      }
      clients := SaveAll(clients, rows);
      r := Saved(ids);
    }

    method SaveDelBulk(del: seq<nat>) returns (r: Saved)
      modifies this
      ensures r.Rejected? <==> exists id :: id in del && Find(old(clients), id).None?
      ensures r.Rejected? ==> clients == old(clients)
      ensures r.Saved? ==> clients == Delete(old(clients), ToSet(del))
                           && ToSet(r.ids) == DeletedInbounds(old(clients), del)
    {
      var ids: seq<nat> := [];
      for i := 0 to |del|
        invariant clients == old(clients)
        invariant forall k :: 0 <= k < i ==> Find(clients, del[k]).Some?
        invariant ToSet(ids) == DeletedInbounds(clients, del[..i])
      {
        assert del[..i + 1][..i] == del[..i];
        var row := Find(clients, del[i]);
        if row.None? {
          assert del[i] in del;
          return Rejected;
        }
        ids := UnionUintArray(ids, row.value.inbounds);
      }
      assert del[..|del|] == del;
      clients := Delete(clients, ToSet(del));
      r := Saved(ids);
    }

    method SaveDel(id: nat) returns (r: Saved)
      modifies this
      ensures r.Rejected? <==> Find(old(clients), id).None?
      ensures r.Rejected? ==> clients == old(clients)
      ensures r.Saved? ==> clients == Delete(old(clients), {id})
                           && r.ids == Find(old(clients), id).value.inbounds
    {
      var row := Find(clients, id);
      if row.None? {
        return Rejected;
      }
      clients := Delete(clients, {id});
      r := Saved(row.value.inbounds);
    }
  }

  function Identified(rows: seq<Client>): seq<Client> {
    seq(|rows|, i requires 0 <= i < |rows| => WithIdentity(rows[i]))
  }

  function AllInbounds(rows: seq<Client>): set<nat> {
    set c, x | c in rows && x in c.inbounds :: x
  }

  /** A bulk-edit row with the omitted columns of its stored row. */
  function Merge(t: seq<Client>, c: Client): Client {
    match Find(t, c.id)
    case None => c
    case Some(before) => c.(links := before.links, config := before.config)
  }

  function Merged(t: seq<Client>, rows: seq<Client>): seq<Client> {
    seq(|rows|, i requires 0 <= i < |rows| => WithIdentity(Merge(t, rows[i])))
  }

  /** The inbounds affected when row `id` becomes `after`. */
  function RowChanges(t: seq<Client>, id: nat, after: Client): set<nat> {
    match Find(t, id)
    case None => {}
    case Some(before) => ChangeSet(before, after)
  }

  function BulkChanges(t: seq<Client>, rows: seq<Client>): set<nat> {
    if rows == [] then {}
    else BulkChanges(t, rows[..|rows| - 1]) + RowChanges(t, rows[|rows| - 1].id, Merge(t, rows[|rows| - 1]))
  }

  lemma BulkChangesEmpty(t: seq<Client>)
    ensures BulkChanges(t, []) == ToSet([]) && Merged(t, []) == []
  {
  }

  lemma BulkChangesAppend(t: seq<Client>, rows: seq<Client>, c: Client)
    ensures Merged(t, rows + [c]) == Merged(t, rows) + [WithIdentity(Merge(t, c))]
    ensures BulkChanges(t, rows + [c]) == BulkChanges(t, rows) + RowChanges(t, c.id, Merge(t, c))
  {
    assert (rows + [c])[..|rows|] == rows;
  }

  lemma {:induction false} BulkChangesCover(t: seq<Client>, rows: seq<Client>, c: Client)
    requires c in rows
    ensures RowChanges(t, c.id, Merge(t, c)) <= BulkChanges(t, rows)
  {
    hide RowChanges, Merge;
    var n := |rows| - 1;
    assert rows == rows[..n] + [rows[n]];
    if c in rows[..n] {
      BulkChangesCover(t, rows[..n], c);
    }
  }

  function DeletedInbounds(t: seq<Client>, ids: seq<nat>): set<nat> {
    if ids == [] then {}
    else
      DeletedInbounds(t, ids[..|ids| - 1])
      + match Find(t, ids[|ids| - 1]) { case None => {} case Some(c) => ToSet(c.inbounds) }
  }

  // ---------- the operations row by row ----------

  /** The listed rows keep the links and the settings they had, with the names rewritten, and take every
      other column from the last payload row with their id; the other rows stay. */
  ghost predicate BulkEdited(t: seq<Client>, payload: seq<Client>, r: seq<Client>) {
    && |r| == |t|
    && (forall k :: 0 <= k < |t| && (forall j :: 0 <= j < |payload| ==> payload[j].id != t[k].id) ==> r[k] == t[k])
    && (forall k, j :: 0 <= k < |t| && LastWithId(payload, j) && payload[j].id == t[k].id ==>
          r[k] == payload[j].(links := t[k].links, config := IdentityConfig(t[k].config, payload[j].name)))
  }

  lemma BulkEditRows(t: seq<Client>, payload: seq<Client>)
    requires DistinctIds(t) && forall j :: 0 <= j < |payload| ==> Find(t, payload[j].id).Some?
    ensures BulkEdited(t, payload, SaveAll(t, Merged(t, payload)))
  {
    hide SaveAll, IdentityConfig, Find;
    var rows := Merged(t, payload);
    assert forall j :: 0 <= j < |payload| ==> rows[j].id == payload[j].id;
    assert forall x :: x in rows ==> exists j :: 0 <= j < |payload| && x == rows[j];
    SaveAllInPlace(t, rows);
    var r := SaveAll(t, rows);
    forall k | 0 <= k < |t| ensures Find(r, t[k].id) == Some(r[k]) && Find(t, t[k].id) == Some(t[k]) {
      FindUnique(t, k);
      FindUnique(r, k);
    }
    forall k | 0 <= k < |t| && forall j :: 0 <= j < |payload| ==> payload[j].id != t[k].id ensures r[k] == t[k] {
      FindSavedAll(t, rows, t[k].id);
    }
    forall k, j | 0 <= k < |t| && LastWithId(payload, j) && payload[j].id == t[k].id
      ensures r[k] == payload[j].(links := t[k].links, config := IdentityConfig(t[k].config, payload[j].name))
    {
      FindSavedAll(t, rows, t[k].id);
      assert LastWithId(rows, j);
    }
  }

  /** A bulk "new" stores every last listing of an id, with the names rewritten, and no other id changes. */
  lemma AddBulkRows(t: seq<Client>, payload: seq<Client>, id: nat)
    ensures forall j :: LastWithId(payload, j) && payload[j].id == id ==>
              Find(SaveAll(t, Identified(payload)), id)
              == Some(payload[j].(config := IdentityConfig(payload[j].config, payload[j].name)))
    ensures (forall j :: 0 <= j < |payload| ==> payload[j].id != id) ==>
              Find(SaveAll(t, Identified(payload)), id) == Find(t, id)
  {
    hide SaveAll, IdentityConfig, Find;
    var rows := Identified(payload);
    assert forall j :: 0 <= j < |payload| ==> rows[j].id == payload[j].id;
    FindSavedAll(t, rows, id);
    forall j | LastWithId(payload, j) && payload[j].id == id ensures LastWithId(rows, j) {
    }
  }

  /** An id is in the change set of an edit if and only if the client had or has it, and not both unless
      its settings, name or enable flag changed. */
  lemma ChangeSetByColumn(before: Client, after: Client, x: nat)
    ensures x in ChangeSet(before, after) <==>
            (x in before.inbounds || x in after.inbounds)
            && (before.config != after.config || before.name != after.name || before.enable != after.enable
                || !(x in before.inbounds && x in after.inbounds))
  {
  }

  lemma {:induction false} BulkChangesExact(t: seq<Client>, rows: seq<Client>, x: nat)
    ensures x in BulkChanges(t, rows) <==> exists c :: c in rows && x in RowChanges(t, c.id, Merge(t, c))
  {
    hide RowChanges, Merge;
    if rows != [] {
      var n := |rows| - 1;
      BulkChangesExact(t, rows[..n], x);
      assert rows == rows[..n] + [rows[n]];
    }
  }

  /** A deletion reports exactly the inbounds of the rows that go. */
  lemma {:induction false} DeletedInboundsExact(t: seq<Client>, ids: seq<nat>, x: nat)
    requires DistinctIds(t)
    ensures x in DeletedInbounds(t, ids) <==> exists k :: 0 <= k < |t| && t[k].id in ids && x in t[k].inbounds
  {
    hide Find;
    if ids != [] {
      var n := |ids| - 1;
      DeletedInboundsExact(t, ids[..n], x);
      assert ids == ids[..n] + [ids[n]];
      forall k | 0 <= k < |t| ensures Find(t, t[k].id) == Some(t[k]) {
        FindUnique(t, k);
      }
      if Find(t, ids[n]).Some? {
        var k :| 0 <= k < |t| && t[k] == Find(t, ids[n]).value;
      }
      assert forall k :: 0 <= k < |t| ==> t[k] in t;
    }
  }
}
