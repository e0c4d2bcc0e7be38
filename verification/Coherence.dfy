/** The running core always serves what the client table says, although each operation refreshes only
the inbounds it reports. */
module Coherence {
  import opened Model
  import opened UintArrays
  import opened ClientSave
  import opened Lifecycle
  import LifecycleRuns
  import opened InboundUsers
  import opened Panel

  // ---------- the change set of one edit ----------

  /** A stored row keeps its ban flag, so an inbound outside the change set keeps its user entry. */
  lemma ChangeSetSound(before: Client, after: Client, inb: Inbound, live: bool)
    requires before.banned == after.banned
    requires inb.id !in ChangeSet(before, after)
    ensures EntryOf(before, inb, live) == EntryOf(after, inb, live)
  {
  }

  /** The one way an edit can slip through: it flips only the ban flag of an enabled client. */
  predicate BanSlipsThrough(before: Client, after: Client, inb: Inbound, live: bool) {
    && live && inb.kind == "hysteria2" && inb.id in before.inbounds && inb.id in after.inbounds
    && SameFace(before, after) && before.enable && HasHy2Password(before)
    && before.config["hysteria2"]["password"] != "" && before.banned != after.banned
  }

  lemma ChangeSetExact(before: Client, after: Client, inb: Inbound, live: bool)
    ensures inb.id !in ChangeSet(before, after) && EntryOf(before, inb, live) != EntryOf(after, inb, live)
            <==> BanSlipsThrough(before, after, inb, live)
  {
  }

  // ---------- the table as a whole ----------

  lemma {:induction false} EntriesPointwise(t: seq<Client>, t': seq<Client>, inb: Inbound, live: bool)
    requires |t| == |t'|
    requires forall k :: 0 <= k < |t| ==> EntryOf(t[k], inb, live) == EntryOf(t'[k], inb, live)
    ensures Entries(t, inb, live) == Entries(t', inb, live)
  {
    hide EntryOf;
    if t != [] {
      EntriesPointwise(t[1..], t'[1..], inb, live);
    }
  }

  /** Saving `r` leaves the inbound's users as they are. */
  predicate Harmless(t: seq<Client>, r: Client, inb: Inbound, live: bool) {
    EntryOf(r, inb, live) == match Find(t, r.id) { case None => None case Some(c) => EntryOf(c, inb, live) }
  }

  lemma {:induction false} SaveKeepsEntries(t: seq<Client>, r: Client, inb: Inbound, live: bool)
    requires Harmless(t, r, inb, live)
    ensures Entries(Save(t, r), inb, live) == Entries(t, inb, live)
  {
    hide EntryOf;
    if t != [] && t[0].id != r.id {
      assert Save(t, r)[1..] == Save(t[1..], r);
      SaveKeepsEntries(t[1..], r, inb, live);
    } else if t != [] {
      assert Save(t, r)[1..] == t[1..];
    }
  }

  lemma Cancel(a: seq<Entry>, x: seq<Entry>, y: seq<Entry>)
    ensures a + x == a + y <==> x == y
  {
    assert (a + x)[|a|..] == x && (a + y)[|a|..] == y;
  }

  /** Saving a row keeps the inbound's users only if it is harmless. */
  lemma {:induction false} SaveExact(t: seq<Client>, r: Client, inb: Inbound, live: bool)
    ensures Entries(Save(t, r), inb, live) == Entries(t, inb, live) <==> Harmless(t, r, inb, live)
  {
    hide EntryOf;
    if t == [] {
      assert [r][1..] == [];
    } else if t[0].id != r.id {
      assert Save(t, r)[1..] == Save(t[1..], r);
      SaveExact(t[1..], r, inb, live);
      Cancel(Listed(EntryOf(t[0], inb, live)), Entries(Save(t[1..], r), inb, live), Entries(t[1..], inb, live));
    } else {
      assert Save(t, r)[1..] == t[1..];
      var before, after, rest := EntryOf(t[0], inb, live), EntryOf(r, inb, live), Entries(t[1..], inb, live);
      assert |Listed(before) + rest| == |Listed(after) + rest| ==> (before.Some? <==> after.Some?);
      assert before.Some? && after.Some? ==>
          (Listed(before) + rest)[0] == before.value && (Listed(after) + rest)[0] == after.value;
    }
  }

  lemma {:induction false} SaveAllKeepsEntries(t: seq<Client>, rows: seq<Client>, inb: Inbound, live: bool)
    requires forall r :: r in rows ==> Harmless(t, r, inb, live)
    ensures Entries(SaveAll(t, rows), inb, live) == Entries(t, inb, live)
    decreases |rows|
  {
    hide EntryOf, Find, Save;
    if rows != [] {
      assert rows[0] in rows;
      SaveKeepsEntries(t, rows[0], inb, live);
      forall r | r in rows[1..] ensures Harmless(Save(t, rows[0]), r, inb, live) {
        assert r in rows;
        FindSaved(t, rows[0], r.id);
      }
      SaveAllKeepsEntries(Save(t, rows[0]), rows[1..], inb, live);
    }
  }

  // ---------- table invariants ----------

  ghost predicate ValidTable(t: seq<Client>) {
    DistinctIds(t) && NamesStored(t)
  }

  lemma SaveValid(t: seq<Client>, r: Client)
    requires ValidTable(t) && WithIdentity(r) == r
    ensures ValidTable(Save(t, r))
  {
    hide WithIdentity;
    SaveRows(t, r);
    var s := Save(t, r);
    forall c | c in s ensures WithIdentity(c) == c {
      var k :| 0 <= k < |s| && s[k] == c;
      assert k < |t| ==> t[k] in t;
    }
  }

  lemma {:induction false} SaveAllValid(t: seq<Client>, rows: seq<Client>)
    requires ValidTable(t) && forall r :: r in rows ==> WithIdentity(r) == r
    ensures ValidTable(SaveAll(t, rows))
    decreases |rows|
  {
    hide WithIdentity, Save, ValidTable;
    if rows != [] {
      assert rows[0] in rows;
      SaveValid(t, rows[0]);
      SaveAllValid(Save(t, rows[0]), rows[1..]);
    }
  }

  lemma DeleteValid(t: seq<Client>, ids: set<nat>)
    requires ValidTable(t)
    ensures ValidTable(Delete(t, ids))
  {
    hide WithIdentity;
    var p := (c: Client) => c.id !in ids;
    SelectDistinct(t, p);
    SelectElements(t, p);
  }

  lemma TickKeepsFace(c: Client, dt: int)
    ensures var d := TickRow(c, dt);
            && d.id == c.id && d.name == c.name && d.config == c.config && d.inbounds == c.inbounds
            && d.banned == c.banned
  {
  }

  /** Ticks and bans do not touch ids, names or settings. */
  lemma PointwiseValid(t: seq<Client>, t': seq<Client>)
    requires ValidTable(t) && |t'| == |t|
    requires forall k :: 0 <= k < |t| ==> t'[k].id == t[k].id && t'[k].name == t[k].name && t'[k].config == t[k].config
    ensures ValidTable(t')
  {
    hide IdentityConfig;
    forall c | c in t' ensures WithIdentity(c) == c {
      var k :| 0 <= k < |t'| && t'[k] == c;
      assert WithIdentity(t[k]) == t[k];
    }
  }

  lemma AfterValid(t: seq<Client>, op: Op)
    requires ValidTable(t)
    ensures ValidTable(After(t, op))
  {
    hide ValidTable, WithIdentity, Save, SaveAll, Delete, TickTable, BanTable, TickRow;
    match op
    case New(c) => IdentityIdempotent(c); SaveValid(t, WithIdentity(c));
    case Edit(c) => IdentityIdempotent(c); SaveValid(t, WithIdentity(c));
    case AddBulk(rows) =>
      forall r | r in Identified(rows) ensures WithIdentity(r) == r {
        var k :| 0 <= k < |rows| && r == WithIdentity(rows[k]);
        IdentityIdempotent(rows[k]);
      }
      SaveAllValid(t, Identified(rows));
    case EditBulk(rows) =>
      forall r | r in Merged(t, rows) ensures WithIdentity(r) == r {
        var k :| 0 <= k < |rows| && r == WithIdentity(Merge(t, rows[k]));
        IdentityIdempotent(Merge(t, rows[k]));
      }
      SaveAllValid(t, Merged(t, rows));
    case Del(id) => DeleteValid(t, {id});
    case DelBulk(ids) => DeleteValid(t, ToSet(ids));
    case Ban(id, banned, now) => BanValid(t, id, banned, now);
    case Tick(dt) => TickValid(t, dt);
  }

  lemma BanValid(t: seq<Client>, id: nat, banned: bool, now: int)
    requires ValidTable(t)
    ensures ValidTable(BanTable(t, id, banned, now))
  {
    hide ValidTable;
    PointwiseValid(t, BanTable(t, id, banned, now));
  }

  lemma TickValid(t: seq<Client>, dt: int)
    requires ValidTable(t)
    ensures ValidTable(TickTable(t, dt))
  {
    hide ValidTable, TickRow;
    forall k | 0 <= k < |t| ensures TickRow(t[k], dt).id == t[k].id && TickRow(t[k], dt).name == t[k].name
                                    && TickRow(t[k], dt).config == t[k].config
    {
      TickKeepsFace(t[k], dt);
    }
    PointwiseValid(t, TickTable(t, dt));
  }

  // ---------- an inbound that is not reported keeps its users ----------

  /** A stored row that a "new" overwrites does not serve this inbound, unless it is reported; and no
      edit flips only the ban flag of a served client. */
  ghost predicate CarefulAt(t: seq<Client>, op: Op, inb: Inbound, live: bool) {
    match op
    case New(c) => inb.id !in c.inbounds ==> NotServed(t, c, inb, live)
    case AddBulk(rows) => inb.id !in AllInbounds(rows) ==> forall c :: c in rows ==> NotServed(t, c, inb, live)
    case Edit(c) => Find(t, c.id).Some? ==> !BanSlipsThrough(Find(t, c.id).value, WithIdentity(c), inb, live)
    case EditBulk(rows) =>
      forall c :: c in rows && Find(t, c.id).Some? ==> !BanSlipsThrough(Find(t, c.id).value, Merge(t, c), inb, live)
    case _ => true
  }

  /** The row with the payload's id, if there is one, is not a user of the inbound. */
  predicate NotServed(t: seq<Client>, c: Client, inb: Inbound, live: bool) {
    Find(t, c.id).Some? ==> EntryOf(Find(t, c.id).value, inb, live) == None
  }

  ghost predicate Careful(t: seq<Client>, op: Op, inbounds: seq<Inbound>, live: bool) {
    forall k :: 0 <= k < |inbounds| ==> CarefulAt(t, op, inbounds[k], live)
  }

  lemma NotAttached(c: Client, inb: Inbound, live: bool)
    requires inb.id !in c.inbounds
    ensures EntryOf(c, inb, live) == None
  {
  }

  lemma EditHarmless(t: seq<Client>, c: Client, inb: Inbound, live: bool)
    requires Find(t, c.id).Some?
    requires inb.id !in RowChanges(t, c.id, WithIdentity(c))
    ensures Harmless(t, WithIdentity(c), inb, live)
            <==> !BanSlipsThrough(Find(t, c.id).value, WithIdentity(c), inb, live)
  {
    hide EntryOf, ChangeSet, Find, IdentityConfig, BanSlipsThrough;
    ChangeSetExact(Find(t, c.id).value, WithIdentity(c), inb, live);
  }

  /** A bulk edit compares before it rewrites the names; stored names make that harmless. */
  lemma BulkEditHarmless(t: seq<Client>, c: Client, inb: Inbound, live: bool)
    requires NamesStored(t)
    requires Find(t, c.id).Some? && !BanSlipsThrough(Find(t, c.id).value, Merge(t, c), inb, live)
    requires inb.id !in RowChanges(t, c.id, Merge(t, c))
    ensures Harmless(t, WithIdentity(Merge(t, c)), inb, live)
  {
    hide EntryOf, Find, IdentityConfig, BanSlipsThrough;
    var before, merged := Find(t, c.id).value, Merge(t, c);
    if SameFace(before, merged) {
      assert WithIdentity(before) == before;
      assert WithIdentity(merged) == merged;
      ChangeSetExact(before, merged, inb, live);
    } else {
      NotAttached(before, inb, live);
      NotAttached(WithIdentity(merged), inb, live);
    }
  }

  lemma {:induction false} DeletedCover(t: seq<Client>, ids: seq<nat>, c: Client)
    requires Find(t, c.id) == Some(c) && c.id in ids
    ensures ToSet(c.inbounds) <= DeletedInbounds(t, ids)
  {
    hide ToSet, Find;
    var n := |ids| - 1;
    assert ids == ids[..n] + [ids[n]];
    if c.id in ids[..n] {
      DeletedCover(t, ids[..n], c);
    }
  }

  lemma DeleteKeepsEntries(t: seq<Client>, ids: seq<nat>, inb: Inbound, live: bool)
    requires DistinctIds(t)
    requires inb.id !in DeletedInbounds(t, ids)
    ensures Entries(Delete(t, ToSet(ids)), inb, live) == Entries(t, inb, live)
  {
    hide Entries, EntryOf, DeletedInbounds, Select, Find;
    var kept := (c: Client) => c.id !in ToSet(ids);
    forall c | c in t && EntryOf(c, inb, live).Some? ensures kept(c) {
      if c.id in ids {
        var k :| 0 <= k < |t| && t[k] == c;
        FindUnique(t, k);
        DeletedCover(t, ids, c);
        NotAttached(c, inb, live);
      }
    }
    EntriesOfSelected(t, kept, inb, live);
  }

  lemma TickKeepsEntries(t: seq<Client>, dt: int, inb: Inbound, live: bool)
    requires inb.id !in TickInbounds(t, dt)
    ensures Entries(TickTable(t, dt), inb, live) == Entries(t, inb, live)
  {
    hide Entries, TickInbounds, EntryOf, TickRow;
    forall k | 0 <= k < |t| ensures EntryOf(t[k], inb, live) == EntryOf(TickTable(t, dt)[k], inb, live) {
      TickRowEntry(t, dt, k, inb, live);
    }
    EntriesPointwise(t, TickTable(t, dt), inb, live);
  }

  lemma TickRowEntry(t: seq<Client>, dt: int, k: nat, inb: Inbound, live: bool)
    requires k < |t| && inb.id !in TickInbounds(t, dt)
    ensures EntryOf(t[k], inb, live) == EntryOf(TickRow(t[k], dt), inb, live)
  {
    hide TickInbounds, TickRow;
    TickKeepsFace(t[k], dt);
    if TickRow(t[k], dt).enable != t[k].enable {
      LifecycleRuns.TickCoversChanges(t, dt, k);
      NotAttached(t[k], inb, live);
      NotAttached(TickRow(t[k], dt), inb, live);
    }
  }

  lemma BanKeepsEntries(t: seq<Client>, id: nat, banned: bool, now: int, inb: Inbound, live: bool)
    requires DistinctIds(t)
    requires inb.id !in DeletedInbounds(t, [id])
    ensures Entries(BanTable(t, id, banned, now), inb, live) == Entries(t, inb, live)
  {
    hide Entries, EntryOf, DeletedInbounds, Find, OverLimit;
    forall k | 0 <= k < |t| && t[k].id == id
      ensures EntryOf(t[k], inb, live) == None && EntryOf(BanRow(t[k], banned, now), inb, live) == None
    {
      FindUnique(t, k);
      DeletedCover(t, [id], t[k]);
      NotAttached(t[k], inb, live);
      NotAttached(BanRow(t[k], banned, now), inb, live);
    }
    EntriesPointwise(t, BanTable(t, id, banned, now), inb, live);
  }

  /** The reported ids cover every change of the desired users. */
  lemma AffectedIsEnough(t: seq<Client>, op: Op, inb: Inbound, live: bool)
    requires ValidTable(t) && Accepted(t, op) && CarefulAt(t, op, inb, live)
    requires inb.id !in Affected(t, op)
    ensures Desired(After(t, op), inb, live) == Desired(t, inb, live)
  {
    hide Entries, EntryOf, Find, Save, SaveAll, Delete, DeletedInbounds, BanTable, TickTable, TickInbounds, RowChanges,
         BulkChanges, WithIdentity, UserMap, Harmless, Merge, NotServed, BanSlipsThrough;
    match op
    case New(c) => NewHarmless(t, c, inb, live); SaveKeepsEntries(t, WithIdentity(c), inb, live);
    case Edit(c) => EditHarmless(t, c, inb, live); SaveKeepsEntries(t, WithIdentity(c), inb, live);
    case AddBulk(rows) =>
      forall r | r in Identified(rows) ensures Harmless(t, r, inb, live) {
        var k :| 0 <= k < |rows| && r == WithIdentity(rows[k]);
        assert rows[k] in rows;
        NewHarmless(t, rows[k], inb, live);
      }
      SaveAllKeepsEntries(t, Identified(rows), inb, live);
    case EditBulk(rows) =>
      forall r | r in Merged(t, rows) ensures Harmless(t, r, inb, live) {
        var k :| 0 <= k < |rows| && r == WithIdentity(Merge(t, rows[k]));
        assert rows[k] in rows;
        BulkChangesCover(t, rows, rows[k]);
        BulkEditHarmless(t, rows[k], inb, live);
      }
      SaveAllKeepsEntries(t, Merged(t, rows), inb, live);
    case Del(id) => DeleteKeepsEntries(t, [id], inb, live); assert ToSet([id]) == {id};
    case DelBulk(ids) => DeleteKeepsEntries(t, ids, inb, live);
    case Ban(id, banned, now) => BanKeepsEntries(t, id, banned, now, inb, live);
    case Tick(dt) => TickKeepsEntries(t, dt, inb, live);
  }

  lemma NewHarmless(t: seq<Client>, c: Client, inb: Inbound, live: bool)
    requires NotServed(t, c, inb, live) && inb.id !in c.inbounds
    ensures Harmless(t, WithIdentity(c), inb, live)
  {
    hide EntryOf, Find;
    NotAttached(WithIdentity(c), inb, live);
  }

  // ---------- runs ----------

  /** `stale` holds the ids whose last refresh failed. */
  datatype State = State(clients: seq<Client>, core: Core, stale: set<nat>)

  /** What SaveClients, BanClient and RunDepleteJob promise, in one relation: nothing happened, or the
      operation was accepted and its inbounds were refreshed or count as stale. */
  ghost predicate Stepped(s: State, op: Op, s': State, inbounds: seq<Inbound>, live: bool) {
    var ids := Affected(s.clients, op);
    s' == s
    || (&& Accepted(s.clients, op) && Outside(s.core, s'.core, inbounds, ids)
        && if Refreshed(s'.core, After(s.clients, op), inbounds, ids, live) && s'.clients == After(s.clients, op)
           then s'.stale == s.stale - ids
           else s'.stale == s.stale + ids && s'.clients == if IsSave(op) then s.clients else After(s.clients, op))
  }

  ghost predicate Coherent(s: State, inbounds: seq<Inbound>, live: bool) {
    forall k :: 0 <= k < |inbounds| && inbounds[k].id !in s.stale && Desired(s.clients, inbounds[k], live).Some?
                ==> Serves(s.core, inbounds[k].tag, Desired(s.clients, inbounds[k], live))
  }

  lemma OutsideKeeps(a: Core, b: Core, inbounds: seq<Inbound>, ids: set<nat>, k: nat)
    requires ValidInbounds(inbounds) && k < |inbounds| && inbounds[k].id !in ids
    requires Outside(a, b, inbounds, ids)
    ensures SameAt(a, b, inbounds[k].tag)
  {
    assert !TagAmong(inbounds, ids, inbounds[k].tag);
  }

  lemma StepCoherent(s: State, op: Op, s': State, inbounds: seq<Inbound>, live: bool)
    requires ValidTable(s.clients) && ValidInbounds(inbounds) && Careful(s.clients, op, inbounds, live)
    requires Coherent(s, inbounds, live) && Stepped(s, op, s', inbounds, live)
    ensures ValidTable(s'.clients) && Coherent(s', inbounds, live)
  {
    hide Desired, After, Affected, Accepted, CarefulAt, ValidTable, ValidInbounds, Outside, SameAt;
    AfterValid(s.clients, op);
    if s' != s {
      var ids := Affected(s.clients, op);
      forall k | 0 <= k < |inbounds| && inbounds[k].id !in s'.stale && Desired(s'.clients, inbounds[k], live).Some?
        ensures Serves(s'.core, inbounds[k].tag, Desired(s'.clients, inbounds[k], live))
      {
        if inbounds[k].id !in ids {
          AffectedIsEnough(s.clients, op, inbounds[k], live);
          OutsideKeeps(s.core, s'.core, inbounds, ids, k);
          ServesSame(s.core, s'.core, inbounds[k].tag, Desired(s.clients, inbounds[k], live));
        }
      }
    }
  }

  lemma ServesSame(a: Core, b: Core, tag: string, want: Option<Serving>)
    requires SameAt(a, b, tag) && Serves(a, tag, want)
    ensures Serves(b, tag, want)
  {
  }

  ghost predicate ValidRun(states: seq<State>, ops: seq<Op>, inbounds: seq<Inbound>, live: bool) {
    |states| == |ops| + 1
    && forall i :: 0 <= i < |ops| ==>
         Careful(states[i].clients, ops[i], inbounds, live) && Stepped(states[i], ops[i], states[i + 1], inbounds, live)
  }

  /** After any run, failures included, every inbound whose last refresh succeeded serves exactly what
      the whole client table asks for. */
  lemma {:induction false} RunCoherent(states: seq<State>, ops: seq<Op>, inbounds: seq<Inbound>, live: bool, n: nat)
    requires ValidInbounds(inbounds) && ValidRun(states, ops, inbounds, live) && n <= |ops|
    requires ValidTable(states[0].clients) && Coherent(states[0], inbounds, live)
    ensures ValidTable(states[n].clients) && Coherent(states[n], inbounds, live)
  {
    hide ValidTable, Coherent, Stepped, ValidInbounds, Careful;
    if n > 0 {
      RunCoherent(states, ops, inbounds, live, n - 1);
      StepCoherent(states[n - 1], ops[n - 1], states[n], inbounds, live);
    }
  }

  /** With live update on and the last refresh good, the user map of a running hysteria2 inbound is
      the map computed from the whole table. */
  lemma LiveMapIsTable(s: State, inbounds: seq<Inbound>, k: nat)
    requires Coherent(s, inbounds, true) && k < |inbounds|
    requires inbounds[k].kind == "hysteria2" && inbounds[k].id !in s.stale
    ensures inbounds[k].tag in s.core
            && s.core[inbounds[k].tag] == Hy2(UserMap(Entries(s.clients, inbounds[k], true)))
  {
    hide Entries, UserMap;
    EntrySource(s.clients, inbounds[k], true, Unreadable);
    assert Desired(s.clients, inbounds[k], true).Some?;
  }

  // ---------- the service itself ----------

  ghost function Next(s: State, op: Op, clients: seq<Client>, core: Core, inbounds: seq<Inbound>, live: bool): State {
    var ids := Affected(s.clients, op);
    if Refreshed(core, After(s.clients, op), inbounds, ids, live) && clients == After(s.clients, op)
    then State(clients, core, s.stale - ids)
    else State(clients, core, s.stale + ids)
  }

  /** Any operation of the running service keeps it coherent outside the inbounds whose last refresh
      failed; a successful one takes its inbounds off that list. */
  method Perform(panel: PanelService, op: Op, loginUser: string, stuck: set<string>, refused: set<string>,
                 txFails: bool, ghost stale: set<nat>)
    returns (r: Outcome, ghost stale': set<nat>)
    requires panel.running && ValidTable(panel.clients) && ValidInbounds(panel.inbounds)
    requires Careful(panel.clients, op, panel.inbounds, panel.liveUpdate)
    requires Coherent(State(panel.clients, panel.core, stale), panel.inbounds, panel.liveUpdate)
    modifies panel`clients, panel`core
    ensures Stepped(State(old(panel.clients), old(panel.core), stale), op, State(panel.clients, panel.core, stale'),
                    panel.inbounds, panel.liveUpdate)
    ensures ValidTable(panel.clients)
    ensures Coherent(State(panel.clients, panel.core, stale'), panel.inbounds, panel.liveUpdate)
    ensures r.Refused? <==> !Accepted(old(panel.clients), op) || (!IsSave(op) && txFails)
    ensures r.Done? ==> stale' == stale - Affected(old(panel.clients), op)
    ensures r.Done? <==> Accepted(old(panel.clients), op) && !txFails
                         && AllRefreshable(old(panel.core), After(old(panel.clients), op), panel.inbounds,
                                           Affected(old(panel.clients), op), panel.liveUpdate, stuck, refused)
  {
    hide Accepted, After, Affected, Careful, Coherent, NamesStored, DistinctIds, ValidInbounds, Outside, Refreshed,
         AllRefreshable;
    ghost var before := State(panel.clients, panel.core, stale);
    if op.Ban? {
      r := panel.BanClient(op.clientId, op.banned, loginUser, op.now, stuck, refused, txFails);
    } else if op.Tick? {
      TickAccepted(panel.clients, op.dt);
      r := panel.RunDepleteJob(op.dt, stuck, refused, txFails);
    } else {
      r := panel.SaveClients(op, stuck, refused, txFails);
    }
    ghost var next := Next(before, op, panel.clients, panel.core, panel.inbounds, panel.liveUpdate);
    stale' := if r.Refused? then stale else next.stale;
    StepCoherent(before, op, State(panel.clients, panel.core, stale'), panel.inbounds, panel.liveUpdate);
  }

  /** With live update on, an operation that affects only running hysteria2 inbounds, none of them stale,
      never fails to be applied, whatever the core refuses. */
  lemma LiveNeverFails(s: State, op: Op, inbounds: seq<Inbound>, stuck: set<string>, refused: set<string>)
    requires Coherent(s, inbounds, true)
    requires forall k :: 0 <= k < |inbounds| && inbounds[k].id in Affected(s.clients, op) ==>
               inbounds[k].kind == "hysteria2" && inbounds[k].id !in s.stale
    ensures AllRefreshable(s.core, After(s.clients, op), inbounds, Affected(s.clients, op), true, stuck, refused)
  {
    hide Coherent, Affected, After, Entries, UserMap, Readable;
    forall k | 0 <= k < |inbounds| && inbounds[k].id in Affected(s.clients, op)
      ensures Refreshable(s.core, After(s.clients, op), inbounds[k], true, stuck, refused)
    {
      LiveMapIsTable(s, inbounds, k);
    }
  }

  lemma TickAccepted(t: seq<Client>, dt: int)
    ensures Accepted(t, Tick(dt))
  {
  }

  // ---------- starting ----------

  /** What the core serves after a start, when every inbound's users can be read. */
  ghost predicate Started(core: Core, t: seq<Client>, inbounds: seq<Inbound>) {
    forall k :: 0 <= k < |inbounds| ==> Serves(core, inbounds[k].tag, Desired(t, inbounds[k], false))
  }

  ghost predicate AllAligned(t: seq<Client>, inb: Inbound) {
    forall c :: c in t && Selected(c, inb) ==> Aligned(c)
  }

  /** A start is coherent for live updates when the selected clients of hysteria2 inbounds are aligned. */
  lemma StartCoherent(s: State, inbounds: seq<Inbound>, live: bool)
    requires Started(s.core, s.clients, inbounds)
    requires forall k :: 0 <= k < |inbounds| && inbounds[k].kind == "hysteria2" ==> AllAligned(s.clients, inbounds[k])
    ensures Coherent(s, inbounds, live)
  {
    hide Desired, Entries;
    forall k | 0 <= k < |inbounds|
      ensures Desired(s.clients, inbounds[k], live) == Desired(s.clients, inbounds[k], false)
    {
      if inbounds[k].kind == "hysteria2" {
        LiveEqualsRestart(s.clients, inbounds[k]);
      } else {
        DesiredSameReading(s.clients, inbounds[k]);
      }
    }
  }

  /** Rows saved by the panel are aligned: names are rewritten on every save, and a ban disables. */
  lemma StoredRowsAligned(t: seq<Client>, inb: Inbound)
    requires NamesStored(t)
    requires forall c :: c in t && c.banned ==> !c.enable
    requires forall c :: c in t && Selected(c, inb) ==>
               c.name != "" && HasHy2Password(c) && c.config["hysteria2"]["password"] != ""
               && "name" in c.config["hysteria2"]
    ensures AllAligned(t, inb)
  {
    forall c | c in t && Selected(c, inb) ensures Aligned(c) {
      assert WithIdentity(c).config["hysteria2"] == c.config["hysteria2"];
    }
  }

  lemma DesiredSameReading(t: seq<Client>, inb: Inbound)
    requires inb.kind != "hysteria2"
    ensures Desired(t, inb, true) == Desired(t, inb, false)
  {
    SameReading(t, inb);
  }

  // ---------- exactly how careful the operations must be ----------

  /** A "new" keeps an unreported inbound's users if and only if a stored row with its id, which it
      overwrites, is not one of them. */
  lemma NewExact(t: seq<Client>, c: Client, inb: Inbound, live: bool)
    requires inb.id !in c.inbounds
    ensures Entries(After(t, New(c)), inb, live) == Entries(t, inb, live) <==> NotServed(t, c, inb, live)
  {
    hide EntryOf, Find, Entries, Save;
    NotAttached(WithIdentity(c), inb, live);
    SaveExact(t, WithIdentity(c), inb, live);
  }

  /** An edit keeps an unreported inbound's users if and only if it does not slip a ban flag through. */
  lemma EditExact(t: seq<Client>, c: Client, inb: Inbound, live: bool)
    requires Find(t, c.id).Some? && inb.id !in RowChanges(t, c.id, WithIdentity(c))
    ensures Entries(After(t, Edit(c)), inb, live) == Entries(t, inb, live)
            <==> !BanSlipsThrough(Find(t, c.id).value, WithIdentity(c), inb, live)
  {
    hide EntryOf, Find, Entries, Save, RowChanges, BanSlipsThrough, Harmless;
    EditHarmless(t, c, inb, live);
    SaveExact(t, WithIdentity(c), inb, live);
  }

  /** A row without an entry takes away the entry of the row it overwrites. */
  lemma {:induction false} SaveDrops(t: seq<Client>, r: Client, inb: Inbound, live: bool)
    requires EntryOf(r, inb, live) == None
    ensures |Entries(Save(t, r), inb, live)| + (if NotServed(t, r, inb, live) then 0 else 1) == |Entries(t, inb, live)|
  {
    hide EntryOf;
    if t == [] {
      assert [r][1..] == [];
    } else if t[0].id != r.id {
      assert Save(t, r)[1..] == Save(t[1..], r);
      SaveDrops(t[1..], r, inb, live);
    } else {
      assert Save(t, r)[1..] == t[1..];
    }
  }

  lemma {:induction false} SaveAllExact(t: seq<Client>, rows: seq<Client>, inb: Inbound, live: bool)
    requires forall r :: r in rows ==> EntryOf(r, inb, live) == None
    ensures |Entries(SaveAll(t, rows), inb, live)| <= |Entries(t, inb, live)|
    ensures Entries(SaveAll(t, rows), inb, live) == Entries(t, inb, live)
            <==> forall r :: r in rows ==> NotServed(t, r, inb, live)
    decreases |rows|
  {
    hide EntryOf, Find, Save, Entries;
    if rows != [] {
      var r := rows[0];
      var t' := Save(t, r);
      assert r in rows && forall x :: x in rows <==> x == r || x in rows[1..];
      SaveDrops(t, r, inb, live);
      SaveExact(t, r, inb, live);
      SaveAllExact(t', rows[1..], inb, live);
      forall x | x in rows[1..]
        ensures NotServed(t', x, inb, live) <==> x.id == r.id || NotServed(t, x, inb, live)
      {
        FindSaved(t, r, x.id);
      }
      forall x | x in rows[1..] && x.id == r.id
        ensures NotServed(t, x, inb, live) <==> NotServed(t, r, inb, live)
      {
      }
    }
  }

  /** Rewriting the names of a payload keeps its ids, and with them the stored rows it overwrites. */
  lemma IdentifiedNotServed(t: seq<Client>, rows: seq<Client>, inb: Inbound, live: bool)
    ensures (forall r :: r in Identified(rows) ==> NotServed(t, r, inb, live))
            <==> forall c :: c in rows ==> NotServed(t, c, inb, live)
  {
    hide EntryOf, Find;
    var stored := Identified(rows);
    assert forall k :: 0 <= k < |rows| ==> stored[k].id == rows[k].id;
    if forall r :: r in stored ==> NotServed(t, r, inb, live) {
      forall c | c in rows ensures NotServed(t, c, inb, live) {
        var k :| 0 <= k < |rows| && rows[k] == c;
        assert stored[k] in stored;
      }
    }
    if forall c :: c in rows ==> NotServed(t, c, inb, live) {
      forall r | r in stored ensures NotServed(t, r, inb, live) {
        var k :| 0 <= k < |rows| && r == stored[k];
        assert rows[k] in rows;
      }
    }
  }

  /** A bulk "new" keeps an unreported inbound's users if and only if no stored row it overwrites is
      one of them. */
  lemma AddBulkExact(t: seq<Client>, rows: seq<Client>, inb: Inbound, live: bool)
    requires inb.id !in AllInbounds(rows)
    ensures Entries(After(t, AddBulk(rows)), inb, live) == Entries(t, inb, live)
            <==> forall c :: c in rows ==> NotServed(t, c, inb, live)
  {
    hide EntryOf, Entries, SaveAll, NotServed;
    forall r | r in Identified(rows) ensures EntryOf(r, inb, live) == None {
      var k :| 0 <= k < |rows| && r == WithIdentity(rows[k]);
      assert rows[k] in rows;
      NotAttached(r, inb, live);
    }
    SaveAllExact(t, Identified(rows), inb, live);
    IdentifiedNotServed(t, rows, inb, live);
  }

  function Row(id: nat, inbounds: seq<nat>, banned: bool): Client {
    Client(id, true, "ann", map["hysteria2" := map["name" := "ann", "password" := "pw"]], inbounds, [],
           0, 0, 0, 0, banned, 0, false, false, 0, 0, 0, 0)
  }

  const Hy2In := Inbound(1, "hysteria2", "hy2-in", 0, "", false, true)

  /** A case of it: a "new" that carries the id of a served client and moves it elsewhere. */
  lemma NewOverStoredRow()
    ensures var t, op := [Row(7, [1], false)], New(Row(7, [2], false));
            && ValidTable(t) && Accepted(t, op) && Hy2In.id !in Affected(t, op)
            && Desired(After(t, op), Hy2In, true) != Desired(t, Hy2In, true)
  {
    var t, op := [Row(7, [1], false)], New(Row(7, [2], false));
    RowStored(7, [1]);
    RowStored(7, [2]);
    assert After(t, op) == [Row(7, [2], false)];
    EntrySource(t, Hy2In, true, Pair("ann", "pw"));
    assert EntryOf(t[0], Hy2In, true) == Some(Pair("ann", "pw"));
    UserMapKeys(Entries(t, Hy2In, true), "pw");
    NotAttached(Row(7, [2], false), Hy2In, true);
    assert Entries(After(t, op), Hy2In, true) == [];
    UserMapKeys([], "pw");
  }

  lemma RowStored(id: nat, inbounds: seq<nat>)
    ensures WithIdentity(Row(id, inbounds, false)) == Row(id, inbounds, false)
  {
    var c := Row(id, inbounds, false);
    assert IdentitySettings(c.config["hysteria2"], "ann") == c.config["hysteria2"];
    assert IdentityConfig(c.config, "ann") == c.config;
  }
}
