/** Traffic counters and what the stats job does with them (core/tracker_stats.go,
service/stats.go). */
module Traffic {
  import opened Model
  import opened UintArrays
  import LifecycleRuns

  datatype Resource = Inbound | Outbound | User

  /** One drained reading; `upload` is the source's Direction. */
  datatype Stat = Stat(resource: Resource, tag: string, upload: bool, traffic: nat)

  /** The bytes a list of readings reports for one resource and direction. */
  function Reading(stats: seq<Stat>, resource: Resource, tag: string, upload: bool): nat {
    if stats == [] then 0
    else
      var s := stats[|stats| - 1];
      Reading(stats[..|stats| - 1], resource, tag, upload)
      + if s.resource == resource && s.tag == tag && s.upload == upload then s.traffic else 0
  }

  lemma {:induction false} ReadingAppend(a: seq<Stat>, b: seq<Stat>, resource: Resource, tag: string, upload: bool)
    ensures Reading(a + b, resource, tag, upload)
            == Reading(a, resource, tag, upload) + Reading(b, resource, tag, upload)
  {
    if b == [] {
      assert a + b == a;
    } else {
      assert (a + b)[..|a + b| - 1] == a + b[..|b| - 1];
      ReadingAppend(a, b[..|b| - 1], resource, tag, upload);
    }
  }

  /** The pair of readings of one counter; a silent counter is not reported. */
  function Report(resource: Resource, tag: string, up: nat, down: nat): seq<Stat> {
    if down > 0 || up > 0 then [Stat(resource, tag, false, down), Stat(resource, tag, true, up)] else []
  }

  /** A name is reported: its upload reading is in the list, be it zero. */
  ghost predicate Reported(stats: seq<Stat>, resource: Resource, tag: string) {
    exists s :: s in stats && s.resource == resource && s.tag == tag && s.upload
  }

  lemma ReportReading(resource: Resource, tag: string, up: nat, down: nat, r: Resource, n: string, upload: bool)
    ensures Reading(Report(resource, tag, up, down), r, n, upload)
            == if r == resource && n == tag then (if upload then up else down) else 0
  {
    var report := Report(resource, tag, up, down);
    if report != [] {
      assert report[..|report| - 1] == [report[0]];
      assert [report[0]][..|[report[0]]| - 1] == [];
      assert Reading([report[0]], r, n, upload) == if r == resource && n == tag && !upload then down else 0;
    }
  }

  // ---------- the tracker ----------

  /** Two atomics: `read` counts uploads, `write` counts downloads. */
  class Counter {
    var read: nat
    var write: nat

    constructor ()
      ensures read == 0 && write == 0
    {
      read, write := 0, 0;
    }
  }

  /** What a counter map holds: uploads and downloads by name. */
  type Held = map<string, (nat, nat)>

  function Snapshot(counters: map<string, Counter>): Held
    reads counters.Values
  {
    map n | n in counters :: (counters[n].read, counters[n].write)
  }

  /** The readings of one resource are exactly what its counters held, per direction; names without a
      counter have none, and a counter without traffic is not reported. */
  ghost predicate Reads(stats: seq<Stat>, resource: Resource, held: Held) {
    && (forall n, d :: Reading(stats, resource, n, d)
                       == if n !in held then 0 else if d then held[n].0 else held[n].1)
    && (forall n :: Reported(stats, resource, n) <==> n in held && (held[n].0 > 0 || held[n].1 > 0))
  }

  ghost predicate Injective(m: map<string, Counter>) {
    forall a, b :: a in m && b in m && a != b ==> m[a] != m[b]
  }

  class StatsTracker {
    var inbounds: map<string, Counter>
    var outbounds: map<string, Counter>
    var users: map<string, Counter>

    constructor ()
      ensures Valid() && inbounds == map[] && outbounds == map[] && users == map[]
    {
      inbounds, outbounds, users := map[], map[], map[];
    }

    /** No counter is shared between two names or two resources. */
    ghost predicate Valid()
      reads this
    {
      && Injective(inbounds) && Injective(outbounds) && Injective(users)
      && inbounds.Values !! outbounds.Values && inbounds.Values !! users.Values && outbounds.Values !! users.Values
    }

    /** The names that have a counter. */
    function Names(resource: Resource): set<string>
      reads this
    {
      match resource
      case Inbound => inbounds.Keys
      case Outbound => outbounds.Keys
      case User => users.Keys
    }

    method Reset()
      modifies this
      ensures Valid() && inbounds == map[] && outbounds == map[] && users == map[]
    {
      inbounds, outbounds, users := map[], map[], map[];
    }

    /** The counter of a user name: the stored one, or a fresh zero one that is then stored. */
    method LoadOrCreateUser(name: string) returns (counter: Counter)
      requires Valid()
      modifies this`users
      ensures Valid() && name in users && users[name] == counter
      ensures name in old(users) ==> users == old(users)
      ensures name !in old(users) ==>
                fresh(counter) && counter.read == 0 && counter.write == 0 && users == old(users)[name := counter]
      ensures unchanged(old(users.Values))
    {
      if name in users {
        return users[name];
      }
      counter := new Counter();
      assert allocated(users.Values) && counter !in users.Values;
      users := users[name := counter];
    }

    /** Swaps every counter to zero; each reading is exactly what its counter held. */
    method GetStats() returns (stats: seq<Stat>)
      requires Valid()
      modifies inbounds.Values, outbounds.Values, users.Values
      ensures Reads(stats, Inbound, old(Snapshot(inbounds)))
      ensures Reads(stats, Outbound, old(Snapshot(outbounds)))
      ensures Reads(stats, User, old(Snapshot(users)))
      ensures forall s :: s in stats ==> s.tag in Names(s.resource)
      ensures forall n :: n in inbounds ==> inbounds[n].read == 0 && inbounds[n].write == 0
      ensures forall n :: n in outbounds ==> outbounds[n].read == 0 && outbounds[n].write == 0
      ensures forall n :: n in users ==> users[n].read == 0 && users[n].write == 0
    {
      hide Reads;
      var s1 := Drain(Inbound, inbounds);
      assert Snapshot(outbounds) == old(Snapshot(outbounds)) && Snapshot(users) == old(Snapshot(users));
      var s2 := Drain(Outbound, outbounds);
      assert Snapshot(users) == old(Snapshot(users));
      var s3 := Drain(User, users);
      stats := s1 + s2 + s3;
      ReadsAmong([], s1, s2 + s3, Inbound, old(Snapshot(inbounds)));
      ReadsAmong(s1, s2, s3, Outbound, old(Snapshot(outbounds)));
      ReadsAmong(s1 + s2, s3, [], User, old(Snapshot(users)));
      assert [] + s1 + (s2 + s3) == stats && s1 + s2 + s3 + [] == stats;
    }
  }

  lemma ReadingMore(stats: seq<Stat>, resource: Resource, tag: string, up: nat, down: nat,
                    r: Resource, n: string, d: bool)
    ensures Reading(stats + Report(resource, tag, up, down), r, n, d)
            == Reading(stats, r, n, d) + if r == resource && n == tag then (if d then up else down) else 0
  {
    hide Reading, Report;
    ReadingAppend(stats, Report(resource, tag, up, down), r, n, d);
    ReportReading(resource, tag, up, down, r, n, d);
  }

  /** Readings of other resources do not matter. */
  lemma ReadsAmong(before: seq<Stat>, stats: seq<Stat>, after: seq<Stat>, r: Resource, held: Held)
    requires Reads(stats, r, held)
    requires forall s :: s in before + after ==> s.resource != r
    ensures Reads(before + stats + after, r, held)
  {
    hide Reading;
    forall n: string, d: bool ensures Reading(before + stats + after, r, n, d) == Reading(stats, r, n, d) {
      ReadingAppend(before + stats, after, r, n, d);
      ReadingAppend(before, stats, r, n, d);
      NoReading(before, r, n, d);
      NoReading(after, r, n, d);
    }
    assert forall n :: Reported(before + stats + after, r, n) <==> Reported(stats, r, n);
  }

  lemma {:induction false} NoReading(stats: seq<Stat>, r: Resource, n: string, d: bool)
    requires forall s :: s in stats ==> s.resource != r
    ensures Reading(stats, r, n, d) == 0
  {
    if stats != [] {
      NoReading(stats[..|stats| - 1], r, n, d);
    }
  }

  /** The readings of the names in the order in which they are drained. */
  function Reports(resource: Resource, order: seq<string>, held: Held): seq<Stat>
    requires ToSet(order) <= held.Keys
  {
    if order == [] then []
    else
      var last := order[|order| - 1];
      Reports(resource, order[..|order| - 1], held) + Report(resource, last, held[last].0, held[last].1)
  }

  lemma {:induction false} ReportsReading(resource: Resource, order: seq<string>, held: Held, n: string, d: bool)
    requires NoDuplicates(order) && ToSet(order) <= held.Keys
    ensures Reading(Reports(resource, order, held), resource, n, d)
            == if n !in order then 0 else if d then held[n].0 else held[n].1
  {
    hide Reading, Report;
    if order != [] {
      var k := |order| - 1;
      var last := order[k];
      assert order == order[..k] + [last];
      ReportsReading(resource, order[..k], held, n, d);
      ReportReading(resource, last, held[last].0, held[last].1, resource, n, d);
      ReadingAppend(Reports(resource, order[..k], held), Report(resource, last, held[last].0, held[last].1),
                    resource, n, d);
    } else {
      assert Reading(Reports(resource, order, held), resource, n, d) == 0 by { NoReading([], resource, n, d); }
    }
  }

  lemma {:induction false} ReportsReported(resource: Resource, order: seq<string>, held: Held, n: string)
    requires ToSet(order) <= held.Keys
    ensures Reported(Reports(resource, order, held), resource, n)
            <==> n in order && (held[n].0 > 0 || held[n].1 > 0)
    ensures forall s :: s in Reports(resource, order, held) ==> s.resource == resource && s.tag in order
  {
    if order != [] {
      var k := |order| - 1;
      var last := order[k];
      assert order == order[..k] + [last];
      ReportsReported(resource, order[..k], held, n);
      ReportedMore(Reports(resource, order[..k], held), resource, last, held[last].0, held[last].1, n);
    }
  }

  lemma ReportedMore(stats: seq<Stat>, resource: Resource, tag: string, up: nat, down: nat, n: string)
    ensures Reported(stats + Report(resource, tag, up, down), resource, n)
            <==> Reported(stats, resource, n) || (n == tag && (up > 0 || down > 0))
  {
    var more := stats + Report(resource, tag, up, down);
    if down > 0 || up > 0 {
      assert more[|stats| + 1] == Stat(resource, tag, true, up) && more[|stats| + 1] in more;
    }
  }

  lemma ReportsNone(resource: Resource, held: Held)
    ensures NoDuplicates<string>([]) && ToSet<string>([]) == {} && Reports(resource, [], held) == []
  {
  }

  lemma ReportsSnoc(resource: Resource, order: seq<string>, tag: string, held: Held)
    requires NoDuplicates(order) && ToSet(order) <= held.Keys && tag in held && tag !in ToSet(order)
    ensures NoDuplicates(order + [tag]) && ToSet(order + [tag]) == ToSet(order) + {tag}
    ensures Reports(resource, order + [tag], held)
            == Reports(resource, order, held) + Report(resource, tag, held[tag].0, held[tag].1)
  {
    assert (order + [tag])[..|order|] == order;
  }

  lemma ReportsRead(resource: Resource, order: seq<string>, held: Held)
    requires NoDuplicates(order) && ToSet(order) == held.Keys
    ensures Reads(Reports(resource, order, held), resource, held)
    ensures forall s :: s in Reports(resource, order, held) ==> s.resource == resource && s.tag in held
  {
    hide Reading, Reported, Reports;
    assert forall x :: x in order <==> x in held;
    forall n: string, d: bool
      ensures Reading(Reports(resource, order, held), resource, n, d)
              == if n !in held then 0 else if d then held[n].0 else held[n].1
    {
      ReportsReading(resource, order, held, n, d);
    }
    forall n: string
      ensures Reported(Reports(resource, order, held), resource, n)
              <==> n in held && (held[n].0 > 0 || held[n].1 > 0)
    {
      ReportsReported(resource, order, held, n);
    }
    ReportsReported(resource, order, held, "");
  }

  /** Swaps every counter of a map to zero, in any order. */
  method Drain(resource: Resource, counters: map<string, Counter>) returns (stats: seq<Stat>)
    requires Injective(counters)
    modifies counters.Values
    ensures Reads(stats, resource, old(Snapshot(counters)))
    ensures forall s :: s in stats ==> s.resource == resource && s.tag in counters
    ensures forall n :: n in counters ==> counters[n].read == 0 && counters[n].write == 0
  {
    hide Reads, Report, Reports, NoDuplicates, ToSet;
    stats := [];
    ghost var held := Snapshot(counters);
    ghost var order: seq<string> := [];
    ReportsNone(resource, held);
    var rest := counters.Keys;
    while rest != {}
      invariant rest <= counters.Keys
      invariant forall n :: n in rest ==>
                  counters[n].read == old(counters[n].read) && counters[n].write == old(counters[n].write)
      invariant forall n :: n in counters.Keys - rest ==> counters[n].read == 0 && counters[n].write == 0
      invariant NoDuplicates(order) && ToSet(order) == counters.Keys - rest
      invariant stats == Reports(resource, order, held)
      decreases rest
    {
      var tag :| tag in rest;
      rest := rest - {tag};
      var c := counters[tag];
      assert forall n :: n in counters && n != tag ==> counters[n] != c;
      var down := c.write;
      c.write := 0;
      var up := c.read;
      c.read := 0;
      ReportsSnoc(resource, order, tag, held);
      order := order + [tag];
      stats := AppendReport(stats, resource, tag, up, down);
    }
    ReportsRead(resource, order, held);
  }

  /** Both directions of a counter, or nothing when neither has traffic. */
  method AppendReport(stats: seq<Stat>, resource: Resource, tag: string, up: nat, down: nat)
    returns (more: seq<Stat>)
    ensures more == stats + Report(resource, tag, up, down)
  {
    more := stats;
    if down > 0 || up > 0 {
      more := more + [Stat(resource, tag, false, down), Stat(resource, tag, true, up)];
    }
  }

  // ---------- saving readings ----------

  /** UPDATE clients SET up = up + n (or down) WHERE name = tag. */
  function CreditTable(t: seq<Client>, s: Stat): (r: seq<Client>)
    ensures |r| == |t|
  {
    if s.resource == User then LifecycleRuns.TableStep(t, LifecycleRuns.Credit(s.tag, s.upload, s.traffic)) else t
  }

  function CreditAll(t: seq<Client>, stats: seq<Stat>): (r: seq<Client>)
    ensures |r| == |t|
  {
    if stats == [] then t
    else CreditTable(CreditAll(t, stats[..|stats| - 1]), stats[|stats| - 1])
  }

  /** Current plus total column of one direction. */
  function Credited(c: Client, upload: bool): int {
    if upload then c.up + c.totalUp else c.down + c.totalDown
  }

  /** Each row gains exactly the readings under its name, and nothing else changes in it. */
  lemma {:induction false} CreditAllRows(t: seq<Client>, stats: seq<Stat>, k: nat)
    requires k < |t|
    ensures CreditAll(t, stats)[k]
            == t[k].(up := t[k].up + Reading(stats, User, t[k].name, true),
                     down := t[k].down + Reading(stats, User, t[k].name, false))
  {
    if stats != [] {
      var last := stats[|stats| - 1];
      var before := CreditAll(t, stats[..|stats| - 1]);
      CreditAllRows(t, stats[..|stats| - 1], k);
      CreditTableRow(before, last, k);
    }
  }

  lemma CreditTableRow(t: seq<Client>, s: Stat, k: nat)
    requires k < |t|
    ensures var hit := s.resource == User && t[k].name == s.tag;
            CreditTable(t, s)[k] == (if !hit then t[k]
                                     else if s.upload then t[k].(up := t[k].up + s.traffic)
                                     else t[k].(down := t[k].down + s.traffic))
  {
  }

  datatype Onlines = Onlines(inbound: seq<string>, outbound: seq<string>, user: seq<string>)

  function OnlineTags(stats: seq<Stat>, resource: Resource): seq<string> {
    if stats == [] then []
    else
      var s := stats[|stats| - 1];
      OnlineTags(stats[..|stats| - 1], resource) + if s.upload && s.resource == resource then [s.tag] else []
  }

  /** A name is online if and only if it is reported, that is, if and only if its counter held traffic. */
  lemma {:induction false} OnlineTagsExact(stats: seq<Stat>, resource: Resource, tag: string)
    ensures tag in OnlineTags(stats, resource) <==> Reported(stats, resource, tag)
  {
    if stats != [] {
      var n := |stats| - 1;
      OnlineTagsExact(stats[..n], resource, tag);
      assert stats == stats[..n] + [stats[n]];
    }
  }

  /** How many readings are gone through: up to the client update that fails. */
  function GoneThrough(stats: seq<Stat>, failsAt: Option<nat>): (n: nat)
    ensures n <= |stats|
  {
    if failsAt.Some? && failsAt.value < |stats| && stats[failsAt.value].resource == User then failsAt.value else |stats|
  }

  class StatsService {
    var clients: seq<Client>
    var onlines: Onlines

    constructor (initial: seq<Client>)
      ensures clients == initial
    {
      clients := initial;
      onlines := Onlines([], [], []);
    }

    /** Applies drained readings in one transaction; a failed one leaves the table alone, but the
        online lists are replaced either way. `failsAt` is an update that fails, if any. */
    method SaveStats(stats: seq<Stat>, enableTraffic: bool, failsAt: Option<nat>, createFails: bool) returns (ok: bool)
      modifies this
      ensures ok <==> GoneThrough(stats, failsAt) == |stats| && (stats == [] || !(enableTraffic && createFails))
      ensures clients == if ok then CreditAll(old(clients), stats) else old(clients)
      ensures var seen := stats[..GoneThrough(stats, failsAt)];
              onlines == Onlines(OnlineTags(seen, Inbound), OnlineTags(seen, Outbound), OnlineTags(seen, User))
    {
      onlines := Onlines([], [], []);
      if |stats| == 0 {
        return true;
      }
      var tx := clients;
      for i := 0 to |stats|
        invariant clients == old(clients)
        invariant i <= GoneThrough(stats, failsAt)
        invariant tx == CreditAll(clients, stats[..i])
        invariant onlines == Onlines(OnlineTags(stats[..i], Inbound), OnlineTags(stats[..i], Outbound),
                                     OnlineTags(stats[..i], User))
      {
        var stat := stats[i];
        assert stats[..i + 1][..i] == stats[..i];
        if stat.resource == User {
          if failsAt == Some(i) {
            return false;
          }
          if stat.upload {
            tx := seq(|tx|, k requires 0 <= k < |tx| =>
              if tx[k].name == stat.tag then tx[k].(up := tx[k].up + stat.traffic) else tx[k]);
          } else {
            tx := seq(|tx|, k requires 0 <= k < |tx| =>
              if tx[k].name == stat.tag then tx[k].(down := tx[k].down + stat.traffic) else tx[k]);
          }
          assert tx == CreditTable(CreditAll(clients, stats[..i]), stat);
        }
        if stat.upload {
          if stat.resource == Inbound {
            onlines := onlines.(inbound := onlines.inbound + [stat.tag]);
          } else if stat.resource == Outbound {
            onlines := onlines.(outbound := onlines.outbound + [stat.tag]);
          } else if stat.resource == User {
            onlines := onlines.(user := onlines.user + [stat.tag]);
          }
        }
      }
      assert stats[..|stats|] == stats;
      if enableTraffic && createFails {
        return false;
      }
      clients := tx;
      ok := true;
    }
  }
}
