/** Every operation on clients and inbounds keeps the link cache equal to the generator's output. */
module LinkCacheRuns {
  import opened Model
  import opened UintArrays
  import opened ClientSave
  import opened LinkCache

  /** As a multiset, the local links are what the generator prints for the attached inbounds. */
  ghost predicate Cached(gen: Generator, c: Client, inbounds: seq<LinkInbound>) {
    forall l: Link :: l.kind == LOCAL ==>
                        multiset(c.links)[l] == multiset(Attached(gen, c.config, c.inbounds, inbounds))[l]
  }

  // ---------- counting ----------

  function Times(m: nat, k: nat): nat {
    m * k
  }

  lemma TimesFacts(m: nat, k: nat)
    ensures Times(0, k) == 0 && Times(1, k) == k && Times(m, 0) == 0 && Times(m + 1, k) == Times(m, k) + k
    ensures Times(m, k) == k <==> m == 1 || k == 0
    ensures Times(m, k) == 0 <==> m == 0 || k == 0
  {
    assert (m + 1) * k == m * k + k;
    if m > 1 && k > 0 {
      assert m * k == k + (m - 1) * k && (m - 1) * k > 0;
    }
  }

  /** How often a local link should be cached: only the inbound with its tag can have printed it, once
      for every time the inbound is listed. */
  function Want(gen: Generator, config: Config, ids: seq<nat>, inbounds: seq<LinkInbound>, l: Link): nat {
    match ByTag(inbounds, l.remark)
    case None => 0
    case Some(inb) => Times(multiset(ids)[inb.id], multiset(LocalLinks(gen, config, inb))[l])
  }

  lemma WantNone(gen: Generator, config: Config, inbounds: seq<LinkInbound>, l: Link)
    ensures Want(gen, config, [], inbounds, l) == 0
  {
    hide Times;
    var found := ByTag(inbounds, l.remark);
    if found.Some? {
      TimesFacts(0, multiset(LocalLinks(gen, config, found.value))[l]);
    }
  }

  lemma WantSnoc(gen: Generator, config: Config, ids: seq<nat>, id: nat, inbounds: seq<LinkInbound>, l: Link)
    requires UniqueInbounds(inbounds) && l.kind == LOCAL
    ensures Want(gen, config, ids + [id], inbounds, l) == Want(gen, config, ids, inbounds, l)
            + match ById(inbounds, id) { case None => 0 case Some(inb) => multiset(LocalLinks(gen, config, inb))[l] }
  {
    hide LocalLinks, ById, ByTag, Times;
    var found, piece := ByTag(inbounds, l.remark), ById(inbounds, id);
    if piece.Some? && piece.value.tag != l.remark {
      LocalLinksCount(gen, config, piece.value, l);
    }
    if found.Some? {
      TimesFacts(multiset(ids)[found.value.id], multiset(LocalLinks(gen, config, found.value))[l]);
    }
  }

  lemma {:induction false} AttachedCount(gen: Generator, config: Config, ids: seq<nat>, inbounds: seq<LinkInbound>,
                                         l: Link)
    requires UniqueInbounds(inbounds) && l.kind == LOCAL
    ensures multiset(Attached(gen, config, ids, inbounds))[l] == Want(gen, config, ids, inbounds, l)
  {
    hide LocalLinks, ById, ByTag, Want;
    if ids == [] {
      WantNone(gen, config, inbounds, l);
    } else {
      var n := |ids| - 1;
      AttachedCount(gen, config, ids[..n], inbounds, l);
      assert ids == ids[..n] + [ids[n]];
      WantSnoc(gen, config, ids[..n], ids[n], inbounds, l);
    }
  }

  lemma AttachedExternal(gen: Generator, config: Config, ids: seq<nat>, inbounds: seq<LinkInbound>, l: Link)
    requires l.kind != LOCAL
    ensures multiset(Attached(gen, config, ids, inbounds))[l] == 0
  {
    if ids != [] {
      var n := |ids| - 1;
      AttachedExternal(gen, config, ids[..n], inbounds, l);
      var piece := ById(inbounds, ids[n]);
      if piece.Some? {
        LocalLinksCount(gen, config, piece.value, l);
      }
    }
  }

  ghost predicate Counted(gen: Generator, c: Client, inbounds: seq<LinkInbound>) {
    forall l: Link :: l.kind == LOCAL ==> multiset(c.links)[l] == Want(gen, c.config, c.inbounds, inbounds, l)
  }

  lemma CachedIsCounted(gen: Generator, c: Client, inbounds: seq<LinkInbound>)
    requires UniqueInbounds(inbounds)
    ensures Cached(gen, c, inbounds) <==> Counted(gen, c, inbounds)
  {
    hide Want, Attached;
    forall l: Link | l.kind == LOCAL
      ensures multiset(Attached(gen, c.config, c.inbounds, inbounds))[l] == Want(gen, c.config, c.inbounds, inbounds, l)
    {
      AttachedCount(gen, c.config, c.inbounds, inbounds, l);
    }
  }

  // ---------- one row ----------

  lemma RelinkedCached(gen: Generator, c: Client, inbounds: seq<LinkInbound>)
    ensures Cached(gen, Relinked(gen, c, inbounds), inbounds)
  {
    hide Attached, Keep;
    forall l: Link | l.kind == LOCAL
      ensures multiset(Relinked(gen, c, inbounds).links)[l]
              == multiset(Attached(gen, c.config, c.inbounds, inbounds))[l]
    {
      KeepCount(c.links, External(), l);
    }
  }

  /** The client does not list the inbound yet, or the inbound prints nothing for it. */
  predicate Fresh(gen: Generator, c: Client, inb: LinkInbound) {
    inb.id !in c.inbounds || LocalLinks(gen, c.config, inb) == []
  }

  lemma AddedLink(gen: Generator, c: Client, inbounds: seq<LinkInbound>, inb: LinkInbound, l: Link)
    requires Counted(gen, c, inbounds) && l.kind == LOCAL
    requires forall i :: i in inbounds ==> i.id != inb.id && i.tag != inb.tag
    ensures var added := multiset(InboundAdded(gen, c, inb).links)[l];
            var wanted := multiset(LocalLinks(gen, c.config, inb))[l];
            var want := Want(gen, c.config, c.inbounds + [inb.id], inbounds + [inb], l);
            var wantOther := Want(gen, c.config, c.inbounds, inbounds + [inb], l);
            if l.remark == inb.tag
            then added == wanted && want == Times(multiset(c.inbounds)[inb.id] + 1, wanted)
                 && multiset(c.links)[l] == 0 && wantOther == Times(multiset(c.inbounds)[inb.id], wanted)
            else added == want && multiset(c.links)[l] == wantOther
  {
    hide LocalLinks, Keep, Times;
    KeepCount(c.links, NotTagged(inb.tag), l);
    ByTagSnoc(inbounds, inb, l.remark);
    if l.remark != inb.tag {
      LocalLinksCount(gen, c.config, inb, l);
    }
  }

  /** Adding an inbound keeps a cached row cached, initial client or not, if and only if it is fresh. */
  lemma AddedExact(gen: Generator, c: Client, inbounds: seq<LinkInbound>, inb: LinkInbound)
    requires Counted(gen, c, inbounds)
    requires forall i :: i in inbounds ==> i.id != inb.id && i.tag != inb.tag
    ensures Counted(gen, InboundAdded(gen, c, inb), inbounds + [inb]) <==> Fresh(gen, c, inb)
    ensures Counted(gen, c, inbounds + [inb]) <==> Fresh(gen, c, inb)
  {
    hide LocalLinks, Keep, Times, Want;
    var m := multiset(c.inbounds)[inb.id];
    var own := LocalLinks(gen, c.config, inb);
    forall l: Link | l.kind == LOCAL
      ensures var n := multiset(own)[l];
              && (n == Times(m + 1, n) <==> m == 0 || n == 0) && (0 == Times(m, n) <==> m == 0 || n == 0)
    {
      TimesFacts(m + 1, multiset(own)[l]);
      TimesFacts(m, multiset(own)[l]);
    }
    forall l: Link | l.kind == LOCAL
      ensures multiset(InboundAdded(gen, c, inb).links)[l]
              == Want(gen, c.config, c.inbounds + [inb.id], inbounds + [inb], l)
              <==> l.remark != inb.tag || m == 0 || multiset(own)[l] == 0
      ensures multiset(c.links)[l] == Want(gen, c.config, c.inbounds, inbounds + [inb], l)
              <==> l.remark != inb.tag || m == 0 || multiset(own)[l] == 0
    {
      AddedLink(gen, c, inbounds, inb, l);
    }
    OwnLinks(gen, c.config, inb);
    if m > 0 && own != [] {
      assert multiset(own)[own[0]] > 0 && own[0].kind == LOCAL && own[0].remark == inb.tag by { assert own[0] in own; }
    }
  }

  lemma OwnLinks(gen: Generator, config: Config, inb: LinkInbound)
    ensures forall l :: l in LocalLinks(gen, config, inb) ==> l.kind == LOCAL && l.remark == inb.tag
  {
  }

  lemma {:induction false} ByTagSnoc(inbounds: seq<LinkInbound>, inb: LinkInbound, tag: string)
    requires forall i :: i in inbounds ==> i.tag != inb.tag
    ensures ByTag(inbounds + [inb], tag) == if tag == inb.tag then Some(inb) else ByTag(inbounds, tag)
  {
    if inbounds != [] {
      assert (inbounds + [inb])[1..] == inbounds[1..] + [inb];
      ByTagSnoc(inbounds[1..], inb, tag);
    }
  }

  /** The stored inbounds after one is deleted. */
  function Dropped(inbounds: seq<LinkInbound>, tag: string): seq<LinkInbound> {
    if inbounds == [] then []
    else (if inbounds[0].tag == tag then [] else [inbounds[0]]) + Dropped(inbounds[1..], tag)
  }

  lemma {:induction false} DroppedElements(inbounds: seq<LinkInbound>, tag: string)
    ensures forall i :: i in Dropped(inbounds, tag) <==> i in inbounds && i.tag != tag
  {
    if inbounds != [] {
      DroppedElements(inbounds[1..], tag);
      assert forall i :: i in inbounds <==> i == inbounds[0] || i in inbounds[1..];
    }
  }

  lemma DeletedLink(gen: Generator, c: Client, inbounds: seq<LinkInbound>, inb: LinkInbound, left: seq<LinkInbound>,
                    ids: seq<nat>, l: Link)
    requires UniqueInbounds(inbounds) && Counted(gen, c, inbounds) && inb in inbounds && l.kind == LOCAL
    requires forall i :: i in left <==> i in inbounds && i.tag != inb.tag
    requires forall x :: x != inb.id ==> multiset(ids)[x] == multiset(c.inbounds)[x]
    ensures l.remark != inb.tag ==> Want(gen, c.config, ids, left, l) == multiset(c.links)[l]
    ensures l.remark == inb.tag ==> Want(gen, c.config, ids, left, l) == 0
    ensures l.remark == inb.tag && inb.id !in c.inbounds ==> multiset(c.links)[l] == 0
  {
    hide LocalLinks, Times;
    TimesFacts(0, multiset(LocalLinks(gen, c.config, inb))[l]);
    var before, after := ByTag(inbounds, l.remark), ByTag(left, l.remark);
    if l.remark != inb.tag && before.Some? {
      assert before.value in left;
      assert after == before && before.value.id != inb.id;
    } else if l.remark == inb.tag {
      assert after.None? && before == Some(inb);
    } else {
      assert after.None?;
    }
  }

  lemma DeletedCounted(gen: Generator, c: Client, inbounds: seq<LinkInbound>, inb: LinkInbound)
    requires UniqueInbounds(inbounds) && Counted(gen, c, inbounds) && inb in inbounds
    ensures inb.id in c.inbounds ==> Counted(gen, InboundDeleted(c, inb.id, inb.tag), Dropped(inbounds, inb.tag))
    ensures inb.id !in c.inbounds ==> Counted(gen, c, Dropped(inbounds, inb.tag))
  {
    hide LocalLinks, Keep, Times, Want;
    var left, ids := Dropped(inbounds, inb.tag), InboundDeleted(c, inb.id, inb.tag).inbounds;
    DroppedElements(inbounds, inb.tag);
    forall x | x != inb.id ensures multiset(ids)[x] == multiset(c.inbounds)[x] {
      WithoutCount(c.inbounds, inb.id, x);
    }
    forall l: Link | l.kind == LOCAL
      ensures multiset(InboundDeleted(c, inb.id, inb.tag).links)[l] == Want(gen, c.config, ids, left, l)
      ensures inb.id !in c.inbounds ==> multiset(c.links)[l] == Want(gen, c.config, c.inbounds, left, l)
    {
      KeepCount(c.links, NotTagged(inb.tag), l);
      DeletedLink(gen, c, inbounds, inb, left, ids, l);
      DeletedLink(gen, c, inbounds, inb, left, c.inbounds, l);
    }
  }

  /** The stored inbounds after one is edited. */
  function Replace(inbounds: seq<LinkInbound>, inb: LinkInbound): seq<LinkInbound> {
    seq(|inbounds|, i requires 0 <= i < |inbounds| => if inbounds[i].id == inb.id then inb else inbounds[i])
  }

  lemma ReplaceElements(inbounds: seq<LinkInbound>, inb: LinkInbound, before: LinkInbound)
    requires before in inbounds && before.id == inb.id
    ensures forall i :: i in Replace(inbounds, inb) <==> i == inb || (i in inbounds && i.id != inb.id)
  {
    var r := Replace(inbounds, inb);
    var k :| 0 <= k < |inbounds| && inbounds[k] == before;
    assert r[k] == inb;
    forall i | i in inbounds && i.id != inb.id ensures i in r {
      var j :| 0 <= j < |inbounds| && inbounds[j] == i;
      assert r[j] == i;
    }
  }

  /** `oldTag` is the former tag, or no tag at all when only the TLS profile changed. */
  ghost predicate Replaces(inbounds: seq<LinkInbound>, inb: LinkInbound, oldTag: string, before: LinkInbound) {
    before in inbounds && before.id == inb.id
    && (before.tag == oldTag || before.tag == inb.tag)
    && forall i :: i in inbounds && i.id != inb.id ==> i.tag != inb.tag && i.tag != oldTag
  }

  /** The client lists the inbound once, or the inbound prints nothing for it. */
  predicate ListedOnce(gen: Generator, c: Client, inb: LinkInbound) {
    multiset(c.inbounds)[inb.id] == 1 || LocalLinks(gen, c.config, inb) == []
  }

  lemma ChangedLink(gen: Generator, c: Client, inbounds: seq<LinkInbound>, inb: LinkInbound, oldTag: string,
                    before: LinkInbound, l: Link)
    requires UniqueInbounds(inbounds) && Counted(gen, c, inbounds) && Replaces(inbounds, inb, oldTag, before)
    requires l.kind == LOCAL
    ensures var changed := multiset(InboundChanged(gen, c, inb, oldTag).links)[l];
            var own := multiset(LocalLinks(gen, c.config, inb))[l];
            var want := Want(gen, c.config, c.inbounds, Replace(inbounds, inb), l);
            && (if l.remark == inb.tag then changed == own && want == Times(multiset(c.inbounds)[inb.id], own)
                else inb.id in c.inbounds ==> changed == want)
            && (inb.id !in c.inbounds ==> multiset(c.links)[l] == want)
  {
    hide LocalLinks, Keep, ByTag, Replace, Times;
    ReplaceElements(inbounds, inb, before);
    KeepCount(c.links, NotReplaced(inb.tag, oldTag), l);
    var found := ByTag(inbounds, l.remark);
    TimesFacts(0, multiset(LocalLinks(gen, c.config, inb))[l]);
    if found.Some? {
      TimesFacts(0, multiset(LocalLinks(gen, c.config, found.value))[l]);
    }
    if l.remark == inb.tag {
      assert inb in Replace(inbounds, inb);
    } else {
      LocalLinksCount(gen, c.config, inb, l);
      if found.Some? && found.value.id != inb.id {
        assert found.value in Replace(inbounds, inb);
      }
    }
  }

  /** Editing or renaming an inbound keeps the cache of an attached client if and only if it is listed
      once, and that of every other client anyway. */
  lemma ChangedExact(gen: Generator, c: Client, inbounds: seq<LinkInbound>, inb: LinkInbound, oldTag: string,
                     before: LinkInbound)
    requires UniqueInbounds(inbounds) && Counted(gen, c, inbounds) && Replaces(inbounds, inb, oldTag, before)
    ensures inb.id in c.inbounds ==>
              (Counted(gen, InboundChanged(gen, c, inb, oldTag), Replace(inbounds, inb)) <==> ListedOnce(gen, c, inb))
    ensures inb.id !in c.inbounds ==> Counted(gen, c, Replace(inbounds, inb))
  {
    hide LocalLinks, Keep, Replace, Times, Want, UniqueInbounds;
    var m := multiset(c.inbounds)[inb.id];
    var own := LocalLinks(gen, c.config, inb);
    forall l: Link | l.kind == LOCAL
      ensures inb.id in c.inbounds ==>
                (multiset(InboundChanged(gen, c, inb, oldTag).links)[l]
                 == Want(gen, c.config, c.inbounds, Replace(inbounds, inb), l)
                 <==> l.remark != inb.tag || m == 1 || multiset(own)[l] == 0)
      ensures inb.id !in c.inbounds ==>
                multiset(c.links)[l] == Want(gen, c.config, c.inbounds, Replace(inbounds, inb), l)
    {
      ChangedLink(gen, c, inbounds, inb, oldTag, before, l);
      TimesFacts(m, multiset(own)[l]);
    }
    OwnLinks(gen, c.config, inb);
    if m != 1 && own != [] {
      assert multiset(own)[own[0]] > 0 && own[0].kind == LOCAL && own[0].remark == inb.tag by { assert own[0] in own; }
    }
  }

  // ---------- operations ----------

  datatype State = State(clients: seq<Client>, inbounds: seq<LinkInbound>)

  datatype Op =
    | Put(rows: seq<Client>)
    | EditBulk(rows: seq<Client>)
    | Remove(ids: set<nat>)
    | AddInbound(inb: LinkInbound, initIds: set<nat>)
    | EditInbound(inb: LinkInbound)
    | DeleteInbound(tag: string)
    | EditTls(changed: seq<LinkInbound>)

  function RelinkAll(gen: Generator, rows: seq<Client>, inbounds: seq<LinkInbound>): seq<Client> {
    seq(|rows|, i requires 0 <= i < |rows| => Relinked(gen, rows[i], inbounds))
  }

  /** A bulk edit that changes no inbound's users keeps the stored links. */
  function BulkRows(gen: Generator, s: State, rows: seq<Client>): seq<Client> {
    if BulkChanges(s.clients, rows) == {} then Merged(s.clients, rows)
    else RelinkAll(gen, Merged(s.clients, rows), s.inbounds)
  }

  function ReplaceInbounds(inbounds: seq<LinkInbound>, changed: seq<LinkInbound>): seq<LinkInbound> {
    if changed == [] then inbounds
    else
      var n := |changed| - 1;
      Replace(ReplaceInbounds(inbounds, changed[..n]), changed[n])
  }

  function TagOf(inbounds: seq<LinkInbound>, id: nat): string {
    match ById(inbounds, id) { case None => "" case Some(inb) => inb.tag }
  }

  function Apply(gen: Generator, s: State, op: Op): State {
    match op
    case Put(rows) => s.(clients := SaveAll(s.clients, RelinkAll(gen, Identified(rows), s.inbounds)))
    case EditBulk(rows) => s.(clients := SaveAll(s.clients, BulkRows(gen, s, rows)))
    case Remove(ids) => s.(clients := Delete(s.clients, ids))
    case AddInbound(inb, initIds) => State(Adding(s.clients, gen, initIds, inb), s.inbounds + [inb])
    case EditInbound(inb) =>
      State(ChangingAll(s.clients, gen, [inb], TagOf(s.inbounds, inb.id)), Replace(s.inbounds, inb))
    case DeleteInbound(tag) =>
      (match ByTag(s.inbounds, tag)
       case None => s
       case Some(inb) => State(Deleting(s.clients, inb.id, tag), Dropped(s.inbounds, tag)))
    case EditTls(changed) => State(ChangingAll(s.clients, gen, changed, ""), ReplaceInbounds(s.inbounds, changed))
  }

  /** A bulk edit that reports nothing lists each inbound as often as before, or the inbound prints
      nothing for the client. */
  ghost predicate SameListing(gen: Generator, before: Client, c: Client, inbounds: seq<LinkInbound>) {
    forall i :: i in inbounds ==>
                  || multiset(c.inbounds)[i.id] == multiset(before.inbounds)[i.id]
                  || LocalLinks(gen, before.config, i) == []
  }

  ghost predicate Careful(gen: Generator, s: State, op: Op) {
    match op
    case Put(_) => true
    case EditBulk(rows) =>
      forall c :: c in rows ==>
                    && Find(s.clients, c.id).Some?
                    && (BulkChanges(s.clients, rows) == {} ==>
                          SameListing(gen, Find(s.clients, c.id).value, c, s.inbounds))
    case Remove(_) => true
    case AddInbound(inb, _) =>
      inb.tag != "" && (forall i :: i in s.inbounds ==> i.id != inb.id && i.tag != inb.tag)
      && forall c :: c in s.clients ==> Fresh(gen, c, inb)
    case EditInbound(inb) =>
      inb.tag != "" && ById(s.inbounds, inb.id).Some?
      && (forall i :: i in s.inbounds && i.id != inb.id ==> i.tag != inb.tag)
      && forall c :: c in s.clients && inb.id in c.inbounds ==> ListedOnce(gen, c, inb)
    case DeleteInbound(_) => true
    case EditTls(changed) =>
      forall i :: i in changed ==>
                    && ById(s.inbounds, i.id).Some? && TagOf(s.inbounds, i.id) == i.tag
                    && forall c :: c in s.clients && i.id in c.inbounds ==> ListedOnce(gen, c, i)
  }

  /** Ids and tags are unique, and tags are not empty. */
  ghost predicate NamedInbounds(inbounds: seq<LinkInbound>) {
    UniqueInbounds(inbounds) && forall i :: i in inbounds ==> i.tag != ""
  }

  ghost predicate ValidRow(gen: Generator, c: Client, inbounds: seq<LinkInbound>) {
    WithIdentity(c) == c && Cached(gen, c, inbounds)
  }

  ghost predicate Valid(gen: Generator, s: State) {
    DistinctIds(s.clients) && NamedInbounds(s.inbounds) && forall c :: c in s.clients ==> ValidRow(gen, c, s.inbounds)
  }

  // ---------- every operation keeps the cache ----------

  lemma {:induction false} SaveAllElements(t: seq<Client>, rows: seq<Client>)
    requires DistinctIds(t)
    ensures DistinctIds(SaveAll(t, rows)) && forall c :: c in SaveAll(t, rows) ==> c in t || c in rows
    decreases |rows|
  {
    hide Save;
    if rows != [] {
      SaveRows(t, rows[0]);
      var t' := Save(t, rows[0]);
      forall c | c in t' ensures c in t || c == rows[0] {
        var k :| 0 <= k < |t'| && t'[k] == c;
        assert k < |t| ==> t[k] in t;
      }
      SaveAllElements(t', rows[1..]);
    }
  }

  lemma SaveKeepsValid(gen: Generator, s: State, rows: seq<Client>)
    requires Valid(gen, s) && forall r :: r in rows ==> ValidRow(gen, r, s.inbounds)
    ensures Valid(gen, s.(clients := SaveAll(s.clients, rows)))
  {
    hide ValidRow, SaveAll;
    SaveAllElements(s.clients, rows);
  }

  lemma RelinkedValid(gen: Generator, c: Client, inbounds: seq<LinkInbound>)
    requires WithIdentity(c) == c
    ensures ValidRow(gen, Relinked(gen, c, inbounds), inbounds)
  {
    hide Cached, IdentityConfig, Attached, Keep;
    RelinkedCached(gen, c, inbounds);
  }

  lemma PutKeeps(gen: Generator, s: State, rows: seq<Client>)
    requires Valid(gen, s)
    ensures Valid(gen, Apply(gen, s, Put(rows)))
  {
    hide Valid, ValidRow, SaveAll, Relinked;
    var stored := RelinkAll(gen, Identified(rows), s.inbounds);
    forall r | r in stored ensures ValidRow(gen, r, s.inbounds) {
      var k :| 0 <= k < |rows| && r == Relinked(gen, WithIdentity(rows[k]), s.inbounds);
      assert rows[k] in rows;
      IdentityIdempotent(rows[k]);
      RelinkedValid(gen, WithIdentity(rows[k]), s.inbounds);
    }
    SaveKeepsValid(gen, s, stored);
  }

  /** With no reported change the row keeps its settings and its set of inbounds; its links stand if and
      only if each inbound is listed as often as before. */
  lemma UnchangedRow(gen: Generator, t: seq<Client>, c: Client, inbounds: seq<LinkInbound>)
    requires UniqueInbounds(inbounds) && Find(t, c.id).Some?
    requires ValidRow(gen, Find(t, c.id).value, inbounds)
    requires RowChanges(t, c.id, Merge(t, c)) == {}
    ensures ValidRow(gen, WithIdentity(Merge(t, c)), inbounds) <==> SameListing(gen, Find(t, c.id).value, c, inbounds)
  {
    hide Cached, IdentityConfig, Attached, Find, UniqueInbounds, Counted, SameListing;
    var before, row := Find(t, c.id).value, WithIdentity(Merge(t, c));
    CachedIsCounted(gen, before, inbounds);
    CachedIsCounted(gen, row, inbounds);
    IdentityIdempotent(Merge(t, c));
    assert ToSet(before.inbounds) == ToSet(c.inbounds);
    assert forall x :: x in before.inbounds <==> x in ToSet(before.inbounds);
    assert forall x :: x in c.inbounds <==> x in ToSet(c.inbounds);
    if SameFace(before, Merge(t, c)) {
      assert row.config == before.config;
      SameSettings(gen, before, row, inbounds);
      SameListingOf(gen, before, c, row, inbounds);
    } else {
      assert forall x :: x !in before.inbounds && x !in c.inbounds;
      NothingListed(gen, before, row, inbounds);
      SameListingOf(gen, before, c, row, inbounds);
    }
  }

  lemma SameListingOf(gen: Generator, before: Client, c: Client, row: Client, inbounds: seq<LinkInbound>)
    requires row.inbounds == c.inbounds
    ensures SameListing(gen, before, c, inbounds) <==> SameListing(gen, before, row, inbounds)
  {
    hide LocalLinks;
  }

  lemma NothingListed(gen: Generator, before: Client, row: Client, inbounds: seq<LinkInbound>)
    requires Counted(gen, before, inbounds) && row.links == before.links
    requires forall x :: x !in before.inbounds && x !in row.inbounds
    ensures Counted(gen, row, inbounds) && SameListing(gen, before, row, inbounds)
  {
    hide LocalLinks, ByTag, Times;
    forall l: Link ensures Want(gen, before.config, before.inbounds, inbounds, l) == 0
                   ensures Want(gen, row.config, row.inbounds, inbounds, l) == 0
    {
      var found := ByTag(inbounds, l.remark);
      if found.Some? {
        assert found.value.id !in before.inbounds && found.value.id !in row.inbounds;
        assert multiset(before.inbounds)[found.value.id] == multiset(row.inbounds)[found.value.id] == 0;
        TimesFacts(0, multiset(LocalLinks(gen, before.config, found.value))[l]);
        TimesFacts(0, multiset(LocalLinks(gen, row.config, found.value))[l]);
      }
    }
    forall i | i in inbounds ensures multiset(row.inbounds)[i.id] == multiset(before.inbounds)[i.id] {
      assert i.id !in before.inbounds && i.id !in row.inbounds;
    }
  }

  /** Same settings, same links: cached for both listings if and only if they agree where it matters. */
  lemma SameSettings(gen: Generator, before: Client, row: Client, inbounds: seq<LinkInbound>)
    requires UniqueInbounds(inbounds) && Counted(gen, before, inbounds)
    requires row.config == before.config && row.links == before.links
    ensures Counted(gen, row, inbounds) <==> SameListing(gen, before, row, inbounds)
  {
    hide LocalLinks, Times;
    forall l: Link | l.kind == LOCAL && ByTag(inbounds, l.remark).Some?
      ensures var inb := ByTag(inbounds, l.remark).value;
              var n := multiset(LocalLinks(gen, before.config, inb))[l];
              multiset(row.links)[l] == Want(gen, row.config, row.inbounds, inbounds, l)
              <==> multiset(row.inbounds)[inb.id] == multiset(before.inbounds)[inb.id] || n == 0
    {
      var inb := ByTag(inbounds, l.remark).value;
      TimesInjective(multiset(row.inbounds)[inb.id], multiset(before.inbounds)[inb.id],
                     multiset(LocalLinks(gen, before.config, inb))[l]);
    }
    forall i | i in inbounds && multiset(row.inbounds)[i.id] != multiset(before.inbounds)[i.id]
               && LocalLinks(gen, before.config, i) != []
      ensures !Counted(gen, row, inbounds)
    {
      OwnLinks(gen, before.config, i);
      var l := LocalLinks(gen, before.config, i)[0];
      assert l in LocalLinks(gen, before.config, i);
      assert ByTag(inbounds, l.remark) == Some(i);
    }
  }

  lemma TimesInjective(a: nat, b: nat, n: nat)
    ensures Times(a, n) == Times(b, n) <==> a == b || n == 0
  {
    if n > 0 && a < b {
      assert b * n == a * n + (b - a) * n && (b - a) * n > 0;
    } else if n > 0 && b < a {
      assert a * n == b * n + (a - b) * n && (a - b) * n > 0;
    }
  }

  lemma EditBulkKeeps(gen: Generator, s: State, rows: seq<Client>)
    requires Valid(gen, s) && Careful(gen, s, EditBulk(rows))
    ensures Valid(gen, Apply(gen, s, EditBulk(rows)))
  {
    hide ValidRow, SaveAll, Relinked, SameListing, Find, Merge, WithIdentity, RowChanges, BulkChanges, UniqueInbounds;
    var stored := BulkRows(gen, s, rows);
    forall r | r in stored ensures ValidRow(gen, r, s.inbounds) {
      var k :| 0 <= k < |stored| && stored[k] == r;
      var c := rows[k];
      assert c in rows;
      if BulkChanges(s.clients, rows) == {} {
        BulkChangesCover(s.clients, rows, c);
        UnchangedRow(gen, s.clients, c, s.inbounds);
      } else {
        MergedInbounds(s.clients, c);
        RelinkedValid(gen, WithIdentity(Merge(s.clients, c)), s.inbounds);
      }
    }
    SaveKeepsValid(gen, s, stored);
  }

  lemma MergedInbounds(t: seq<Client>, c: Client)
    ensures var r := WithIdentity(Merge(t, c)); r.inbounds == c.inbounds && WithIdentity(r) == r
  {
    IdentityIdempotent(Merge(t, c));
  }

  lemma RemoveKeeps(gen: Generator, s: State, ids: set<nat>)
    requires Valid(gen, s)
    ensures Valid(gen, Apply(gen, s, Remove(ids)))
  {
    hide ValidRow, Select;
    var p := (c: Client) => c.id !in ids;
    SelectDistinct(s.clients, p);
    SelectElements(s.clients, p);
  }

  lemma AddKeeps(gen: Generator, s: State, inb: LinkInbound, initIds: set<nat>)
    requires Valid(gen, s) && Careful(gen, s, AddInbound(inb, initIds))
    ensures Valid(gen, Apply(gen, s, AddInbound(inb, initIds)))
  {
    hide Cached, IdentityConfig, Keep, LocalLinks;
    var s' := Apply(gen, s, AddInbound(inb, initIds));
    forall c' | c' in s'.clients ensures ValidRow(gen, c', s'.inbounds) {
      var k :| 0 <= k < |s'.clients| && s'.clients[k] == c';
      var c := s.clients[k];
      assert c in s.clients;
      CachedIsCounted(gen, c, s.inbounds);
      AddedExact(gen, c, s.inbounds, inb);
      CachedIsCounted(gen, c', s'.inbounds);
    }
  }

  lemma DeleteInboundKeeps(gen: Generator, s: State, inb: LinkInbound)
    requires Valid(gen, s) && inb in s.inbounds
    ensures Valid(gen, State(Deleting(s.clients, inb.id, inb.tag), Dropped(s.inbounds, inb.tag)))
  {
    hide Cached, IdentityConfig, Keep, Dropped, Without;
    DroppedElements(s.inbounds, inb.tag);
    var inbounds := Dropped(s.inbounds, inb.tag);
    var clients := Deleting(s.clients, inb.id, inb.tag);
    forall c' | c' in clients ensures ValidRow(gen, c', inbounds) {
      var k :| 0 <= k < |clients| && clients[k] == c';
      var c := s.clients[k];
      assert c in s.clients;
      CachedIsCounted(gen, c, s.inbounds);
      DeletedCounted(gen, c, s.inbounds, inb);
      CachedIsCounted(gen, c', inbounds);
    }
  }

  lemma ChangeKeeps(gen: Generator, s: State, inb: LinkInbound, oldTag: string, before: LinkInbound)
    requires Valid(gen, s) && inb.tag != "" && Replaces(s.inbounds, inb, oldTag, before)
    requires forall c :: c in s.clients && inb.id in c.inbounds ==> ListedOnce(gen, c, inb)
    ensures Valid(gen, State(Changing(s.clients, gen, inb, oldTag), Replace(s.inbounds, inb)))
  {
    hide Cached, IdentityConfig, Keep, Replace, LocalLinks;
    ReplaceElements(s.inbounds, inb, before);
    var inbounds := Replace(s.inbounds, inb);
    var clients := Changing(s.clients, gen, inb, oldTag);
    forall c' | c' in clients ensures ValidRow(gen, c', inbounds) {
      var k :| 0 <= k < |clients| && clients[k] == c';
      var c := s.clients[k];
      assert c in s.clients;
      CachedIsCounted(gen, c, s.inbounds);
      ChangedExact(gen, c, s.inbounds, inb, oldTag, before);
      CachedIsCounted(gen, c', inbounds);
    }
  }

  lemma EditInboundKeeps(gen: Generator, s: State, inb: LinkInbound)
    requires Valid(gen, s) && Careful(gen, s, EditInbound(inb))
    ensures Valid(gen, Apply(gen, s, EditInbound(inb)))
  {
    hide Replace, Changing, ValidRow;
    var before := ById(s.inbounds, inb.id).value;
    ChangeKeeps(gen, s, inb, before.tag, before);
    assert [inb][..0] == [];
    assert ChangingAll(s.clients, gen, [], before.tag) == s.clients;
  }

  lemma {:induction false} ChangingAllShape(t: seq<Client>, gen: Generator, changed: seq<LinkInbound>, oldTag: string)
    ensures var t' := ChangingAll(t, gen, changed, oldTag);
            && |t'| == |t|
            && forall k :: 0 <= k < |t| ==> t'[k].inbounds == t[k].inbounds && t'[k].config == t[k].config
    decreases |changed|
  {
    hide Keep, LocalLinks;
    if changed != [] {
      ChangingAllShape(t, gen, changed[..|changed| - 1], oldTag);
    }
  }

  lemma {:induction false} EditTlsKeeps(gen: Generator, s: State, changed: seq<LinkInbound>)
    requires Valid(gen, s) && Careful(gen, s, EditTls(changed))
    ensures Valid(gen, Apply(gen, s, EditTls(changed)))
    ensures forall id :: var i, j := ById(s.inbounds, id), ById(ReplaceInbounds(s.inbounds, changed), id);
                         (i.Some? <==> j.Some?) && (i.Some? ==> i.value.tag == j.value.tag)
    decreases |changed|
  {
    hide Replace, Changing, ValidRow, ById, LocalLinks;
    if changed != [] {
      var n := |changed| - 1;
      assert changed[n] in changed;
      EditTlsKeeps(gen, s, changed[..n]);
      var mid := Apply(gen, s, EditTls(changed[..n]));
      var before := ById(mid.inbounds, changed[n].id).value;
      ChangingAllShape(s.clients, gen, changed[..n], "");
      forall c | c in mid.clients && changed[n].id in c.inbounds ensures ListedOnce(gen, c, changed[n]) {
        var k :| 0 <= k < |mid.clients| && mid.clients[k] == c;
        assert s.clients[k] in s.clients;
      }
      ChangeKeeps(gen, mid, changed[n], "", before);
      ReplaceElements(mid.inbounds, changed[n], before);
      forall id ensures var i, j := ById(mid.inbounds, id), ById(Replace(mid.inbounds, changed[n]), id);
                        (i.Some? <==> j.Some?) && (i.Some? ==> i.value.tag == j.value.tag)
      {
        var i := ById(mid.inbounds, id);
        if i.Some? {
          assert id != changed[n].id ==> i.value in Replace(mid.inbounds, changed[n]);
        }
      }
    }
  }

  lemma StepKeeps(gen: Generator, s: State, op: Op)
    requires Valid(gen, s) && Careful(gen, s, op)
    ensures Valid(gen, Apply(gen, s, op))
  {
    hide Valid;
    match op
    case Put(rows) => PutKeeps(gen, s, rows);
    case EditBulk(rows) => EditBulkKeeps(gen, s, rows);
    case Remove(ids) => RemoveKeeps(gen, s, ids);
    case AddInbound(inb, initIds) => AddKeeps(gen, s, inb, initIds);
    case EditInbound(inb) => EditInboundKeeps(gen, s, inb);
    case DeleteInbound(tag) =>
      if ByTag(s.inbounds, tag).Some? {
        DeleteInboundKeeps(gen, s, ByTag(s.inbounds, tag).value);
      }
    case EditTls(changed) => EditTlsKeeps(gen, s, changed);
  }

  // ---------- runs ----------

  ghost predicate CarefulRun(gen: Generator, s: State, ops: seq<Op>)
    decreases |ops|
  {
    ops == [] || (Careful(gen, s, ops[0]) && CarefulRun(gen, Apply(gen, s, ops[0]), ops[1..]))
  }

  function Run(gen: Generator, s: State, ops: seq<Op>): State
    decreases |ops|
  {
    if ops == [] then s else Run(gen, Apply(gen, s, ops[0]), ops[1..])
  }

  /** After any run of client saves and inbound and TLS edits, every client's local links are exactly
      the generator's output over its attached inbounds. */
  lemma {:induction false} RunKeepsCache(gen: Generator, s: State, ops: seq<Op>)
    requires Valid(gen, s) && CarefulRun(gen, s, ops)
    ensures forall c :: c in Run(gen, s, ops).clients ==> Cached(gen, c, Run(gen, s, ops).inbounds)
    ensures Valid(gen, Run(gen, s, ops))
    decreases |ops|
  {
    hide Careful, Cached, Apply;
    if ops != [] {
      StepKeeps(gen, s, ops[0]);
      RunKeepsCache(gen, Apply(gen, s, ops[0]), ops[1..]);
    }
  }

  // ---------- links of other kinds ----------

  /** Links that are not local survive saves and edits; adding or deleting an inbound drops exactly
      those that carry its tag as remark. */
  lemma ExternalsSurvive(gen: Generator, c: Client, inbounds: seq<LinkInbound>, inb: LinkInbound, oldTag: string,
                         l: Link)
    requires l.kind != LOCAL
    ensures multiset(Relinked(gen, c, inbounds).links)[l] == multiset(c.links)[l]
    ensures multiset(InboundChanged(gen, c, inb, oldTag).links)[l] == multiset(c.links)[l]
    ensures var kept := if l.remark == inb.tag then 0 else multiset(c.links)[l];
            multiset(InboundAdded(gen, c, inb).links)[l] == kept
            && multiset(InboundDeleted(c, inb.id, inb.tag).links)[l] == kept
  {
    hide Attached, LocalLinks, Keep;
    AttachedExternal(gen, c.config, c.inbounds, inbounds, l);
    LocalLinksCount(gen, c.config, inb, l);
    KeepCount(c.links, External(), l);
    KeepCount(c.links, NotTagged(inb.tag), l);
    KeepCount(c.links, NotReplaced(inb.tag, oldTag), l);
  }

  /** The cache of an attached client survives an inbound edit, a rename or a TLS edit if and only if
      the client lists the inbound once or has no links from it. */
  lemma InboundEditExact(gen: Generator, c: Client, inbounds: seq<LinkInbound>, inb: LinkInbound, oldTag: string,
                         before: LinkInbound)
    requires UniqueInbounds(inbounds) && Cached(gen, c, inbounds) && Replaces(inbounds, inb, oldTag, before)
    requires inb.id in c.inbounds
    ensures Cached(gen, InboundChanged(gen, c, inb, oldTag), Replace(inbounds, inb))
            <==> multiset(c.inbounds)[inb.id] == 1 || LocalLinks(gen, c.config, inb) == []
  {
    hide Cached, Counted, LocalLinks, UniqueInbounds, Keep;
    CachedIsCounted(gen, c, inbounds);
    ChangedExact(gen, c, inbounds, inb, oldTag, before);
    ReplaceUnique(inbounds, inb, oldTag, before);
    CachedIsCounted(gen, InboundChanged(gen, c, inb, oldTag), Replace(inbounds, inb));
  }

  lemma ReplaceUnique(inbounds: seq<LinkInbound>, inb: LinkInbound, oldTag: string, before: LinkInbound)
    requires UniqueInbounds(inbounds) && Replaces(inbounds, inb, oldTag, before)
    ensures UniqueInbounds(Replace(inbounds, inb))
  {
    hide Replace;
    ReplaceElements(inbounds, inb, before);
  }

  /** A case of it: listed twice, the inbound's links are written once only. */
  lemma RepeatedInboundBreaksCache(c: Client, inb: LinkInbound)
    requires c.inbounds == [inb.id, inb.id] && c.links == [] && inb.kind in WITH_LINK
    ensures var gen := (config: Config, i: LinkInbound) => ["uri"];
            !Cached(gen, InboundChanged(gen, Relinked(gen, c, [inb]), inb, inb.tag), [inb])
  {
    var gen := (config: Config, i: LinkInbound) => ["uri"];
    var l := Link(LOCAL, inb.tag, "uri");
    assert LocalLinks(gen, c.config, inb) == [l];
    assert c.inbounds[..1] == [inb.id] && c.inbounds[..1][..0] == [];
    assert Attached(gen, c.config, [], [inb]) == [];
    assert Attached(gen, c.config, [inb.id], [inb]) == [l];
    assert Attached(gen, c.config, c.inbounds, [inb]) == [l, l];
    var changed := InboundChanged(gen, Relinked(gen, c, [inb]), inb, inb.tag);
    KeepCount(Relinked(gen, c, [inb]).links, NotReplaced(inb.tag, inb.tag), l);
    assert multiset(changed.links)[l] == 1;
  }
}
