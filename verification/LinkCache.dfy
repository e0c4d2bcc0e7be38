/** The stored `local` links of a client are a cache of what the link generator prints for the
inbounds the client is attached to (service/client.go:185-389).

The hostname is fixed; the generator is a parameter, deterministic in config and inbound. */
module LinkCache {
  import opened Model
  import opened UintArrays

  /** `rest` is everything else the generator reads: options, addresses, TLS. */
  datatype LinkInbound = LinkInbound(id: nat, tag: string, kind: string, rest: string)

  type Generator = (Config, LinkInbound) -> seq<string>

  const WITH_LINK := {"socks", "http", "mixed", "shadowsocks", "naive", "hysteria", "hysteria2", "anytls", "tuic",
                      "vless", "trojan", "vmess"}

  const LOCAL := "local"

  /** Only the types with a link print one. */
  function LinkGenerator(gen: Generator, config: Config, inb: LinkInbound): seq<string> {
    if inb.kind in WITH_LINK then gen(config, inb) else []
  }

  function LocalLinks(gen: Generator, config: Config, inb: LinkInbound): seq<Link> {
    var uris := LinkGenerator(gen, config, inb);
    seq(|uris|, i requires 0 <= i < |uris| => Link(LOCAL, inb.tag, uris[i]))
  }

  function ById(inbounds: seq<LinkInbound>, id: nat): (r: Option<LinkInbound>)
    ensures r.Some? ==> r.value in inbounds && r.value.id == id
    ensures r.None? ==> forall i :: i in inbounds ==> i.id != id
  {
    if inbounds == [] then None
    else if inbounds[0].id == id then Some(inbounds[0])
    else ById(inbounds[1..], id)
  }

  function ByTag(inbounds: seq<LinkInbound>, tag: string): (r: Option<LinkInbound>)
    ensures r.Some? ==> r.value in inbounds && r.value.tag == tag
    ensures r.None? ==> forall i :: i in inbounds ==> i.tag != tag
  {
    if inbounds == [] then None
    else if inbounds[0].tag == tag then Some(inbounds[0])
    else ByTag(inbounds[1..], tag)
  }

  /** An id or a tag belongs to one inbound. */
  ghost predicate UniqueInbounds(inbounds: seq<LinkInbound>) {
    forall i, j :: i in inbounds && j in inbounds && (i.id == j.id || i.tag == j.tag) ==> i == j
  }

  /** The generator's output over a list of attached inbounds; unknown ids print nothing. */
  function Attached(gen: Generator, config: Config, ids: seq<nat>, inbounds: seq<LinkInbound>): seq<Link> {
    if ids == [] then []
    else
      var n := |ids| - 1;
      Attached(gen, config, ids[..n], inbounds)
      + match ById(inbounds, ids[n]) { case None => [] case Some(inb) => LocalLinks(gen, config, inb) }
  }

  function Keep(links: seq<Link>, p: Link -> bool): seq<Link> {
    if links == [] then []
    else
      var n := |links| - 1;
      Keep(links[..n], p) + if p(links[n]) then [links[n]] else []
  }

  function External(): Link -> bool {
    (l: Link) => l.kind != LOCAL
  }

  function NotTagged(tag: string): Link -> bool {
    (l: Link) => l.remark != tag
  }

  function NotReplaced(tag: string, oldTag: string): Link -> bool {
    (l: Link) => l.kind != LOCAL || (l.remark != tag && l.remark != oldTag)
  }

  // ---------- what each operation does to one row ----------

  function Relinked(gen: Generator, c: Client, inbounds: seq<LinkInbound>): Client {
    c.(links := Attached(gen, c.config, c.inbounds, inbounds) + Keep(c.links, External()))
  }

  function InboundAdded(gen: Generator, c: Client, inb: LinkInbound): Client {
    c.(inbounds := c.inbounds + [inb.id],
       links := LocalLinks(gen, c.config, inb) + Keep(c.links, NotTagged(inb.tag)))
  }

  function InboundDeleted(c: Client, id: nat, tag: string): Client {
    c.(inbounds := Without(c.inbounds, {id}), links := Keep(c.links, NotTagged(tag)))
  }

  function InboundChanged(gen: Generator, c: Client, inb: LinkInbound, oldTag: string): Client {
    c.(links := LocalLinks(gen, c.config, inb) + Keep(c.links, NotReplaced(inb.tag, oldTag)))
  }

  /** Every row that satisfies `p` is replaced by its image. */
  function Updated(t: seq<Client>, p: Client -> bool, f: Client -> Client): (r: seq<Client>)
    ensures |r| == |t|
  {
    seq(|t|, i requires 0 <= i < |t| => if p(t[i]) then f(t[i]) else t[i])
  }

  function Adding(t: seq<Client>, gen: Generator, initIds: set<nat>, inb: LinkInbound): seq<Client> {
    Updated(t, (c: Client) => c.id in initIds, (c: Client) => InboundAdded(gen, c, inb))
  }

  function Deleting(t: seq<Client>, id: nat, tag: string): seq<Client> {
    Updated(t, (c: Client) => id in c.inbounds, (c: Client) => InboundDeleted(c, id, tag))
  }

  function Changing(t: seq<Client>, gen: Generator, inb: LinkInbound, oldTag: string): seq<Client> {
    Updated(t, (c: Client) => inb.id in c.inbounds, (c: Client) => InboundChanged(gen, c, inb, oldTag))
  }

  function ChangingAll(t: seq<Client>, gen: Generator, changed: seq<LinkInbound>, oldTag: string): seq<Client> {
    if changed == [] then t
    else
      var n := |changed| - 1;
      Changing(ChangingAll(t, gen, changed[..n], oldTag), gen, changed[n], oldTag)
  }

  // ---------- the loops ----------

  class LinkStore {
    const gen: Generator
    var clients: seq<Client>
    var inbounds: seq<LinkInbound>

    constructor (gen: Generator, clients: seq<Client>, inbounds: seq<LinkInbound>)
      ensures this.gen == gen && this.clients == clients && this.inbounds == inbounds
    {
      this.gen, this.clients, this.inbounds := gen, clients, inbounds;
    }

    method NewLocalLinks(config: Config, inbound: LinkInbound) returns (links: seq<Link>)
      ensures links == LocalLinks(gen, config, inbound)
    {
      var newLinks := LinkGenerator(gen, config, inbound);
      links := [];
      for i := 0 to |newLinks|
        invariant links == LocalLinks(gen, config, inbound)[..i]
      {
        links := links + [Link(LOCAL, inbound.tag, newLinks[i])];
      }
    }

    method KeepLinks(links: seq<Link>, p: Link -> bool) returns (kept: seq<Link>)
      ensures kept == Keep(links, p)
    {
      kept := [];
      for i := 0 to |links|
        invariant kept == Keep(links[..i], p)
      {
        assert links[..i + 1][..i] == links[..i];
        if p(links[i]) {
          kept := kept + [links[i]];
        }
      }
      assert links[..|links|] == links;
    }

    method FixedLinks(client: Client) returns (newLinks: seq<Link>)
      ensures newLinks == Relinked(gen, client, inbounds).links
    {
      hide LocalLinks, Keep, ById;
      newLinks := [];
      for i := 0 to |client.inbounds|
        invariant newLinks == Attached(gen, client.config, client.inbounds[..i], inbounds)
      {
        assert client.inbounds[..i + 1][..i] == client.inbounds[..i];
        var inbound := ById(inbounds, client.inbounds[i]);
        if inbound.None? {
          continue;
        }
        if inbound.value.kind !in WITH_LINK {
          NoLinks(gen, client.config, inbound.value);
          continue;
        }
        var links := NewLocalLinks(client.config, inbound.value);
        newLinks := newLinks + links;
      }
      assert client.inbounds[..|client.inbounds|] == client.inbounds;
      var external := KeepLinks(client.links, External());
      newLinks := newLinks + external;
    }

    /** Rewrites the links of the rows about to be saved, in place. */
    method UpdateLinksWithFixedInbounds(rows: array<Client>)
      modifies rows
      ensures forall k :: 0 <= k < rows.Length ==> rows[k] == Relinked(gen, old(rows[k]), inbounds)
    {
      hide Attached, Keep;
      for k := 0 to rows.Length
        invariant forall j :: 0 <= j < k ==> rows[j] == Relinked(gen, old(rows[j]), inbounds)
        invariant forall j :: k <= j < rows.Length ==> rows[j] == old(rows[j])
      {
        var links := FixedLinks(rows[k]);
        rows[k] := rows[k].(links := links);
      }
    }

    method UpdateClientsOnInboundAdd(initIds: set<nat>, inbound: LinkInbound)
      requires DistinctIds(clients)
      modifies this`clients
      ensures clients == Adding(old(clients), gen, initIds, inbound)
      ensures forall k :: 0 <= k < |old(clients)| ==>
                clients[k].inbounds
                == old(clients)[k].inbounds + if old(clients)[k].id in initIds then [inbound.id] else []
    {
      hide Save, SaveAll, Select, Keep, LocalLinks;
      var p := (c: Client) => c.id in initIds;
      ghost var f := (c: Client) => InboundAdded(gen, c, inbound);
      var rows := Select(clients, p);
      NoImages(clients, f);
      for i := 0 to |rows|
        invariant clients == SaveAll(old(clients), Images(rows[..i], f))
      {
        ImagesSnoc(old(clients), rows[..i], rows[i], f);
        assert rows[..i + 1] == rows[..i] + [rows[i]];
        var client := rows[i];
        client := client.(inbounds := client.inbounds + [inbound.id]);
        var newLinks := NewLocalLinks(client.config, inbound);
        var kept := KeepLinks(client.links, NotTagged(inbound.tag));
        client := client.(links := newLinks + kept);
        clients := Save(clients, client);
      }
      assert rows[..|rows|] == rows;
      SavedOneByOne(old(clients), p, f);
    }

    method UpdateClientsOnInboundDelete(id: nat, tag: string)
      requires DistinctIds(clients)
      modifies this`clients
      ensures clients == Deleting(old(clients), id, tag)
    {
      hide Save, SaveAll, Select, Keep, Without;
      var p := (c: Client) => id in c.inbounds;
      ghost var f := (c: Client) => InboundDeleted(c, id, tag);
      var rows := Select(clients, p);
      NoImages(clients, f);
      for i := 0 to |rows|
        invariant clients == SaveAll(old(clients), Images(rows[..i], f))
      {
        ImagesSnoc(old(clients), rows[..i], rows[i], f);
        assert rows[..i + 1] == rows[..i] + [rows[i]];
        var client := rows[i];
        var newInbounds := DropInbound(client.inbounds, id);
        client := client.(inbounds := newInbounds);
        var kept := KeepLinks(client.links, NotTagged(tag));
        client := client.(links := kept);
        clients := Save(clients, client);
      }
      assert rows[..|rows|] == rows;
      SavedOneByOne(old(clients), p, f);
    }

    method DropInbound(ids: seq<nat>, id: nat) returns (kept: seq<nat>)
      ensures kept == Without(ids, {id})
    {
      kept := [];
      for i := 0 to |ids|
        invariant kept == Without(ids[..i], {id})
      {
        assert ids[..i + 1] == ids[..i] + [ids[i]];
        WithoutAppend(ids[..i], ids[i], {id});
        if ids[i] != id {
          kept := kept + [ids[i]];
        }
      }
      assert ids[..|ids|] == ids;
    }

    /** One inbound after an edit (with its former tag), or all inbounds of an edited TLS profile. */
    method UpdateLinksByInboundChange(changed: seq<LinkInbound>, oldTag: string)
      requires DistinctIds(clients)
      modifies this`clients
      ensures clients == ChangingAll(old(clients), gen, changed, oldTag)
    {
      hide Changing;
      for i := 0 to |changed|
        invariant DistinctIds(clients)
        invariant clients == ChangingAll(old(clients), gen, changed[..i], oldTag)
      {
        assert changed[..i + 1][..i] == changed[..i];
        ChangingDistinct(clients, gen, changed[i], oldTag);
        UpdateLinksByOneChange(changed[i], oldTag);
      }
      assert changed[..|changed|] == changed;
    }

    method UpdateLinksByOneChange(inbound: LinkInbound, oldTag: string)
      requires DistinctIds(clients)
      modifies this`clients
      ensures clients == Changing(old(clients), gen, inbound, oldTag)
    {
      hide Save, SaveAll, Select, Keep, LocalLinks;
      var p := (c: Client) => inbound.id in c.inbounds;
      ghost var f := (c: Client) => InboundChanged(gen, c, inbound, oldTag);
      var rows := Select(clients, p);
      NoImages(clients, f);
      for i := 0 to |rows|
        invariant clients == SaveAll(old(clients), Images(rows[..i], f))
      {
        ImagesSnoc(old(clients), rows[..i], rows[i], f);
        assert rows[..i + 1] == rows[..i] + [rows[i]];
        var client := rows[i];
        var newLinks := NewLocalLinks(client.config, inbound);
        var kept := KeepLinks(client.links, NotReplaced(inbound.tag, oldTag));
        client := client.(links := newLinks + kept);
        clients := Save(clients, client);
      }
      assert rows[..|rows|] == rows;
      SavedOneByOne(old(clients), p, f);
    }
  }

  lemma NoLinks(gen: Generator, config: Config, inb: LinkInbound)
    requires inb.kind !in WITH_LINK
    ensures LocalLinks(gen, config, inb) == []
  {
  }

  // ---------- saving images one by one ----------

  function Images(rows: seq<Client>, f: Client -> Client): (r: seq<Client>)
    ensures |r| == |rows|
  {
    seq(|rows|, i requires 0 <= i < |rows| => f(rows[i]))
  }

  lemma {:induction false} SaveAllSnoc(t: seq<Client>, rows: seq<Client>, r: Client)
    ensures SaveAll(t, rows + [r]) == Save(SaveAll(t, rows), r)
    decreases |rows|
  {
    hide Save;
    if rows == [] {
      assert SaveAll(Save(t, r), []) == Save(t, r);
      assert (rows + [r])[1..] == [];
    } else {
      assert (rows + [r])[1..] == rows[1..] + [r];
      SaveAllSnoc(Save(t, rows[0]), rows[1..], r);
    }
  }

  lemma NoImages(t: seq<Client>, f: Client -> Client)
    ensures SaveAll(t, Images([], f)) == t
  {
  }

  lemma ImagesSnoc(t: seq<Client>, rows: seq<Client>, c: Client, f: Client -> Client)
    ensures SaveAll(t, Images(rows + [c], f)) == Save(SaveAll(t, Images(rows, f)), f(c))
  {
    assert Images(rows + [c], f) == Images(rows, f) + [f(c)];
    SaveAllSnoc(t, Images(rows, f), f(c));
  }

  lemma SavedOneByOne(t: seq<Client>, p: Client -> bool, f: Client -> Client)
    requires DistinctIds(t) && forall c :: f(c).id == c.id
    ensures SaveAll(t, Images(Select(t, p), f)) == Updated(t, p, f)
  {
    hide SaveAll, Select;
    var rows := Images(Select(t, p), f);
    var target := Updated(t, p, f);
    SelectElements(t, p);
    forall r | r in rows ensures r in target {
      var j :| 0 <= j < |rows| && rows[j] == r;
      assert Select(t, p)[j] in Select(t, p);
      var k :| 0 <= k < |t| && t[k] == Select(t, p)[j];
      assert target[k] == r;
    }
    SaveAllRows(t, rows, target);
    forall k | 0 <= k < |t| ensures target[k] in rows || target[k] == t[k] {
      if p(t[k]) {
        assert t[k] in t;
        var j :| 0 <= j < |Select(t, p)| && Select(t, p)[j] == t[k];
        assert rows[j] == target[k];
      }
    }
  }

  lemma ChangingDistinct(t: seq<Client>, gen: Generator, inb: LinkInbound, oldTag: string)
    requires DistinctIds(t)
    ensures DistinctIds(Changing(t, gen, inb, oldTag))
  {
    forall k | 0 <= k < |t| ensures Changing(t, gen, inb, oldTag)[k].id == t[k].id {
    }
  }

  // ---------- the operations row by row ----------

  lemma {:induction false} KeepCount(links: seq<Link>, p: Link -> bool, l: Link)
    ensures multiset(Keep(links, p))[l] == if p(l) then multiset(links)[l] else 0
  {
    if links != [] {
      var n := |links| - 1;
      KeepCount(links[..n], p, l);
      assert links == links[..n] + [links[n]];
    }
  }

  lemma LocalLinksCount(gen: Generator, config: Config, inb: LinkInbound, l: Link)
    requires l.kind != LOCAL || l.remark != inb.tag
    ensures multiset(LocalLinks(gen, config, inb))[l] == 0
  {
    assert l !in LocalLinks(gen, config, inb);
  }

  lemma {:induction false} WithoutCount(ids: seq<nat>, id: nat, x: nat)
    ensures multiset(Without<nat>(ids, {id}))[x] == if x == id then 0 else multiset(ids)[x]
  {
    if ids != [] {
      WithoutCount(ids[1..], id, x);
      assert ids == [ids[0]] + ids[1..];
    }
  }

  /** The types that have links, and what a local link looks like. */
  lemma LocalLinksByRow(gen: Generator, config: Config, inb: LinkInbound)
    ensures inb.kind in {"socks", "http", "mixed", "shadowsocks", "naive", "hysteria", "hysteria2", "anytls", "tuic",
                         "vless", "trojan", "vmess"} ==>
              |LocalLinks(gen, config, inb)| == |gen(config, inb)|
              && forall i :: 0 <= i < |gen(config, inb)| ==>
                   LocalLinks(gen, config, inb)[i] == Link("local", inb.tag, gen(config, inb)[i])
  {
  }

  /** Links are kept one by one, in order. */
  lemma {:induction false} KeepInOrder(a: seq<Link>, b: seq<Link>, p: Link -> bool)
    ensures Keep(a + b, p) == Keep(a, p) + Keep(b, p)
  {
    if b == [] {
      assert a + b == a;
    } else {
      var n := |b| - 1;
      assert (a + b)[..|a| + n] == a + b[..n];
      KeepInOrder(a, b[..n], p);
    }
  }

  /** Inbounds are gone through one by one, in the client's order. */
  lemma {:induction false} AttachedInOrder(gen: Generator, config: Config, a: seq<nat>, b: seq<nat>,
                                           inbounds: seq<LinkInbound>)
    ensures Attached(gen, config, a + b, inbounds)
            == Attached(gen, config, a, inbounds) + Attached(gen, config, b, inbounds)
  {
    hide ById, LocalLinks;
    if b == [] {
      assert a + b == a;
    } else {
      var n := |b| - 1;
      assert (a + b)[..|a| + n] == a + b[..n];
      AttachedInOrder(gen, config, a, b[..n], inbounds);
    }
  }

  /** A relinked row has the links of its inbounds in list order, and then other links it had; its old local
      links are gone, and nothing but its links changes. */
  lemma RelinkedRow(gen: Generator, c: Client, inbounds: seq<LinkInbound>, i: nat)
    ensures var d := Relinked(gen, c, inbounds); var local := Attached(gen, c.config, c.inbounds, inbounds);
            && d == c.(links := d.links) && local <= d.links
            && (i < |local| ==> d.links[i].kind == "local")
            && (|local| <= i < |d.links| ==> d.links[i].kind != "local" && d.links[i] in c.links)
  {
    hide Attached, Keep;
    var local, kept := Attached(gen, c.config, c.inbounds, inbounds), Keep(c.links, External());
    if i < |local| {
      assert local[i] in local;
      AttachedLocal(gen, c.config, c.inbounds, inbounds);
    } else if i < |local| + |kept| {
      assert kept[i - |local|] in kept;
      KeepCount(c.links, External(), kept[i - |local|]);
    }
  }

  lemma {:induction false} AttachedLocal(gen: Generator, config: Config, ids: seq<nat>, inbounds: seq<LinkInbound>)
    ensures forall l :: l in Attached(gen, config, ids, inbounds) ==> l.kind == LOCAL
  {
    if ids != [] {
      AttachedLocal(gen, config, ids[..|ids| - 1], inbounds);
    }
  }

  /** Exactly the initial clients get the inbound at the end of their list. Their links then begin with the
      generator's, which are all they have under its tag, and every other link stays. */
  lemma AddedRow(t: seq<Client>, gen: Generator, initIds: set<nat>, inb: LinkInbound, k: nat, l: Link)
    requires k < |t|
    ensures var c, d := t[k], Adding(t, gen, initIds, inb)[k];
            if c.id in initIds then
              && d == c.(inbounds := c.inbounds + [inb.id], links := d.links)
              && LocalLinks(gen, c.config, inb) <= d.links
              && multiset(d.links)[l] == if l.remark == inb.tag then multiset(LocalLinks(gen, c.config, inb))[l]
                                         else multiset(c.links)[l]
            else d == c
  {
    hide LocalLinks, Keep;
    KeepCount(t[k].links, NotTagged(inb.tag), l);
    if l.remark != inb.tag {
      LocalLinksCount(gen, t[k].config, inb, l);
    }
  }

  /** Exactly the attached clients lose the inbound, wherever and however often they list it, and every
      link with its tag as remark. */
  lemma DeletedRow(t: seq<Client>, id: nat, tag: string, k: nat, l: Link, x: nat)
    requires k < |t|
    ensures var c, d := t[k], Deleting(t, id, tag)[k];
            if id in c.inbounds then
              && d == c.(inbounds := d.inbounds, links := d.links)
              && multiset(d.inbounds)[x] == (if x == id then 0 else multiset(c.inbounds)[x])
              && multiset(d.links)[l] == if l.remark == tag then 0 else multiset(c.links)[l]
            else d == c
  {
    hide Keep, Without;
    KeepCount(t[k].links, NotTagged(tag), l);
    WithoutCount(t[k].inbounds, id, x);
  }

  /** Exactly the attached clients exchange the local links under the new and the old tag for the
      generator's, which come first. */
  lemma ChangedRow(t: seq<Client>, gen: Generator, inb: LinkInbound, oldTag: string, k: nat, l: Link)
    requires k < |t|
    ensures var c, d := t[k], Changing(t, gen, inb, oldTag)[k];
            if inb.id in c.inbounds then
              && d == c.(links := d.links) && LocalLinks(gen, c.config, inb) <= d.links
              && multiset(d.links)[l] == if l.kind == "local" && l.remark == inb.tag
                                         then multiset(LocalLinks(gen, c.config, inb))[l]
                                         else if l.kind == "local" && l.remark == oldTag then 0
                                         else multiset(c.links)[l]
            else d == c
  {
    hide LocalLinks, Keep;
    KeepCount(t[k].links, NotReplaced(inb.tag, oldTag), l);
    if l.kind != LOCAL || l.remark != inb.tag {
      LocalLinksCount(gen, t[k].config, inb, l);
    }
  }
}
