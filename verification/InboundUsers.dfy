/** The users an inbound serves, as the database says (service/inbounds.go).

There are two readings of the client table: the inline user list of a (re)started inbound, and
the live user set that is swapped into a running hysteria2 inbound. */
module InboundUsers {
  import opened Model
  import opened Hy2Service

  type Settings = map<string, string>

  datatype Inbound = Inbound(
    id: nat, kind: string, tag: string,
    version: int, cipher: string, hasTransport: bool, hasTls: bool)

  /** One user of an inbound: a live pair, or inline settings. `Unreadable` is a selected client
      without settings for the protocol, on which the scan of the query result fails. */
  datatype Entry = Pair(name: string, password: string) | Inline(settings: Settings) | Unreadable

  /** What a running inbound holds. */
  datatype Serving = Hy2(userMap: map<string, string>) | Other(users: seq<Entry>)

  predicate HasUser(kind: string) {
    kind in {"mixed", "socks", "http", "shadowsocks", "vmess", "trojan", "naive", "hysteria", "shadowtls", "tuic",
             "hysteria2", "vless", "anytls"}
  }

  /** The key of a client's config that holds its settings for the inbound. */
  function ConfigKey(inb: Inbound): string {
    if inb.kind == "shadowsocks" && inb.cipher == "2022-blake3-aes-128-gcm" then "shadowsocks16" else inb.kind
  }

  predicate TakesUsers(inb: Inbound) {
    HasUser(inb.kind) && !(inb.kind == "shadowtls" && inb.version < 3)
  }

  predicate StripsVision(inb: Inbound) {
    inb.kind == "vless" && (inb.hasTransport || !inb.hasTls)
  }

  const VISION := "xtls-rprx-vision"

  function RemoveVision(s: string): string {
    if |s| < |VISION| then s
    else if s[..|VISION|] == VISION then RemoveVision(s[|VISION|..])
    else [s[0]] + RemoveVision(s[1..])
  }

  function StripVision(settings: Settings): Settings {
    map k | k in settings :: RemoveVision(settings[k])
  }

  function Get(settings: Settings, key: string): string {
    if key in settings then settings[key] else ""
  }

  // ---------- one client ----------

  /** Selected for the inline list: enabled and attached. The ban flag is not looked at. */
  predicate Selected(c: Client, inb: Inbound) {
    c.enable && inb.id in c.inbounds
  }

  function InlineEntry(c: Client, inb: Inbound): Option<Entry> {
    if !TakesUsers(inb) || !Selected(c, inb) then None
    else if ConfigKey(inb) !in c.config then Some(Unreadable)
    else
      var settings := c.config[ConfigKey(inb)];
      Some(Inline(if StripsVision(inb) then StripVision(settings) else settings))
  }

  predicate HasHy2Password(c: Client) {
    "hysteria2" in c.config && "password" in c.config["hysteria2"]
  }

  predicate LiveSelected(c: Client, inb: Inbound) {
    c.enable && !c.banned && HasHy2Password(c) && inb.id in c.inbounds
  }

  function LiveEntry(c: Client, inb: Inbound): Option<Entry> {
    if LiveSelected(c, inb) && c.config["hysteria2"]["password"] != ""
    then Some(Pair(c.name, c.config["hysteria2"]["password"]))
    else None
  }

  function EntryOf(c: Client, inb: Inbound, live: bool): Option<Entry> {
    if live && inb.kind == "hysteria2" then LiveEntry(c, inb) else InlineEntry(c, inb)
  }

  /** The inline user a client is, in terms of its row: enabled and attached, under the key of the
      protocol, with the vision flow taken out of vless users that have a transport or no TLS. */
  lemma InlineUser(c: Client, inb: Inbound)
    ensures var e := EntryOf(c, inb, false); var vless := inb.kind == "vless" && (inb.hasTransport || !inb.hasTls);
            var key := if inb.kind == "shadowsocks" && inb.cipher == "2022-blake3-aes-128-gcm" then "shadowsocks16"
                       else inb.kind;
            && (e.Some? <==> c.enable && inb.id in c.inbounds && !(inb.kind == "shadowtls" && inb.version < 3)
                             && inb.kind in {"mixed", "socks", "http", "shadowsocks", "vmess", "trojan", "naive",
                                             "hysteria", "shadowtls", "tuic", "hysteria2", "vless", "anytls"})
            && (e.Some? && key !in c.config ==> e.value == Unreadable)
            && (e.Some? && key in c.config ==>
                  && e.value.Inline? && e.value.settings.Keys == c.config[key].Keys
                  && forall k :: k in c.config[key] ==>
                       e.value.settings[k] == if vless then RemoveVision(c.config[key][k]) else c.config[key][k])
  {
    hide RemoveVision, HasUser;
    assert HasUser(inb.kind) <==> inb.kind in {"mixed", "socks", "http", "shadowsocks", "vmess", "trojan", "naive",
                                               "hysteria", "shadowtls", "tuic", "hysteria2", "vless", "anytls"}
    by {
      UserKinds(inb.kind);
    }
  }

  lemma UserKinds(kind: string)
    ensures HasUser(kind) <==> kind in {"mixed", "socks", "http", "shadowsocks", "vmess", "trojan", "naive",
                                        "hysteria", "shadowtls", "tuic", "hysteria2", "vless", "anytls"}
  {
  }

  /** The live user a client of a hysteria2 inbound is, in terms of its row. */
  lemma LiveUser(c: Client, inb: Inbound)
    requires inb.kind == "hysteria2"
    ensures EntryOf(c, inb, true) ==
            if c.enable && !c.banned && inb.id in c.inbounds && "hysteria2" in c.config
               && "password" in c.config["hysteria2"] && c.config["hysteria2"]["password"] != ""
            then Some(Pair(c.name, c.config["hysteria2"]["password"])) else None
  {
  }

  predicate VisionAt(s: string, i: nat) {
    i + 16 <= |s| && s[i..i + 16] == "xtls-rprx-vision"
  }

  lemma VisionStep(s: string, b: string)
    ensures RemoveVision("xtls-rprx-vision" + b) == RemoveVision(b)
    ensures s != [] && !VisionAt(s, 0) ==> RemoveVision(s) == [s[0]] + RemoveVision(s[1..])
  {
    assert VISION == "xtls-rprx-vision" && |VISION| == 16;
    assert (VISION + b)[..16] == VISION && (VISION + b)[16..] == b;
  }

  lemma VisionLater(s: string, i: nat)
    requires s != []
    ensures VisionAt(s[1..], i) <==> VisionAt(s, i + 1)
  {
    assert i + 16 <= |s[1..]| ==> s[1..][i..i + 16] == s[i + 1..i + 17];
  }

  /** Of a text the part up to the first flow stays, and the rest is treated likewise. */
  lemma {:induction false} VisionRemoved(a: string, b: string)
    requires forall i: nat :: i < |a| ==> !VisionAt(a + "xtls-rprx-vision" + b, i)
    ensures RemoveVision(a + "xtls-rprx-vision" + b) == a + RemoveVision(b)
  {
    hide RemoveVision, VisionAt;
    var s := a + "xtls-rprx-vision" + b;
    VisionStep(s, b);
    if a == [] {
      assert s == "xtls-rprx-vision" + b;
    } else {
      assert s[1..] == a[1..] + "xtls-rprx-vision" + b;
      forall i: nat | i < |a[1..]| ensures !VisionAt(s[1..], i) {
        VisionLater(s, i);
      }
      VisionRemoved(a[1..], b);
      assert [a[0]] + a[1..] == a;
    }
  }

  /** Text without the flow stays. */
  lemma {:induction false} NoVision(s: string)
    requires forall i: nat :: i < |s| ==> !VisionAt(s, i)
    ensures RemoveVision(s) == s
  {
    hide VisionAt;
    if |s| >= |VISION| {
      VisionStep(s, "");
      forall i: nat | i < |s[1..]| ensures !VisionAt(s[1..], i) {
        VisionLater(s, i);
      }
      NoVision(s[1..]);
    }
  }

  // ---------- the table ----------

  function Listed(e: Option<Entry>): seq<Entry> {
    if e.Some? then [e.value] else []
  }

  function Entries(t: seq<Client>, inb: Inbound, live: bool): seq<Entry> {
    if t == [] then [] else Listed(EntryOf(t[0], inb, live)) + Entries(t[1..], inb, live)
  }

  function EntryName(e: Entry): string {
    match e
    case Pair(name, _) => name
    case Inline(settings) => Get(settings, "name")
    case Unreadable => ""
  }

  function EntryPassword(e: Entry): string {
    match e
    case Pair(_, password) => password
    case Inline(settings) => Get(settings, "password")
    case Unreadable => ""
  }

  function Names(es: seq<Entry>): (r: seq<string>)
    ensures |r| == |es|
  {
    seq(|es|, i requires 0 <= i < |es| => EntryName(es[i]))
  }

  function Passwords(es: seq<Entry>): (r: seq<string>)
    ensures |r| == |es|
  {
    seq(|es|, i requires 0 <= i < |es| => EntryPassword(es[i]))
  }

  function UserMap(es: seq<Entry>): map<string, string> {
    BuildUsers(Names(es), Passwords(es))
  }

  /** What the inbound should be serving for this table; `None` when its users cannot be read. */
  function Desired(t: seq<Client>, inb: Inbound, live: bool): Option<Serving> {
    var es := Entries(t, inb, live);
    if Unreadable in es then None
    else if inb.kind == "hysteria2" then Some(Hy2(UserMap(es)))
    else Some(Other(es))
  }

  lemma {:induction false} EntriesAppend(t: seq<Client>, more: seq<Client>, inb: Inbound, live: bool)
    ensures Entries(t + more, inb, live) == Entries(t, inb, live) + Entries(more, inb, live)
  {
    if t == [] {
      assert t + more == more;
    } else {
      assert (t + more)[1..] == t[1..] + more;
      EntriesAppend(t[1..], more, inb, live);
    }
  }

  lemma EntriesEmpty(inb: Inbound, live: bool)
    ensures Entries([], inb, live) == []
  {
  }

  lemma EntriesSnoc(t: seq<Client>, c: Client, inb: Inbound, live: bool)
    ensures Entries(t + [c], inb, live) == Entries(t, inb, live) + Listed(EntryOf(c, inb, live))
  {
    EntriesAppend(t, [c], inb, live);
    assert [c][1..] == [];
  }

  /** A query that keeps every row with an entry keeps the entries. */
  lemma {:induction false} EntriesOfSelected(t: seq<Client>, p: Client -> bool, inb: Inbound, live: bool)
    requires forall c :: c in t && EntryOf(c, inb, live).Some? ==> p(c)
    ensures Entries(Select(t, p), inb, live) == Entries(t, inb, live)
  {
    if t != [] {
      EntriesOfSelected(t[1..], p, inb, live);
      assert t[0] in t;
      var kept := if p(t[0]) then [t[0]] else [];
      EntriesAppend(kept, Select(t[1..], p), inb, live);
      assert p(t[0]) ==> kept[1..] == [];
    }
  }

  lemma {:induction false} EntrySource(t: seq<Client>, inb: Inbound, live: bool, e: Entry)
    ensures e in Entries(t, inb, live) <==> exists k :: 0 <= k < |t| && EntryOf(t[k], inb, live) == Some(e)
  {
    if t != [] {
      EntrySource(t[1..], inb, live, e);
      assert e in Entries(t, inb, live) <==>
             EntryOf(t[0], inb, live) == Some(e) || e in Entries(t[1..], inb, live);
      if k :| 0 <= k < |t| && EntryOf(t[k], inb, live) == Some(e) {
        assert k > 0 ==> t[1..][k - 1] == t[k];
      }
      if k :| 0 <= k < |t[1..]| && EntryOf(t[1..][k], inb, live) == Some(e) {
        assert t[k + 1] == t[1..][k];
      }
    }
  }

  // ---------- the loops ----------

  /** The (name, password) pairs of a running hysteria2 inbound. */
  method Hy2Users(clients: seq<Client>, inb: Inbound) returns (names: seq<string>, passwords: seq<string>)
    requires inb.kind == "hysteria2"
    ensures |names| == |passwords|
    ensures BuildUsers(names, passwords) == UserMap(Entries(clients, inb, true))
    ensures Unreadable !in Entries(clients, inb, true)
  {
    hide Entries, Select;
    var selected := (c: Client) => LiveSelected(c, inb);
    SelectElements(clients, selected);
    var rows := Select(clients, selected);
    names, passwords := [], [];
    assert rows[..0] == [];
    EntriesEmpty(inb, true);
    for i := 0 to |rows|
      invariant names == Names(Entries(rows[..i], inb, true))
      invariant passwords == Passwords(Entries(rows[..i], inb, true))
    {
      assert rows[..i + 1] == rows[..i] + [rows[i]];
      EntriesSnoc(rows[..i], rows[i], inb, true);
      assert rows[i] in rows;
      var r := rows[i];
      if r.config["hysteria2"]["password"] == "" {
        continue;
      }
      names := names + [r.name];
      passwords := passwords + [r.config["hysteria2"]["password"]];
    }
    assert rows[..|rows|] == rows;
    EntriesOfSelected(clients, selected, inb, true);
    EntrySource(clients, inb, true, Unreadable);
  }

  /** The inline users of an inbound that is about to be (re)started. */
  method FetchUsers(clients: seq<Client>, inb: Inbound) returns (r: Option<seq<Entry>>)
    requires HasUser(inb.kind)
    ensures r.None? <==> Unreadable in Entries(clients, inb, false)
    ensures r.Some? ==> r.value == Entries(clients, inb, false)
  {
    var selected := (c: Client) => Selected(c, inb);
    hide Entries, Select;
    EntriesOfSelected(clients, selected, inb, false);
    if inb.kind == "shadowtls" && inb.version < 3 {
      NoEntries(clients, inb);
      return Some([]);
    }
    SelectElements(clients, selected);
    var key := inb.kind;
    if inb.kind == "shadowsocks" && inb.cipher == "2022-blake3-aes-128-gcm" {
      key := "shadowsocks16";
    }
    var rows := Select(clients, selected);
    var stripVision := false;
    if inb.kind == "vless" {
      stripVision := inb.hasTransport || !inb.hasTls;
    }
    var users: seq<Entry> := [];
    assert rows[..0] == [];
    EntriesEmpty(inb, false);
    for i := 0 to |rows|
      invariant users == Entries(rows[..i], inb, false)
      invariant Unreadable !in users
    {
      assert rows[..i + 1] == rows[..i] + [rows[i]];
      EntriesSnoc(rows[..i], rows[i], inb, false);
      assert rows[i] in rows;
      if key !in rows[i].config {
        EntrySource(rows, inb, false, Unreadable);
        return None;
      }
      var user := rows[i].config[key];
      if stripVision {
        user := StripVision(user);
      }
      users := users + [Inline(user)];
    }
    assert rows[..|rows|] == rows;
    r := Some(users);
  }

  lemma {:induction false} NoEntries(t: seq<Client>, inb: Inbound)
    requires !TakesUsers(inb)
    ensures Entries(t, inb, false) == []
  {
    if t != [] {
      NoEntries(t[1..], inb);
    }
  }

  /** A started hysteria2 inbound takes name and password from the settings of each user. */
  method NewHy2Inbound(users: seq<Entry>) returns (userMap: map<string, string>)
    ensures userMap == UserMap(users)
  {
    var userList: seq<string> := [];
    var userPasswordList: seq<string> := [];
    for i := 0 to |users|
      invariant userList == Names(users[..i]) && userPasswordList == Passwords(users[..i])
    {
      assert users[..i + 1] == users[..i] + [users[i]];
      userList := userList + [EntryName(users[i])];
      userPasswordList := userPasswordList + [EntryPassword(users[i])];
    }
    assert users[..|users|] == users;
    userMap := BuildUsers(userList, userPasswordList);
  }

  // ---------- live equals restart ----------

  /** The two readings of a selected client agree. */
  predicate Aligned(c: Client) {
    !c.banned && HasHy2Password(c) && c.config["hysteria2"]["password"] != ""
    && Get(c.config["hysteria2"], "name") == c.name
  }

  lemma AlignedRow(c: Client, inb: Inbound)
    requires inb.kind == "hysteria2" && (Selected(c, inb) ==> Aligned(c))
    ensures EntryOf(c, inb, true).Some? <==> Selected(c, inb)
    ensures EntryOf(c, inb, false).Some? <==> Selected(c, inb)
    ensures Selected(c, inb) ==>
              var live, inline := EntryOf(c, inb, true).value, EntryOf(c, inb, false).value;
              && EntryName(live) == EntryName(inline) && EntryPassword(live) == EntryPassword(inline)
              && live.Pair? && inline.Inline?
  {
  }

  lemma {:induction false} AlignedEntries(t: seq<Client>, inb: Inbound)
    requires inb.kind == "hysteria2"
    requires forall c :: c in t && Selected(c, inb) ==> Aligned(c)
    ensures var live, inline := Entries(t, inb, true), Entries(t, inb, false);
            && |live| == |inline| && Unreadable !in live && Unreadable !in inline
            && forall i :: 0 <= i < |live| ==>
                 EntryName(live[i]) == EntryName(inline[i]) && EntryPassword(live[i]) == EntryPassword(inline[i])
  {
    hide EntryOf, EntryName, EntryPassword, Selected, Aligned;
    if t != [] {
      assert t[0] in t;
      AlignedRow(t[0], inb);
      AlignedEntries(t[1..], inb);
    }
  }

  /** Swapping the users in live gives what a restart would give, passwords shared or not. */
  lemma LiveEqualsRestart(t: seq<Client>, inb: Inbound)
    requires inb.kind == "hysteria2"
    requires forall c :: c in t && Selected(c, inb) ==> Aligned(c)
    ensures Desired(t, inb, true) == Desired(t, inb, false)
  {
    AlignedEntries(t, inb);
    var live, inline := Entries(t, inb, true), Entries(t, inb, false);
    assert Names(live) == Names(inline) && Passwords(live) == Passwords(inline);
  }

  /** The password a client would have in a started hysteria2 inbound. */
  function Hy2Password(c: Client): string {
    if HasHy2Password(c) then c.config["hysteria2"]["password"] else ""
  }

  ghost predicate PasswordsDistinct(t: seq<Client>, inb: Inbound) {
    forall i, j :: 0 <= i < j < |t| && Selected(t[i], inb) && Selected(t[j], inb) && Hy2Password(t[i]) != ""
                   ==> Hy2Password(t[i]) != Hy2Password(t[j])
  }

  lemma UserMapKeys(es: seq<Entry>, pw: string)
    ensures pw in UserMap(es) <==> exists e :: e in es && EntryPassword(e) == pw
  {
    LastListingWins(Names(es), Passwords(es), pw);
    assert Passwords(es)[..|es|] == Passwords(es);
    if pw in Passwords(es) {
      var i :| 0 <= i < |es| && Passwords(es)[i] == pw;
      assert es[i] in es;
    }
    if e :| e in es && EntryPassword(e) == pw {
      var i :| 0 <= i < |es| && es[i] == e;
      assert Passwords(es)[i] == pw;
    }
  }

  lemma UserMapName(es: seq<Entry>, pw: string, name: string)
    requires exists e :: e in es && EntryPassword(e) == pw
    requires forall e :: e in es && EntryPassword(e) == pw ==> EntryName(e) == name
    ensures pw in UserMap(es) && UserMap(es)[pw] == name
  {
    UserMapKeys(es, pw);
    var names, passwords := Names(es), Passwords(es);
    LastListingWins(names, passwords, pw);
    var i := |es|;
    while i > 0 && passwords[i - 1] != pw
      invariant 0 <= i <= |es|
      invariant forall j :: i <= j < |es| ==> passwords[j] != pw
    {
      i := i - 1;
    }
    var e :| e in es && EntryPassword(e) == pw;
    var k :| 0 <= k < |es| && es[k] == e;
    assert passwords[k] == pw;
    assert pw !in passwords[i..|es|];
    assert es[i - 1] in es;
  }

  /** With no password shared, one selected client whose readings differ is enough to part the two. */
  lemma LiveEqualsRestartExact(t: seq<Client>, inb: Inbound)
    requires inb.kind == "hysteria2" && PasswordsDistinct(t, inb)
    ensures Desired(t, inb, true) == Desired(t, inb, false) <==> forall c :: c in t && Selected(c, inb) ==> Aligned(c)
  {
    if c :| c in t && Selected(c, inb) && !Aligned(c) {
      NotAligned(t, inb, c);
    } else {
      LiveEqualsRestart(t, inb);
    }
  }

  lemma NotAligned(t: seq<Client>, inb: Inbound, c: Client)
    requires inb.kind == "hysteria2" && PasswordsDistinct(t, inb)
    requires c in t && Selected(c, inb) && !Aligned(c)
    ensures Desired(t, inb, true) != Desired(t, inb, false)
  {
    hide UserMap, Entries;
    if Unreadable in Entries(t, inb, false) {
      EntrySource(t, inb, true, Unreadable);
    } else {
      UserMapsDiffer(t, inb, c);
    }
  }

  lemma UserMapsDiffer(t: seq<Client>, inb: Inbound, c: Client)
    requires inb.kind == "hysteria2" && PasswordsDistinct(t, inb)
    requires c in t && Selected(c, inb) && !Aligned(c)
    requires Unreadable !in Entries(t, inb, false)
    ensures UserMap(Entries(t, inb, true)) != UserMap(Entries(t, inb, false))
  {
    hide UserMap, Entries;
    var k :| 0 <= k < |t| && t[k] == c;
    var live, inline := Entries(t, inb, true), Entries(t, inb, false);
    EntrySource(t, inb, false, Unreadable);
    var own := Inline(c.config["hysteria2"]);
    var pw := Hy2Password(c);
    EntrySource(t, inb, false, own);
    UserMapKeys(inline, pw);
    if pw == "" || c.banned {
      NotServedLive(t, inb, k);
      UserMapKeys(live, pw);
    } else {
      ServedInline(t, inb, k);
      ServedLive(t, inb, k);
      ServedName(t, inb, k);
      UserMapName(inline, pw, EntryName(own));
      UserMapName(live, pw, c.name);
    }
  }

  lemma NotServedLive(t: seq<Client>, inb: Inbound, k: nat)
    requires inb.kind == "hysteria2" && PasswordsDistinct(t, inb)
    requires k < |t| && Selected(t[k], inb) && (Hy2Password(t[k]) == "" || t[k].banned)
    ensures forall e :: e in Entries(t, inb, true) ==> EntryPassword(e) != Hy2Password(t[k])
  {
    forall e | e in Entries(t, inb, true) ensures EntryPassword(e) != Hy2Password(t[k]) {
      EntrySource(t, inb, true, e);
    }
  }

  lemma ServedInline(t: seq<Client>, inb: Inbound, k: nat)
    requires inb.kind == "hysteria2" && PasswordsDistinct(t, inb)
    requires k < |t| && Selected(t[k], inb) && Hy2Password(t[k]) != "" && !t[k].banned
    ensures forall e :: e in Entries(t, inb, false) && EntryPassword(e) == Hy2Password(t[k])
                        ==> e == Inline(t[k].config["hysteria2"])
  {
    hide Entries;
    forall e | e in Entries(t, inb, false) && EntryPassword(e) == Hy2Password(t[k])
      ensures e == Inline(t[k].config["hysteria2"])
    {
      EntrySource(t, inb, false, e);
    }
  }

  lemma ServedLive(t: seq<Client>, inb: Inbound, k: nat)
    requires inb.kind == "hysteria2"
    requires k < |t| && Selected(t[k], inb) && Hy2Password(t[k]) != "" && !t[k].banned
    ensures exists e :: e in Entries(t, inb, true) && EntryPassword(e) == Hy2Password(t[k])
  {
    hide Entries;
    EntrySource(t, inb, true, Pair(t[k].name, Hy2Password(t[k])));
  }

  lemma ServedName(t: seq<Client>, inb: Inbound, k: nat)
    requires inb.kind == "hysteria2" && PasswordsDistinct(t, inb)
    requires k < |t| && Selected(t[k], inb) && Hy2Password(t[k]) != "" && !t[k].banned
    ensures forall e :: e in Entries(t, inb, true) && EntryPassword(e) == Hy2Password(t[k])
                        ==> EntryName(e) == t[k].name
  {
    hide Entries;
    forall e | e in Entries(t, inb, true) && EntryPassword(e) == Hy2Password(t[k])
      ensures EntryName(e) == t[k].name
    {
      EntrySource(t, inb, true, e);
    }
  }

  // ---------- what an inbound serves, row by row ----------

  /** A hysteria2 inbound serves a map, every other one the list of its users: exactly the users that some
      row of the table is, one for every such row, unless one of them cannot be read. */
  lemma DesiredByRow(t: seq<Client>, inb: Inbound, live: bool)
    ensures (Desired(t, inb, live) == None <==> exists c :: c in t && EntryOf(c, inb, live) == Some(Unreadable))
    ensures inb.kind == "hysteria2" && Desired(t, inb, live).Some? ==>
              Desired(t, inb, live) == Some(Hy2(UserMap(Entries(t, inb, live))))
    ensures inb.kind != "hysteria2" && Desired(t, inb, live).Some? ==>
              Desired(t, inb, live) == Some(Other(Entries(t, inb, live)))
    ensures forall e :: e in Entries(t, inb, live) <==> exists c :: c in t && EntryOf(c, inb, live) == Some(e)
    ensures |Entries(t, inb, live)| == |Select(t, (c: Client) => EntryOf(c, inb, live).Some?)|
  {
    hide Entries, EntryOf, UserMap;
    forall e ensures e in Entries(t, inb, live) <==> exists c :: c in t && EntryOf(c, inb, live) == Some(e) {
      EntrySource(t, inb, live, e);
      if c :| c in t && EntryOf(c, inb, live) == Some(e) {
        var k :| 0 <= k < |t| && t[k] == c;
      }
    }
    EntriesCount(t, inb, live);
  }

  lemma {:induction false} EntriesCount(t: seq<Client>, inb: Inbound, live: bool)
    ensures |Entries(t, inb, live)| == |Select(t, (c: Client) => EntryOf(c, inb, live).Some?)|
  {
    hide EntryOf;
    if t != [] {
      EntriesCount(t[1..], inb, live);
    }
  }

  /** A password lets in the last row of the table that has it among the rows that may use the inbound
      live, and no row after it; without such a row it lets nobody in. */
  lemma LivePassword(t: seq<Client>, inb: Inbound, pw: string)
    requires inb.kind == "hysteria2"
    ensures pw in UserMap(Entries(t, inb, true)) <==> exists c :: c in t && MayUse(c, inb, pw)
    ensures forall k :: 0 <= k < |t| && MayUse(t[k], inb, pw) && (forall j :: k < j < |t| ==> !MayUse(t[j], inb, pw))
                        ==> pw in UserMap(Entries(t, inb, true))
                            && UserMap(Entries(t, inb, true))[pw] == t[k].name
  {
    hide Entries, EntryOf, UserMap;
    var es := Entries(t, inb, true);
    UserMapKeys(es, pw);
    forall c: Client ensures EntryOf(c, inb, true) == Some(Pair(c.name, pw)) <==> MayUse(c, inb, pw) {
      LiveUser(c, inb);
    }
    if e :| e in es && EntryPassword(e) == pw {
      EntrySource(t, inb, true, e);
      var k :| 0 <= k < |t| && EntryOf(t[k], inb, true) == Some(e);
      LiveUser(t[k], inb);
      assert t[k] in t && MayUse(t[k], inb, pw);
    }
    forall k | 0 <= k < |t| && MayUse(t[k], inb, pw) && (forall j :: k < j < |t| ==> !MayUse(t[j], inb, pw))
      ensures pw in UserMap(es) && UserMap(es)[pw] == t[k].name
    {
      LastRowWins(t, inb, pw, k);
    }
    if c :| c in t && MayUse(c, inb, pw) {
      LastUser(t, inb, pw);
    }
  }

  /** Enabled, not banned, attached, and with this password. */
  predicate MayUse(c: Client, inb: Inbound, pw: string) {
    && c.enable && !c.banned && inb.id in c.inbounds && pw != ""
    && "hysteria2" in c.config && "password" in c.config["hysteria2"] && c.config["hysteria2"]["password"] == pw
  }

  lemma {:induction false} LastUser(t: seq<Client>, inb: Inbound, pw: string)
    requires exists c :: c in t && MayUse(c, inb, pw)
    ensures exists k :: 0 <= k < |t| && MayUse(t[k], inb, pw) && forall j :: k < j < |t| ==> !MayUse(t[j], inb, pw)
  {
    hide MayUse;
    var c :| c in t && MayUse(c, inb, pw);
    var n := |t| - 1;
    if !MayUse(t[n], inb, pw) {
      assert c in t[..n];
      LastUser(t[..n], inb, pw);
      var k :| 0 <= k < n && MayUse(t[..n][k], inb, pw) && forall j :: k < j < n ==> !MayUse(t[..n][j], inb, pw);
      forall j | k < j < |t| ensures !MayUse(t[j], inb, pw) {
        assert j < n ==> t[..n][j] == t[j];
      }
      assert MayUse(t[k], inb, pw);
    }
  }

  lemma EntriesAround(t: seq<Client>, inb: Inbound, k: nat, e: Entry)
    requires k < |t| && EntryOf(t[k], inb, true) == Some(e)
    ensures Entries(t, inb, true) == Entries(t[..k], inb, true) + [e] + Entries(t[k + 1..], inb, true)
  {
    hide Entries, EntryOf;
    assert t == t[..k] + [t[k]] + t[k + 1..];
    EntriesAppend(t[..k] + [t[k]], t[k + 1..], inb, true);
    EntriesSnoc(t[..k], t[k], inb, true);
  }

  lemma NoSuchPassword(t: seq<Client>, inb: Inbound, pw: string)
    requires inb.kind == "hysteria2" && forall c :: c in t ==> !MayUse(c, inb, pw)
    ensures forall e :: e in Entries(t, inb, true) ==> EntryPassword(e) != pw
  {
    hide Entries, EntryOf;
    forall e | e in Entries(t, inb, true) ensures EntryPassword(e) != pw {
      EntrySource(t, inb, true, e);
      var j :| 0 <= j < |t| && EntryOf(t[j], inb, true) == Some(e);
      LiveUser(t[j], inb);
      assert t[j] in t;
    }
  }

  /** The last entry with a password gives its name. */
  lemma LastEntryWins(before: seq<Entry>, e: Entry, after: seq<Entry>)
    requires forall x :: x in after ==> EntryPassword(x) != EntryPassword(e)
    ensures EntryPassword(e) in UserMap(before + [e] + after)
    ensures UserMap(before + [e] + after)[EntryPassword(e)] == EntryName(e)
  {
    hide BuildUsers;
    var es, i := before + [e] + after, |before|;
    assert es[i] == e;
    forall m | i < m < |es| ensures Passwords(es)[m] != EntryPassword(e) {
      assert es[m] == after[m - i - 1];
    }
    LastListingWins(Names(es), Passwords(es), EntryPassword(e));
    assert EntryPassword(e) !in Passwords(es)[i + 1..|es|];
    assert Passwords(es)[i] == EntryPassword(e) && Names(es)[i] == EntryName(e);
  }

  lemma LastRowWins(t: seq<Client>, inb: Inbound, pw: string, k: nat)
    requires inb.kind == "hysteria2" && k < |t| && MayUse(t[k], inb, pw)
    requires forall j :: k < j < |t| ==> !MayUse(t[j], inb, pw)
    ensures pw in UserMap(Entries(t, inb, true)) && UserMap(Entries(t, inb, true))[pw] == t[k].name
  {
    hide Entries, EntryOf, UserMap;
    LiveUser(t[k], inb);
    var e := Pair(t[k].name, pw);
    EntriesAround(t, inb, k, e);
    NoSuchPassword(t[k + 1..], inb, pw);
    LastEntryWins(Entries(t[..k], inb, true), e, Entries(t[k + 1..], inb, true));
  }
}
