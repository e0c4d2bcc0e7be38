/** From the ban of a client to the sessions of a running hysteria2 inbound: the panel's refresh
(Coherence) and the service's update (Hy2Theorems) joined. */
module LiveBan {
  import opened Model
  import opened Panel
  import InboundUsers
  import Coherence
  import P = Hy2Protocol
  import T = Hy2Theorems

  /** The sessions of the inbound, at rest after the panel's last update. */
  ghost predicate Serving(s: Coherence.State, inb: InboundUsers.Inbound, users: P.UserMap, steps: seq<P.Step>) {
    && P.ValidRun(P.Init(users), steps) && P.Exec(P.Init(users), steps).panel.Ready?
    && inb.tag in s.core && s.core[inb.tag] == InboundUsers.Hy2(P.Exec(P.Init(users), steps).users.userMap)
  }

  /** Another client that may use the inbound under the password. */
  ghost predicate SharedBy(t: seq<Client>, inb: InboundUsers.Inbound, clientId: nat, password: string) {
    exists c :: c in t && c.id != clientId && InboundUsers.LiveSelected(c, inb)
                && InboundUsers.Hy2Password(c) == password
  }

  /** A password of the live map belongs to a served client. */
  lemma ServedPassword(t: seq<Client>, inb: InboundUsers.Inbound, password: string)
    requires inb.kind == "hysteria2"
    requires password in InboundUsers.UserMap(InboundUsers.Entries(t, inb, true))
    ensures exists c :: c in t && InboundUsers.LiveSelected(c, inb) && InboundUsers.Hy2Password(c) == password
  {
    hide InboundUsers.Entries, InboundUsers.UserMap;
    var es := InboundUsers.Entries(t, inb, true);
    InboundUsers.UserMapKeys(es, password);
    var e :| e in es && InboundUsers.EntryPassword(e) == password;
    InboundUsers.EntrySource(t, inb, true, e);
    var k :| 0 <= k < |t| && InboundUsers.EntryOf(t[k], inb, true) == Some(e);
    assert t[k] in t;
  }

  /** In a coherent state every open session of the inbound has the password of a served client, or was
      in flight across the last update. */
  lemma OpenSessionsAreServed(s: Coherence.State, inbounds: seq<InboundUsers.Inbound>, k: nat, users: P.UserMap,
                              steps: seq<P.Step>, sid: P.Sid)
    requires Coherence.Coherent(s, inbounds, true) && k < |inbounds|
    requires inbounds[k].kind == "hysteria2" && inbounds[k].id !in s.stale
    requires Serving(s, inbounds[k], users, steps) && T.Open(P.Exec(P.Init(users), steps), sid)
    ensures var st := P.Exec(P.Init(users), steps); var password := st.table[sid].id.password;
            || T.InFlight(st, st.table[sid])
            || exists c :: c in s.clients && InboundUsers.LiveSelected(c, inbounds[k])
                           && InboundUsers.Hy2Password(c) == password
  {
    hide P.Exec, P.ValidRun, T.InFlight, InboundUsers.Entries, InboundUsers.UserMap, Coherence.Coherent,
         InboundUsers.LiveSelected, InboundUsers.Hy2Password;
    var st := P.Exec(P.Init(users), steps);
    Coherence.LiveMapIsTable(s, inbounds, k);
    T.Eviction(users, steps, sid);
    if st.table[sid].id.password in st.users.userMap {
      ServedPassword(s.clients, inbounds[k], st.table[sid].id.password);
    }
  }

  /** After a ban whose refresh succeeded, an open session with the banned client's password was in
      flight across the update, or another served client has the same password. */
  lemma BanEvicts(t: seq<Client>, clientId: nat, now: int, s: Coherence.State, inbounds: seq<InboundUsers.Inbound>,
                  k: nat, users: P.UserMap, steps: seq<P.Step>, sid: P.Sid)
    requires DistinctIds(t) && Find(t, clientId).Some?
    requires s.clients == After(t, Ban(clientId, true, now)) && Coherence.Coherent(s, inbounds, true)
    requires k < |inbounds| && inbounds[k].kind == "hysteria2" && inbounds[k].id !in s.stale
    requires Serving(s, inbounds[k], users, steps) && T.Open(P.Exec(P.Init(users), steps), sid)
    requires P.Exec(P.Init(users), steps).table[sid].id.password == InboundUsers.Hy2Password(Find(t, clientId).value)
    ensures var st := P.Exec(P.Init(users), steps);
            || T.InFlight(st, st.table[sid])
            || SharedBy(s.clients, inbounds[k], clientId, st.table[sid].id.password)
  {
    hide P.Exec, P.ValidRun, T.InFlight, Coherence.Coherent, InboundUsers.Hy2Password, Serving, T.Open, Find;
    OpenSessionsAreServed(s, inbounds, k, users, steps, sid);
    BannedRow(t, clientId, now);
  }

  lemma BannedRow(t: seq<Client>, clientId: nat, now: int)
    ensures forall c :: c in After(t, Ban(clientId, true, now)) && c.id == clientId ==> c.banned
  {
  }
}
