/** The JSON subscription's view of an inbound: out_json, filled when the inbound is saved, and the
client's settings merged into it (util/outJson.go, sub/jsonService.go:119-228). */
module Views {
  import opened Model

  datatype Json = JNull | JBool(b: bool) | JNum(n: int) | JStr(s: string) | JList(items: seq<Json>) | JObj(fields: JMap)

  type JMap = map<string, Json>

  function At(m: JMap, k: string): Option<Json> {
    if k in m then Some(m[k]) else None
  }

  function ObjAt(m: JMap, k: string): Option<JMap> {
    if k in m && m[k].JObj? then Some(m[k].fields) else None
  }

  function BoolAt(m: JMap, k: string): Option<bool> {
    if k in m && m[k].JBool? then Some(m[k].b) else None
  }

  // ---------- addTls ----------

  const SHARED := {"enabled", "server_name", "alpn", "min_version", "max_version", "certificate", "cipher_suites"}

  predicate SwitchedOn(server: JMap, k: string) {
    ObjAt(server, k).Some? && BoolAt(ObjAt(server, k).value, "enabled") == Some(true)
  }

  /** A Reality or ECH object without a boolean switch, or switched on without a client side. */
  predicate Crashes(server: JMap, client: JMap, k: string) {
    ObjAt(server, k).Some?
    && (BoolAt(ObjAt(server, k).value, "enabled").None?
        || (SwitchedOn(server, k) && ObjAt(client, k).None?))
  }

  function ShortIds(reality: JMap): seq<Json> {
    if "short_id" in reality && reality["short_id"].JList? then reality["short_id"].items else []
  }

  /** `pick` is the random choice among the server's short ids. */
  function RealityClient(client: JMap, reality: JMap, pick: nat): JMap {
    var ids := ShortIds(reality);
    var c := client["enabled" := JBool(true)];
    if |ids| > 0 then c["short_id" := ids[pick % |ids|]] else c
  }

  function EchClient(client: JMap, ech: JMap): JMap {
    client["enabled" := JBool(true)]
      ["pq_signature_schemes_enabled" := OrNull(At(ech, "pq_signature_schemes_enabled"))]
      ["dynamic_record_sizing_disabled" := OrNull(At(ech, "dynamic_record_sizing_disabled"))]
  }

  function OrNull(j: Option<Json>): Json {
    match j case None => JNull case Some(v) => v
  }

  /** Field `k` of the TLS settings a client is given. */
  function MergedTlsAt(server: JMap, client: JMap, pick: nat, k: string): Option<Json> {
    if k in SHARED && k in server then Some(server[k])
    else if k == "reality" && SwitchedOn(server, k) && ObjAt(client, k).Some? then
      Some(JObj(RealityClient(client[k].fields, server[k].fields, pick)))
    else if k == "ech" && SwitchedOn(server, k) && ObjAt(client, k).Some? then
      Some(JObj(EchClient(client[k].fields, server[k].fields)))
    else At(client, k)
  }

  lemma SharedKeys()
    ensures "reality" !in SHARED && "ech" !in SHARED && "ech" != "reality"
  {
    assert |"reality"| == 7 && |"enabled"| == 7 && "reality"[0] != "enabled"[0];
  }

  method CopyShared(server: JMap, client: JMap) returns (tls: JMap)
    ensures forall k :: At(tls, k) == if k in SHARED && k in server then Some(server[k]) else At(client, k)
  {
    hide At;
    tls := CopyKey(client, server, "enabled");
    tls := CopyKey(tls, server, "server_name");
    tls := CopyKey(tls, server, "alpn");
    tls := CopyKey(tls, server, "min_version");
    tls := CopyKey(tls, server, "max_version");
    tls := CopyKey(tls, server, "certificate");
    tls := CopyKey(tls, server, "cipher_suites");
  }

  /** Copies the shared settings over the client's; `None` is the crash on a bad Reality or ECH object. */
  method AddTls(server: JMap, client: JMap, pick: nat) returns (r: Option<JMap>)
    ensures r.None? <==> Crashes(server, client, "reality") || Crashes(server, client, "ech")
    ensures r.Some? ==> forall k :: At(r.value, k) == MergedTlsAt(server, client, pick, k)
  {
    hide SHARED, RealityClient, EchClient;
    var tls := CopyShared(server, client);
    SharedKeys();
    assert At(tls, "reality") == At(client, "reality") && At(tls, "ech") == At(client, "ech");
    assert ObjAt(tls, "reality") == ObjAt(client, "reality") && ObjAt(tls, "ech") == ObjAt(client, "ech");
    if ObjAt(server, "reality").Some? {
      var reality := server["reality"].fields;
      if BoolAt(reality, "enabled").None? {
        return None;
      }
      if reality["enabled"].b {
        if ObjAt(tls, "reality").None? {
          return None;
        }
        tls := tls["reality" := JObj(RealityClient(tls["reality"].fields, reality, pick))];
      }
    }
    if ObjAt(server, "ech").Some? {
      var ech := server["ech"].fields;
      if BoolAt(ech, "enabled").None? {
        return None;
      }
      if ech["enabled"].b {
        if ObjAt(tls, "ech").None? {
          return None;
        }
        tls := tls["ech" := JObj(EchClient(tls["ech"].fields, ech))];
      }
    }
    r := Some(tls);
  }

  method CopyKey(to: JMap, from: JMap, k: string) returns (m: JMap)
    ensures forall x :: At(m, x) == if x == k && x in from then Some(from[x]) else At(to, x)
  {
    m := to;
    if k in from {
      m := m[k := from[k]];
    }
  }

  // ---------- prepareTls, the link generator's merge ----------

  const LINKED := {"enabled", "server_name", "alpn"}

  /** Field `k` of the TLS settings a link is printed from. */
  function PreparedTlsAt(server: JMap, client: JMap, pick: nat, k: string): Option<Json> {
    if k in LINKED && k in server then Some(server[k])
    else if k == "reality" && ObjAt(server, k).Some? && ObjAt(client, k).Some? then
      Some(JObj(RealityLink(client[k].fields, server[k].fields, pick)))
    else At(client, k)
  }

  function RealityLink(client: JMap, reality: JMap, pick: nat): JMap {
    var ids := ShortIds(reality);
    var c := client["enabled" := OrNull(At(reality, "enabled"))];
    if |ids| > 0 then c["short_id" := ids[pick % |ids|]] else c
  }

  /** Walks over the server's settings in any order; a Reality entry must be an object on both sides. */
  method PrepareTls(server: JMap, client: JMap, pick: nat) returns (r: Option<JMap>)
    ensures r.None? <==> "reality" in server && (ObjAt(server, "reality").None? || ObjAt(client, "reality").None?)
    ensures r.Some? ==> forall k :: At(r.value, k) == PreparedTlsAt(server, client, pick, k)
  {
    hide RealityLink;
    NotLinked();
    var tls := client;
    var rest := server.Keys;
    while rest != {}
      invariant rest <= server.Keys
      invariant forall k :: k in rest || k !in server ==> At(tls, k) == At(client, k)
      invariant forall k :: k !in rest && k in server ==> At(tls, k) == PreparedTlsAt(server, client, pick, k)
      invariant "reality" in server && "reality" !in rest ==>
                  ObjAt(server, "reality").Some? && ObjAt(client, "reality").Some?
      decreases rest
    {
      var k :| k in rest;
      rest := rest - {k};
      if k in LINKED {
        tls := tls[k := server[k]];
      } else if k == "reality" {
        if ObjAt(server, k).None? || ObjAt(tls, k).None? {
          return None;
        }
        tls := tls[k := JObj(RealityLink(tls[k].fields, server[k].fields, pick))];
      }
    }
    r := Some(tls);
  }

  lemma NotLinked()
    ensures "reality" !in LINKED
  {
    assert |"reality"| == 7 && |"enabled"| == 7 && "reality"[0] != "enabled"[0];
  }

  // ---------- FillOutJson and getOutbounds, for hysteria2 ----------

  datatype TlsProfile = TlsProfile(server: JMap, client: JMap)

  /** Field `k` of the filled out_json; the server's download is the client's upload. */
  function FilledAt(before: JMap, options: JMap, tls: Option<JMap>, tag: string, hostname: string,
                    k: string): Option<Json>
  {
    if k == "type" then Some(JStr("hysteria2"))
    else if k == "tag" then Some(JStr(tag))
    else if k == "server" then Some(JStr(hostname))
    else if k == "server_port" then Some(OrNull(At(options, "listen_port")))
    else if k == "up_mbps" then At(options, "down_mbps")
    else if k == "down_mbps" then At(options, "up_mbps")
    else if k == "obfs" then At(options, "obfs")
    else if k == "tls" then (match tls case None => None case Some(t) => Some(JObj(t)))
    else At(before, k)
  }

  method FillOutJson(before: JMap, options: JMap, tls: Option<TlsProfile>, tag: string, hostname: string, pick: nat)
    returns (r: Option<JMap>, merged: Option<JMap>)
    ensures r.None? <==> tls.Some? && (Crashes(tls.value.server, tls.value.client, "reality")
                                       || Crashes(tls.value.server, tls.value.client, "ech"))
    ensures r.Some? ==> (merged.Some? <==> tls.Some?)
    ensures r.Some? && tls.Some? ==>
              forall k :: At(merged.value, k) == MergedTlsAt(tls.value.server, tls.value.client, pick, k)
    ensures r.Some? ==> forall k :: At(r.value, k) == FilledAt(before, options, merged, tag, hostname, k)
  {
    hide MergedTlsAt, Crashes;
    OutKeys();
    var out := before;
    merged := None;
    if tls.Some? {
      var t := AddTls(tls.value.server, tls.value.client, pick);
      if t.None? {
        return None, None;
      }
      merged := t;
      out := out["tls" := JObj(t.value)];
    } else {
      out := out - {"tls"};
    }
    out := out["type" := JStr("hysteria2")];
    out := out["tag" := JStr(tag)];
    out := out["server" := JStr(hostname)];
    out := out["server_port" := OrNull(At(options, "listen_port"))];
    out := Hysteria2Out(out, options);
    r := Some(out);
  }

  method Hysteria2Out(before: JMap, options: JMap) returns (out: JMap)
    ensures forall k :: At(out, k) ==
              if k == "up_mbps" then At(options, "down_mbps")
              else if k == "down_mbps" then At(options, "up_mbps")
              else if k == "obfs" then At(options, "obfs")
              else At(before, k)
  {
    OutKeys();
    out := before - {"down_mbps"};
    out := out - {"up_mbps"};
    out := out - {"obfs"};
    if "down_mbps" in options {
      out := out["up_mbps" := options["down_mbps"]];
    }
    if "up_mbps" in options {
      out := out["down_mbps" := options["up_mbps"]];
    }
    if "obfs" in options {
      out := out["obfs" := options["obfs"]];
    }
  }

  lemma OutKeys()
    ensures "up_mbps" != "down_mbps" && "up_mbps" != "obfs" && "down_mbps" != "obfs"
    ensures "tls" != "type" && "tls" != "tag" && "tls" != "server" && "tls" != "server_port" && "tls" != "up_mbps"
            && "tls" != "down_mbps" && "tls" != "obfs"
    ensures "type" != "tag" && "type" != "server" && "type" != "server_port" && "tag" != "server"
            && "tag" != "server_port"
            && "server" != "server_port"
    ensures "type" != "up_mbps" && "type" != "down_mbps" && "type" != "obfs"
    ensures "tag" != "up_mbps" && "tag" != "down_mbps" && "tag" != "obfs"
    ensures "server" != "up_mbps" && "server" != "down_mbps" && "server" != "obfs"
    ensures "server_port" != "up_mbps" && "server_port" != "down_mbps" && "server_port" != "obfs"
  {
    assert "tls"[1] != "tag"[1] && "type"[0] != "obfs"[0];
  }

  predicate Copied(config: JMap, keepFlow: bool, k: string) {
    k in config && k != "name" && k != "alterId" && (k == "flow" ==> keepFlow)
  }

  /** Field `k` of the subscription's outbound: the client's settings win. */
  function OutboundAt(out: JMap, config: JMap, keepFlow: bool, k: string): Option<Json> {
    if Copied(config, keepFlow, k) then Some(config[k]) else At(out, k)
  }

  method SubscriptionOutbound(out: JMap, config: JMap, hasTls: bool, hasTransport: bool) returns (outbound: JMap)
    ensures forall k :: At(outbound, k) == OutboundAt(out, config, hasTls && !hasTransport, k)
  {
    outbound := out;
    var rest := config.Keys;
    while rest != {}
      invariant rest <= config.Keys
      invariant forall k :: At(outbound, k) ==
                            if k in rest then At(out, k) else OutboundAt(out, config, hasTls && !hasTransport, k)
      decreases rest
    {
      var key :| key in rest;
      rest := rest - {key};
      if key == "name" || key == "alterId" {
        continue;
      }
      if key == "flow" && (!hasTls || hasTransport) {
        continue;
      }
      outbound := outbound[key := config[key]];
    }
  }

  // ---------- the fields by their names ----------

  /** The TLS settings a client is given, field by field: seven are the server's where it has them, Reality
      and ECH are switched on with the server's choices, and everything else is the client's. */
  lemma MergedField(server: JMap, client: JMap, pick: nat, k: string)
    ensures k in {"enabled", "server_name", "alpn", "min_version", "max_version", "certificate", "cipher_suites"} ==>
              MergedTlsAt(server, client, pick, k) == if k in server then Some(server[k]) else At(client, k)
    ensures k !in {"enabled", "server_name", "alpn", "min_version", "max_version", "certificate", "cipher_suites",
                   "reality", "ech"} ==>
              MergedTlsAt(server, client, pick, k) == At(client, k)
    ensures (k == "reality" || k == "ech") && !(SwitchedOn(server, k) && ObjAt(client, k).Some?) ==>
              MergedTlsAt(server, client, pick, k) == At(client, k)
    ensures k == "reality" && SwitchedOn(server, k) && ObjAt(client, k).Some? ==>
              exists r :: MergedTlsAt(server, client, pick, k) == Some(JObj(r)) && BoolAt(r, "enabled") == Some(true)
                          && RealityFrom(r, client[k].fields, server[k].fields)
    ensures k == "ech" && SwitchedOn(server, k) && ObjAt(client, k).Some? ==>
              exists e :: MergedTlsAt(server, client, pick, k) == Some(JObj(e)) && BoolAt(e, "enabled") == Some(true)
                          && EchFrom(e, client[k].fields, server[k].fields)
  {
    hide RealityFrom, EchFrom, RealityClient, EchClient;
    SharedKeys();
    if SwitchedOn(server, k) && ObjAt(client, k).Some? {
      RealityFields(client[k].fields, server[k].fields, pick);
      EchFields(client[k].fields, server[k].fields);
    }
  }

  /** A short id of the server's, where it lists some; otherwise nothing but the switch is touched. */
  ghost predicate RealityFrom(r: JMap, client: JMap, reality: JMap) {
    && (forall k :: k != "enabled" && k != "short_id" ==> At(r, k) == At(client, k))
    && (if ShortIds(reality) == [] then At(r, "short_id") == At(client, "short_id")
        else "short_id" in r && r["short_id"] in ShortIds(reality))
  }

  ghost predicate EchFrom(e: JMap, client: JMap, ech: JMap) {
    forall k :: k != "enabled" ==>
      if k in {"pq_signature_schemes_enabled", "dynamic_record_sizing_disabled"}
      then At(e, k) == Some(if k in ech then ech[k] else JNull)
      else At(e, k) == At(client, k)
  }

  lemma RealityFields(client: JMap, reality: JMap, pick: nat)
    ensures RealityFrom(RealityClient(client, reality, pick), client, reality)
    ensures BoolAt(RealityClient(client, reality, pick), "enabled") == Some(true)
    ensures RealityFrom(RealityLink(client, reality, pick), client, reality)
    ensures At(RealityLink(client, reality, pick), "enabled")
            == Some(if "enabled" in reality then reality["enabled"] else JNull)
  {
    assert "enabled"[0] != "short_id"[0];
  }

  lemma EchFields(client: JMap, ech: JMap)
    ensures EchFrom(EchClient(client, ech), client, ech) && BoolAt(EchClient(client, ech), "enabled") == Some(true)
  {
    assert "enabled"[0] != "pq_signature_schemes_enabled"[0] && "enabled"[0] != "dynamic_record_sizing_disabled"[0];
    assert "pq_signature_schemes_enabled"[0] != "dynamic_record_sizing_disabled"[0];
  }

  /** The TLS settings a link is printed from: three fields are the server's where it has them, Reality
      takes the server's switch and one of its short ids, and everything else is the client's. */
  lemma PreparedField(server: JMap, client: JMap, pick: nat, k: string)
    ensures k in {"enabled", "server_name", "alpn"} ==>
              PreparedTlsAt(server, client, pick, k) == if k in server then Some(server[k]) else At(client, k)
    ensures k !in {"enabled", "server_name", "alpn", "reality"} ==>
              PreparedTlsAt(server, client, pick, k) == At(client, k)
    ensures k == "reality" && ObjAt(server, k).Some? && ObjAt(client, k).Some? ==>
              exists r :: PreparedTlsAt(server, client, pick, k) == Some(JObj(r))
                          && At(r, "enabled") == Some(OrNull(At(server[k].fields, "enabled")))
                          && RealityFrom(r, client[k].fields, server[k].fields)
  {
    hide RealityFrom, RealityClient, RealityLink;
    NotLinked();
    if ObjAt(server, k).Some? && ObjAt(client, k).Some? {
      RealityFields(client[k].fields, server[k].fields, pick);
    }
  }

  /** The filled out_json by name, and no other field touched. */
  lemma FilledField(before: JMap, options: JMap, tls: Option<JMap>, tag: string, hostname: string, k: string)
    ensures var v := FilledAt(before, options, tls, tag, hostname, k);
            && (k == "type" ==> v == Some(JStr("hysteria2"))) && (k == "tag" ==> v == Some(JStr(tag)))
            && (k == "server" ==> v == Some(JStr(hostname)))
            && (k == "server_port" ==> v == Some(if "listen_port" in options then options["listen_port"] else JNull))
            && (k == "up_mbps" ==> v == At(options, "down_mbps")) && (k == "down_mbps" ==> v == At(options, "up_mbps"))
            && (k == "obfs" ==> v == At(options, "obfs"))
            && (k == "tls" ==> v == (if tls.Some? then Some(JObj(tls.value)) else None))
            && (k !in {"type", "tag", "server", "server_port", "up_mbps", "down_mbps", "obfs", "tls"} ==>
                  v == At(before, k))
  {
    OutKeys();
  }

  /** The client's settings win over the inbound's, except its name and alterId, and a flow where the
      inbound has no TLS profile or a transport. */
  lemma OutboundField(out: JMap, config: JMap, hasTls: bool, hasTransport: bool, k: string)
    ensures var v := OutboundAt(out, config, hasTls && !hasTransport, k);
            && (k in {"name", "alterId"} || k !in config ==> v == At(out, k))
            && (k == "flow" && k in config ==>
                  v == if !hasTls || hasTransport then At(out, k) else Some(config[k]))
            && (k !in {"name", "alterId", "flow"} && k in config ==> v == Some(config[k]))
  {
    assert "flow"[0] != "name"[0] && "flow"[0] != "alterId"[0];
  }
}
