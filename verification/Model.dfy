/** Database rows (database/model) and what SQL does to a table.

A table is the sequence of its rows in scan order; the primary key makes ids distinct.
JSON columns are modelled by the values they decode to. */
module Model {

  datatype Option<+T> = None | Some(value: T)

  /** A client's per-protocol settings; leaf values are strings. */
  type Config = map<string, map<string, string>>

  datatype Link = Link(kind: string, remark: string, uri: string)

  datatype Client = Client(
    id: nat, enable: bool, name: string, config: Config, inbounds: seq<nat>, links: seq<Link>,
    volume: int, expiry: int, down: int, up: int,
    banned: bool, bannedAt: int,
    delayStart: bool, autoReset: bool, resetDays: int, nextReset: int, totalUp: int, totalDown: int)

  datatype Change = Change(dateTime: int, actor: string, action: string, obj: string)

  ghost predicate DistinctIds(t: seq<Client>) {
    forall i, j :: 0 <= i < j < |t| ==> t[i].id != t[j].id
  }

  /** The rows of a SELECT, in scan order. */
  function Select(t: seq<Client>, p: Client -> bool): seq<Client> {
    if t == [] then []
    else (if p(t[0]) then [t[0]] else []) + Select(t[1..], p)
  }

  lemma {:induction false} SelectElements(t: seq<Client>, p: Client -> bool)
    ensures forall c :: c in Select(t, p) <==> c in t && p(c)
  {
    if t != [] {
      SelectElements(t[1..], p);
      forall c ensures c in Select(t, p) <==> c in t && p(c) {
        assert c in t <==> c == t[0] || c in t[1..];
      }
    }
  }

  lemma {:induction false} SelectDistinct(t: seq<Client>, p: Client -> bool)
    requires DistinctIds(t)
    ensures DistinctIds(Select(t, p))
  {
    if t != [] {
      var rest := Select(t[1..], p);
      SelectDistinct(t[1..], p);
      SelectElements(t[1..], p);
      forall j | 0 <= j < |rest| ensures rest[j].id != t[0].id {
        assert rest[j] in rest;
      }
      assert Select(t, p) == if p(t[0]) then [t[0]] + rest else rest;
    }
  }

  function Find(t: seq<Client>, id: nat): (r: Option<Client>)
    ensures r.Some? ==> r.value in t && r.value.id == id
    ensures r.None? ==> forall c :: c in t ==> c.id != id
  {
    if t == [] then None
    else if t[0].id == id then Some(t[0])
    else Find(t[1..], id)
  }

  lemma FindUnique(t: seq<Client>, k: nat)
    requires DistinctIds(t) && k < |t|
    ensures Find(t, t[k].id) == Some(t[k])
  {
    var r := Find(t, t[k].id);
    assert t[k] in t;
    var i :| 0 <= i < |t| && t[i] == r.value;
  }

  /** INSERT ... ON CONFLICT(id) DO UPDATE: overwrite the row with that id, or append. */
  function Save(t: seq<Client>, c: Client): seq<Client> {
    if t == [] then [c]
    else if t[0].id == c.id then [c] + t[1..]
    else [t[0]] + Save(t[1..], c)
  }

  function SaveAll(t: seq<Client>, rows: seq<Client>): seq<Client>
    decreases |rows|
  {
    if rows == [] then t else SaveAll(Save(t, rows[0]), rows[1..])
  }

  function Delete(t: seq<Client>, ids: set<nat>): seq<Client> {
    Select(t, (c: Client) => c.id !in ids)
  }

  lemma {:induction false} SaveShape(t: seq<Client>, c: Client)
    requires DistinctIds(t)
    ensures |Save(t, c)| == |t| + if exists k :: 0 <= k < |t| && t[k].id == c.id then 0 else 1
    ensures forall k :: 0 <= k < |t| ==> Save(t, c)[k] == if t[k].id == c.id then c else t[k]
    ensures |Save(t, c)| == |t| + 1 ==> Save(t, c)[|t|] == c
  {
    if t != [] && t[0].id != c.id {
      SaveShape(t[1..], c);
      assert forall k :: 0 < k < |t| ==> t[k] == t[1..][k - 1];
      if k :| 0 <= k < |t| && t[k].id == c.id {
        assert t[1..][k - 1].id == c.id;
      }
      if k :| 0 <= k < |t[1..]| && t[1..][k].id == c.id {
        assert t[k + 1].id == c.id;
      }
    }
  }

  /** Save changes exactly one row, or adds one at the end. */
  lemma SaveRows(t: seq<Client>, c: Client)
    requires DistinctIds(t)
    ensures DistinctIds(Save(t, c))
    ensures |Save(t, c)| == |t| + if exists k :: 0 <= k < |t| && t[k].id == c.id then 0 else 1
    ensures forall k :: 0 <= k < |t| ==> Save(t, c)[k] == if t[k].id == c.id then c else t[k]
    ensures |Save(t, c)| == |t| + 1 ==> Save(t, c)[|t|] == c
  {
    hide Save;
    SaveShape(t, c);
    var s := Save(t, c);
    assert forall k :: 0 <= k < |t| ==> s[k].id == t[k].id;
  }

  /** A batch of rows that are images of distinct stored rows updates those rows in place. */
  lemma {:induction false} SaveAllRows(t: seq<Client>, rows: seq<Client>, target: seq<Client>)
    requires DistinctIds(t) && |target| == |t|
    requires forall k :: 0 <= k < |t| ==> target[k].id == t[k].id
    requires forall r :: r in rows ==> r in target
    ensures |SaveAll(t, rows)| == |t|
    ensures forall k :: 0 <= k < |t| ==> SaveAll(t, rows)[k] == if target[k] in rows then target[k] else t[k]
    decreases |rows|
  {
    if rows != [] {
      var r := rows[0];
      assert r in rows;
      var k :| 0 <= k < |t| && target[k] == r;
      SaveRows(t, r);
      var t' := Save(t, r);
      assert t[k].id == r.id;
      SaveAllRows(t', rows[1..], target);
      forall i | 0 <= i < |t| ensures SaveAll(t, rows)[i] == if target[i] in rows then target[i] else t[i] {
        assert target[i] in rows <==> target[i] == r || target[i] in rows[1..];
        assert t'[i] == if t[i].id == r.id then r else t[i];
        if t[i].id == r.id {
          assert i == k;
        }
      }
    }
  }

  /** After saving one row, its id finds it and every other id finds what it found before. */
  lemma {:induction false} FindSaved(t: seq<Client>, r: Client, id: nat)
    ensures Find(Save(t, r), id) == if id == r.id then Some(r) else Find(t, id)
  {
    if t != [] && t[0].id != r.id {
      assert Save(t, r)[1..] == Save(t[1..], r);
      FindSaved(t[1..], r, id);
    } else if t != [] {
      assert Save(t, r)[1..] == t[1..];
    }
  }

  /** No later row of the batch has the same id. */
  ghost predicate LastWithId(rows: seq<Client>, j: int) {
    0 <= j < |rows| && forall i :: j < i < |rows| ==> rows[i].id != rows[j].id
  }

  /** After saving a batch, an id finds its last listing in the batch, or what it found before. */
  lemma {:induction false} FindSavedAll(t: seq<Client>, rows: seq<Client>, id: nat)
    ensures forall j :: LastWithId(rows, j) && rows[j].id == id ==> Find(SaveAll(t, rows), id) == Some(rows[j])
    ensures (forall j :: 0 <= j < |rows| ==> rows[j].id != id) ==> Find(SaveAll(t, rows), id) == Find(t, id)
    decreases |rows|
  {
    hide Find, Save;
    if rows != [] {
      FindSaved(t, rows[0], id);
      FindSavedAll(Save(t, rows[0]), rows[1..], id);
      forall j | LastWithId(rows, j) && rows[j].id == id ensures Find(SaveAll(t, rows), id) == Some(rows[j]) {
        if j > 0 {
          assert rows[1..][j - 1] == rows[j];
          assert LastWithId(rows[1..], j - 1);
        } else {
          assert forall i :: 0 <= i < |rows[1..]| ==> rows[1..][i] == rows[i + 1];
        }
      }
    }
  }

  /** A batch of rows that are all stored keeps the rows of the table in place. */
  lemma {:induction false} SaveAllInPlace(t: seq<Client>, rows: seq<Client>)
    requires DistinctIds(t) && forall r :: r in rows ==> Find(t, r.id).Some?
    ensures |SaveAll(t, rows)| == |t| && DistinctIds(SaveAll(t, rows))
    ensures forall k :: 0 <= k < |t| ==> SaveAll(t, rows)[k].id == t[k].id
    decreases |rows|
  {
    hide Find, Save;
    if rows != [] {
      var r := rows[0];
      assert r in rows && Find(t, r.id).Some?;
      var k :| 0 <= k < |t| && t[k] == Find(t, r.id).value;
      SaveRows(t, r);
      forall x | x in rows[1..] ensures Find(Save(t, r), x.id).Some? {
        FindSaved(t, r, x.id);
      }
      SaveAllInPlace(Save(t, r), rows[1..]);
    }
  }

  /** Exactly the rows with the listed ids go. */
  lemma DeleteRows(t: seq<Client>, ids: set<nat>)
    requires DistinctIds(t)
    ensures DistinctIds(Delete(t, ids)) && forall c :: c in Delete(t, ids) <==> c in t && c.id !in ids
  {
    var kept := (c: Client) => c.id !in ids;
    SelectElements(t, kept);
    SelectDistinct(t, kept);
  }
}
