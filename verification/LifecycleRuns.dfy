/** What the client lifecycle promises, per tick and over whole runs. */
module LifecycleRuns {
  import opened Model
  import opened Lifecycle

  // ---------- one reset ----------

  /** One query at a time, each on the table the previous one left. */
  function InSequence(c: Client, dt: int): Client {
    var c1 := if StartsExpiry(c) then StartExpiry(c, dt) else c;
    var c2 := if StartsPeriod(c1) then StartPeriod(c1, dt) else c1;
    if DueReset(c2, dt) then PeriodicReset(c2, dt) else c2
  }

  /** The batch equals the sequence, except that a negative period started now would also be due now. */
  lemma BatchIsSequence(c: Client, dt: int)
    ensures !(StartsExpiry(c) && StartsPeriod(c)) && !(StartsExpiry(c) && DueReset(c, dt))
            && !(StartsPeriod(c) && DueReset(c, dt))
    ensures InSequence(c, dt) == ResetRow(c, dt) <==> !(StartsPeriod(c) && c.resetDays < 0)
  {
    if StartsPeriod(c) && c.resetDays < 0 {
      assert InSequence(c, dt).up == 0 && InSequence(c, dt).down == 0;
      assert ResetRow(c, dt).up + ResetRow(c, dt).down > 0;
    }
  }

  // ---------- one tick ----------

  /** Used traffic within the volume, and not past the expiry date; zero means no limit. */
  predicate WithinLimits(volume: int, used: int, expiry: int, now: int) {
    (volume <= 0 || used <= volume) && (expiry <= 0 || now <= expiry)
  }

  /** The columns of a row after a tick. A row is enabled exactly when it was, or its period ended and it
      is not banned, and it is within its limits. */
  lemma TickByColumn(c: Client, dt: int)
    ensures var d := TickRow(c, dt);
            var started := c.enable && c.delayStart && c.up + c.down > 0;
            var due := !c.delayStart && c.autoReset && c.nextReset < dt;
            && (d.enable <==> (c.enable || (due && !c.banned)) && WithinLimits(c.volume, d.up + d.down, d.expiry, dt))
            && d.expiry == (if started && !c.autoReset then dt + c.resetDays * 86400 else c.expiry)
            && d.nextReset == (if (started && c.autoReset) || due then dt + c.resetDays * 86400 else c.nextReset)
            && d.delayStart == (c.delayStart && !started)
            && d.up == (if due then 0 else c.up) && d.totalUp + d.up == c.totalUp + c.up
            && d.down == (if due then 0 else c.down) && d.totalDown + d.down == c.totalDown + c.down
            && d == c.(enable := d.enable, expiry := d.expiry, nextReset := d.nextReset, delayStart := d.delayStart,
                       up := d.up, down := d.down, totalUp := d.totalUp, totalDown := d.totalDown)
  {
  }

  /** After a tick every enabled client is within its limits, and no client within its limits was
      disabled, unless a delayed clock of negative length has just started. */
  lemma TickEnforcesLimits(t: seq<Client>, dt: int)
    ensures forall c :: c in TickTable(t, dt) && c.enable ==>
                          (c.volume <= 0 || c.up + c.down <= c.volume) && (c.expiry <= 0 || dt <= c.expiry)
    ensures forall k :: 0 <= k < |t| && t[k].enable && 0 <= t[k].resetDays
                        && (t[k].volume <= 0 || t[k].up + t[k].down <= t[k].volume)
                        && (t[k].expiry <= 0 || dt <= t[k].expiry)
                        ==> TickTable(t, dt)[k].enable
  {
    hide TickRow;
    forall k | 0 <= k < |t|
      ensures TickTable(t, dt)[k].enable ==>
                var d := TickTable(t, dt)[k];
                WithinLimits(t[k].volume, d.up + d.down, d.expiry, dt)
                && TickTable(t, dt)[k].volume == t[k].volume
      ensures t[k].enable && 0 <= t[k].resetDays && WithinLimits(t[k].volume, t[k].up + t[k].down, t[k].expiry, dt) ==>
                TickTable(t, dt)[k].enable
    {
      TickByColumn(t[k], dt);
    }
  }

  /** A ban disables; an unban enables exactly within the limits; no other column is touched. */
  lemma BanByColumn(c: Client, banned: bool, now: int)
    ensures var d := BanRow(c, banned, now);
            && d.banned == banned && d.bannedAt == (if banned then now else 0)
            && (d.enable <==> !banned && (c.volume <= 0 || c.up + c.down <= c.volume)
                              && (c.expiry <= 0 || now <= c.expiry))
            && d == c.(enable := d.enable, banned := d.banned, bannedAt := d.bannedAt)
  {
  }

  lemma InboundsOfSelected(t: seq<Client>, p: Client -> bool, x: nat)
    ensures x in InboundsOf(Select(t, p)) <==> exists k :: 0 <= k < |t| && p(t[k]) && x in t[k].inbounds
  {
    SelectElements(t, p);
    if x in InboundsOf(Select(t, p)) {
      var c :| c in Select(t, p) && x in c.inbounds;
      var k :| 0 <= k < |t| && t[k] == c;
    }
    if k :| 0 <= k < |t| && p(t[k]) && x in t[k].inbounds {
      assert t[k] in t;
    }
  }

  lemma SelectedByColumn(c: Client, dt: int)
    ensures Revived(c, dt) <==> !c.enable && !c.delayStart && c.autoReset && c.nextReset < dt && !c.banned
    ensures Depleted(ResetRow(c, dt), dt) <==> !TickRow(c, dt).enable && (c.enable || Revived(c, dt))
  {
  }

  /** The tick's ids are exactly the inbounds of the clients it disabled or that came to their reset
      disabled without a ban. */
  lemma TickInboundsExact(t: seq<Client>, dt: int, x: nat)
    ensures x in TickInbounds(t, dt) <==>
            exists k :: 0 <= k < |t| && x in t[k].inbounds
                        && if t[k].enable then !TickTable(t, dt)[k].enable
                           else !t[k].delayStart && t[k].autoReset && t[k].nextReset < dt && !t[k].banned
  {
    var reset := ResetTable(t, dt);
    InboundsOfSelected(t, (c: Client) => Revived(c, dt), x);
    InboundsOfSelected(reset, (c: Client) => Depleted(c, dt), x);
    assert forall k :: 0 <= k < |t| ==> reset[k].inbounds == t[k].inbounds && reset[k] == ResetRow(t[k], dt);
    hide Revived, Depleted, ResetRow, TickRow;
    forall k | 0 <= k < |t|
      ensures Revived(t[k], dt) || Depleted(ResetRow(t[k], dt), dt)
              <==> if t[k].enable then !TickTable(t, dt)[k].enable
                   else !t[k].delayStart && t[k].autoReset && t[k].nextReset < dt && !t[k].banned
    {
      SelectedByColumn(t[k], dt);
    }
  }

  lemma AuditOfSelected(t: seq<Client>, p: Client -> bool, dt: int, actor: string, action: string, ch: Change)
    ensures ch in Audit(Select(t, p), dt, actor, action)
            <==> exists k :: 0 <= k < |t| && p(t[k]) && ch == Change(dt, actor, action, t[k].name)
  {
    SelectElements(t, p);
    var rows := Select(t, p);
    if ch in Audit(rows, dt, actor, action) {
      var i :| 0 <= i < |rows| && ch == Change(dt, actor, action, rows[i].name);
      assert rows[i] in rows;
      var k :| 0 <= k < |t| && t[k] == rows[i];
    }
    if k :| 0 <= k < |t| && p(t[k]) && ch == Change(dt, actor, action, t[k].name) {
      assert t[k] in t;
      var i :| 0 <= i < |rows| && rows[i] == t[k];
      assert Audit(rows, dt, actor, action)[i] == ch;
    }
  }

  /** A tick records exactly the delayed clocks it started and the clients it disabled. */
  lemma TickAuditExact(t: seq<Client>, dt: int, ch: Change)
    ensures ch in ResetAudit(t, dt)
            <==> exists k :: 0 <= k < |t| && t[k].enable && t[k].delayStart && t[k].up + t[k].down > 0
                             && ch == Change(dt, "ResetJob", "reset", t[k].name)
    ensures ch in DepleteAudit(ResetTable(t, dt), dt)
            <==> exists k :: 0 <= k < |t| && !TickTable(t, dt)[k].enable
                             && (t[k].enable || (!t[k].delayStart && t[k].autoReset && t[k].nextReset < dt
                                                 && !t[k].banned))
                             && ch == Change(dt, "DepleteJob", "disable", t[k].name)
  {
    hide Audit;
    var reset := ResetTable(t, dt);
    AuditOfSelected(t, StartsExpiry, dt, "ResetJob", "reset", ch);
    AuditOfSelected(t, StartsPeriod, dt, "ResetJob", "reset", ch);
    AuditAppend(Select(t, StartsExpiry), Select(t, StartsPeriod), dt, "ResetJob", "reset");
    AuditOfSelected(reset, (c: Client) => Depleted(c, dt), dt, "DepleteJob", "disable", ch);
    assert forall k :: 0 <= k < |t| ==> reset[k] == ResetRow(t[k], dt) && reset[k].name == t[k].name;
    hide Depleted, ResetRow, TickRow;
    forall k | 0 <= k < |t|
      ensures Depleted(reset[k], dt)
              <==> !TickTable(t, dt)[k].enable
                   && (t[k].enable || (!t[k].delayStart && t[k].autoReset && t[k].nextReset < dt && !t[k].banned))
    {
      SelectedByColumn(t[k], dt);
    }
  }

  lemma AuditAppend(a: seq<Client>, b: seq<Client>, dt: int, actor: string, action: string)
    ensures Audit(a + b, dt, actor, action) == Audit(a, dt, actor, action) + Audit(b, dt, actor, action)
  {
  }

  /** Every client whose enable flag a tick changes has all its inbounds refreshed. */
  lemma TickCoversChanges(t: seq<Client>, dt: int, k: nat)
    requires k < |t| && TickTable(t, dt)[k].enable != t[k].enable
    ensures forall x :: x in t[k].inbounds ==> x in TickInbounds(t, dt)
  {
    forall x | x in t[k].inbounds ensures x in TickInbounds(t, dt) {
      TickInboundsExact(t, dt, x);
    }
  }

  lemma {:induction false} SelectNothing(t: seq<Client>, p: Client -> bool)
    requires forall c :: c in t ==> !p(c)
    ensures Select(t, p) == []
  {
    if t != [] {
      assert t[0] in t;
      SelectNothing(t[1..], p);
    }
  }

  lemma TickRowTwice(c: Client, dt: int)
    requires 0 <= c.resetDays
    ensures var d := TickRow(c, dt);
            ResetRow(d, dt) == d && !StartsExpiry(d) && !StartsPeriod(d) && !Revived(d, dt) && !Depleted(d, dt)
  {
  }

  /** A second tick at the same instant changes nothing and reports nothing. */
  lemma TickTwice(t: seq<Client>, dt: int)
    requires forall c :: c in t ==> 0 <= c.resetDays
    ensures var t' := TickTable(t, dt);
            && TickTable(t', dt) == t' && TickInbounds(t', dt) == {}
            && ResetAudit(t', dt) == [] && DepleteAudit(ResetTable(t', dt), dt) == []
  {
    var t' := TickTable(t, dt);
    forall k | 0 <= k < |t|
      ensures ResetRow(t'[k], dt) == t'[k] && !StartsExpiry(t'[k]) && !StartsPeriod(t'[k])
              && !Revived(t'[k], dt) && !Depleted(t'[k], dt)
    {
      assert t[k] in t;
      TickRowTwice(t[k], dt);
    }
    assert ResetTable(t', dt) == t';
    SelectNothing(t', (c: Client) => Depleted(c, dt));
    SelectNothing(t', (c: Client) => Revived(c, dt));
    SelectNothing(t', StartsExpiry);
    SelectNothing(t', StartsPeriod);
    assert TickTable(t', dt) == t';
  }

  /** An unban already applies the limits, so a limit check at the same instant changes nothing. */
  lemma UnbanRespectsLimits(c: Client, now: int)
    ensures DepleteRow(BanRow(c, false, now), now) == BanRow(c, false, now)
    ensures BanRow(c, false, now).enable ==> !OverLimit(c, now)
  {
  }

  // ---------- runs ----------

  /** A committed transaction of the stats job, the deplete job or an admin. */
  datatype Op =
    | Credit(name: string, upload: bool, bytes: nat)
    | Tick(dt: int)
    | Ban(clientId: nat, banned: bool, now: int)

  function CreditRow(c: Client, name: string, upload: bool, bytes: nat): Client {
    if c.name != name then c
    else if upload then c.(up := c.up + bytes)
    else c.(down := c.down + bytes)
  }

  function RowStep(c: Client, op: Op): Client {
    match op
    case Credit(name, upload, bytes) => CreditRow(c, name, upload, bytes)
    case Tick(dt) => TickRow(c, dt)
    case Ban(id, banned, now) => if c.id == id then BanRow(c, banned, now) else c
  }

  function TableStep(t: seq<Client>, op: Op): (r: seq<Client>)
    ensures |r| == |t|
  {
    seq(|t|, i requires 0 <= i < |t| => RowStep(t[i], op))
  }

  function TableRun(t: seq<Client>, ops: seq<Op>): (r: seq<Client>)
    ensures |r| == |t|
    decreases |ops|
  {
    if ops == [] then t else TableRun(TableStep(t, ops[0]), ops[1..])
  }

  function RowRun(c: Client, ops: seq<Op>): Client
    decreases |ops|
  {
    if ops == [] then c else RowRun(RowStep(c, ops[0]), ops[1..])
  }

  lemma {:induction false} RowsRunAlone(t: seq<Client>, ops: seq<Op>, k: nat)
    requires k < |t|
    ensures TableRun(t, ops)[k] == RowRun(t[k], ops)
    decreases |ops|
  {
    if ops != [] {
      RowsRunAlone(TableStep(t, ops[0]), ops[1..], k);
    }
  }

  lemma {:induction false} RowStaysSafe(c: Client, ops: seq<Op>)
    requires c.banned ==> !c.enable
    ensures RowRun(c, ops).banned ==> !RowRun(c, ops).enable
    decreases |ops|
  {
    if ops != [] {
      RowStaysSafe(RowStep(c, ops[0]), ops[1..]);
    }
  }

  /** No run of stats, ticks, bans and unbans ever enables a banned client. */
  lemma BannedStaysDisabled(t: seq<Client>, ops: seq<Op>)
    requires forall c :: c in t && c.banned ==> !c.enable
    ensures forall c :: c in TableRun(t, ops) && c.banned ==> !c.enable
  {
    forall c | c in TableRun(t, ops) && c.banned ensures !c.enable {
      var k :| 0 <= k < |t| && TableRun(t, ops)[k] == c;
      assert t[k] in t;
      RowsRunAlone(t, ops, k);
      RowStaysSafe(t[k], ops);
    }
  }

  // ---------- reset spacing ----------

  /** The times of a row's periodic resets in a run. */
  function ResetTimes(c: Client, ops: seq<Op>): seq<int>
    decreases |ops|
  {
    if ops == [] then []
    else
      (if ops[0].Tick? && DueReset(c, ops[0].dt) then [ops[0].dt] else [])
      + ResetTimes(RowStep(c, ops[0]), ops[1..])
  }

  /** The times at which a row's delayed clock started. */
  function StartTimes(c: Client, ops: seq<Op>): seq<int>
    decreases |ops|
  {
    if ops == [] then []
    else
      (if ops[0].Tick? && (StartsExpiry(c) || StartsPeriod(c)) then [ops[0].dt] else [])
      + StartTimes(RowStep(c, ops[0]), ops[1..])
  }

  /** The first reset comes after the stored time, or a full period after the delayed start. */
  lemma {:induction false} FirstReset(c: Client, ops: seq<Op>)
    requires ResetTimes(c, ops) != []
    ensures !c.delayStart ==> c.nextReset < ResetTimes(c, ops)[0]
    decreases |ops|
  {
    var c' := RowStep(c, ops[0]);
    if !(ops[0].Tick? && DueReset(c, ops[0].dt)) {
      FirstReset(c', ops[1..]);
    }
  }

  lemma {:induction false} ResetsSpaced(c: Client, ops: seq<Op>, i: nat)
    requires i + 1 < |ResetTimes(c, ops)|
    ensures ResetTimes(c, ops)[i + 1] - ResetTimes(c, ops)[i] > c.resetDays * DAY
    decreases |ops|
  {
    var c' := RowStep(c, ops[0]);
    var rest := ResetTimes(c', ops[1..]);
    assert c'.resetDays == c.resetDays;
    if ops[0].Tick? && DueReset(c, ops[0].dt) {
      assert ResetTimes(c, ops) == [ops[0].dt] + rest;
      if i == 0 {
        FirstReset(c', ops[1..]);
        assert c'.nextReset == ops[0].dt + c.resetDays * DAY && !c'.delayStart;
      } else {
        ResetsSpaced(c', ops[1..], i - 1);
      }
    } else {
      assert ResetTimes(c, ops) == rest;
      ResetsSpaced(c', ops[1..], i);
    }
  }

  lemma {:induction false} ResetsFarApart(c: Client, ops: seq<Op>, i: nat, j: nat)
    requires i < j < |ResetTimes(c, ops)| && 0 < c.resetDays
    ensures ResetTimes(c, ops)[j] - ResetTimes(c, ops)[i] > (j - i) * (c.resetDays * DAY)
    decreases j
  {
    ResetsSpaced(c, ops, j - 1);
    if i < j - 1 {
      ResetsFarApart(c, ops, i, j - 1);
      assert (j - i) * (c.resetDays * DAY) == (j - 1 - i) * (c.resetDays * DAY) + c.resetDays * DAY;
    }
  }

  /** n = j - i + 1 resets inside a window of `w` seconds need (n - 1) periods to fit: n is at
      most 1 + w / period. */
  lemma ResetsInWindow(c: Client, ops: seq<Op>, i: nat, j: nat, w: nat)
    requires i <= j < |ResetTimes(c, ops)| && 0 < c.resetDays
    requires ResetTimes(c, ops)[j] - ResetTimes(c, ops)[i] <= w
    ensures (j - i) * (c.resetDays * DAY) <= w
  {
    if i < j {
      ResetsFarApart(c, ops, i, j);
    }
  }

  lemma {:induction false} NoStartWithoutDelay(c: Client, ops: seq<Op>)
    requires !c.delayStart
    ensures StartTimes(c, ops) == []
    decreases |ops|
  {
    if ops != [] {
      NoStartWithoutDelay(RowStep(c, ops[0]), ops[1..]);
    }
  }

  /** The delayed start fires at most once. */
  lemma {:induction false} StartsOnce(c: Client, ops: seq<Op>)
    ensures |StartTimes(c, ops)| <= 1
    decreases |ops|
  {
    if ops != [] {
      var c' := RowStep(c, ops[0]);
      if ops[0].Tick? && (StartsExpiry(c) || StartsPeriod(c)) {
        NoStartWithoutDelay(c', ops[1..]);
      } else {
        StartsOnce(c', ops[1..]);
      }
    }
  }
}
