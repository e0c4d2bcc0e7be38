/** The guard and cooldown around starting the core (service/config.go: StartCore,
restartCoreWithConfig), with any number of goroutines interleaving.

Times are in nanoseconds. `owner` and `failures` are history: no step is guarded by them. */
module StartGuard {
  import opened Model

  type Tid = nat

  /** StartCore, or restartCoreWithConfig. */
  datatype Kind = Start | Restart

  datatype Pc =
    | CheckWait(kind: Kind)
    | CheckHeld(kind: Kind)
    | Inside(kind: Kind)
    | FailWait
    | FailHeld
    | ReleaseWait
    | ReleaseHeld

  /** How the guarded work ends. */
  datatype Outcome = Started | ConfigError | StartError

  datatype State = State(
    mu: Option<Tid>, inProgress: bool, lastFail: Option<int>, now: int, threads: map<Tid, Pc>,
    owner: Option<Tid>, failures: seq<int>)

  datatype Step =
    | Call(t: Tid, kind: Kind)
    | Advance(t: Tid)
    | Finish(t: Tid, outcome: Outcome)
    | Wait(delay: nat)

  const COOLDOWN := 15_000_000_000

  function Init(now: int): State {
    State(None, false, None, now, map[], None, [])
  }

  predicate Enabled(st: State, step: Step) {
    match step
    case Call(t, _) => t !in st.threads
    case Advance(t) =>
      t in st.threads && !st.threads[t].Inside?
      && (st.threads[t].CheckWait? || st.threads[t].FailWait? || st.threads[t].ReleaseWait? ==> st.mu.None?)
    case Finish(t, _) => t in st.threads && st.threads[t].Inside?
    case Wait(_) => true
  }

  predicate CoolingDown(st: State) {
    st.lastFail.Some? && st.now - st.lastFail.value < COOLDOWN
  }

  function Goto(st: State, t: Tid, pc: Pc): State {
    st.(threads := st.threads[t := pc])
  }

  function Return(st: State, t: Tid): State {
    st.(threads := map x | x in st.threads && x != t :: st.threads[x])
  }

  function Apply(st: State, step: Step): State
    requires Enabled(st, step)
  {
    match step
    case Call(t, kind) => Goto(st, t, CheckWait(kind))
    case Wait(delay) => st.(now := st.now + delay)
    case Finish(t, outcome) =>
      Goto(st, t, if outcome.StartError? && st.threads[t].kind.Start? then FailWait else ReleaseWait)
    case Advance(t) =>
      match st.threads[t]
      case CheckWait(kind) => Goto(st, t, CheckHeld(kind)).(mu := Some(t))
      case CheckHeld(kind) =>
        if st.inProgress || (kind.Start? && CoolingDown(st)) then Return(st, t).(mu := None)
        else Goto(st, t, Inside(kind)).(mu := None, inProgress := true, owner := Some(t))
      case FailWait => Goto(st, t, FailHeld).(mu := Some(t))
      case FailHeld =>
        Goto(st, t, ReleaseWait).(mu := None, lastFail := Some(st.now), failures := st.failures + [st.now])
      case ReleaseWait => Goto(st, t, ReleaseHeld).(mu := Some(t))
      case ReleaseHeld => Return(st, t).(mu := None, inProgress := false, owner := None)
      case Inside(_) => st
  }

  predicate ValidRun(st: State, steps: seq<Step>)
    decreases |steps|
  {
    steps == [] || (Enabled(st, steps[0]) && ValidRun(Apply(st, steps[0]), steps[1..]))
  }

  function Exec(st: State, steps: seq<Step>): State
    requires ValidRun(st, steps)
    decreases |steps|
  {
    if steps == [] then st else Exec(Apply(st, steps[0]), steps[1..])
  }

  // ---------- invariant ----------

  predicate Guarded(pc: Pc) {
    !pc.CheckWait? && !pc.CheckHeld?
  }

  predicate HoldsMu(pc: Pc) {
    pc.CheckHeld? || pc.FailHeld? || pc.ReleaseHeld?
  }

  predicate MayRecord(pc: Pc) {
    pc == Inside(Start) || pc.FailWait? || pc.FailHeld?
  }

  /** Recorded failures are a cooldown apart, and none lies in the future. */
  predicate Spaced(failures: seq<int>, now: int) {
    && (forall i :: 0 <= i < |failures| ==> failures[i] <= now)
    && (forall i :: 0 <= i < |failures| - 1 ==> failures[i + 1] - failures[i] >= COOLDOWN)
  }

  ghost predicate Inv(st: State) {
    && (forall t :: t in st.threads ==>
          && (st.mu == Some(t) <==> HoldsMu(st.threads[t]))
          && (st.owner == Some(t) <==> Guarded(st.threads[t]))
          && (MayRecord(st.threads[t]) ==> !CoolingDown(st)))
    && (st.mu.Some? ==> st.mu.value in st.threads)
    && (st.owner.Some? ==> st.owner.value in st.threads)
    && (st.inProgress <==> st.owner.Some?)
    && st.lastFail == (if st.failures == [] then None else Some(st.failures[|st.failures| - 1]))
    && Spaced(st.failures, st.now)
  }

  lemma InvStep(st: State, step: Step)
    requires Inv(st) && Enabled(st, step)
    ensures Inv(Apply(st, step))
  {
    if step.Advance? {
      AdvanceInv(st, step.t);
    }
  }

  lemma AdvanceInv(st: State, t: Tid)
    requires Inv(st) && Enabled(st, Advance(t))
    ensures Inv(Apply(st, Advance(t)))
  {
    hide Inv, Apply;
    match st.threads[t]
    case CheckWait(_) => LockInv(st, t);
    case CheckHeld(_) => CheckInv(st, t);
    case FailWait => LockInv(st, t);
    case FailHeld => RecordInv(st, t);
    case ReleaseWait => LockInv(st, t);
    case ReleaseHeld => ReleaseInv(st, t);
  }

  lemma LockInv(st: State, t: Tid)
    requires Inv(st) && Enabled(st, Advance(t))
    requires st.threads[t].CheckWait? || st.threads[t].FailWait? || st.threads[t].ReleaseWait?
    ensures Inv(Apply(st, Advance(t)))
  {
    hide Spaced;
  }

  lemma CheckInv(st: State, t: Tid)
    requires Inv(st) && Enabled(st, Advance(t)) && st.threads[t].CheckHeld?
    ensures Inv(Apply(st, Advance(t)))
  {
    hide Spaced;
  }

  lemma RecordInv(st: State, t: Tid)
    requires Inv(st) && Enabled(st, Advance(t)) && st.threads[t].FailHeld?
    ensures Inv(Apply(st, Advance(t)))
  {
    hide Spaced;
    SpacedAppend(st.failures, st.now);
  }

  lemma ReleaseInv(st: State, t: Tid)
    requires Inv(st) && Enabled(st, Advance(t)) && st.threads[t].ReleaseHeld?
    ensures Inv(Apply(st, Advance(t)))
  {
    hide Spaced;
  }

  lemma SpacedAppend(failures: seq<int>, now: int)
    requires Spaced(failures, now)
    requires failures != [] ==> now - failures[|failures| - 1] >= COOLDOWN
    ensures Spaced(failures + [now], now)
  {
  }

  lemma {:induction false} InvRun(st: State, steps: seq<Step>)
    requires Inv(st) && ValidRun(st, steps)
    ensures Inv(Exec(st, steps))
    decreases |steps|
  {
    if steps != [] {
      InvStep(st, steps[0]);
      InvRun(Apply(st, steps[0]), steps[1..]);
    }
  }

  // ---------- theorems ----------

  /** At most one goroutine is past the check and not yet returned. */
  lemma MutualExclusion(now: int, steps: seq<Step>, a: Tid, b: Tid)
    requires ValidRun(Init(now), steps)
    requires var st := Exec(Init(now), steps);
             a in st.threads && b in st.threads && Guarded(st.threads[a]) && Guarded(st.threads[b])
    ensures a == b
  {
    InvRun(Init(now), steps);
  }

  /** The flag is up exactly while some goroutine is in the guarded section: every exit,
      failing or not, takes it down. */
  lemma FlagMeansInside(now: int, steps: seq<Step>)
    requires ValidRun(Init(now), steps)
    ensures var st := Exec(Init(now), steps);
            st.inProgress <==> exists t :: t in st.threads && Guarded(st.threads[t])
  {
    InvRun(Init(now), steps);
    var st := Exec(Init(now), steps);
    if st.inProgress {
      assert Guarded(st.threads[st.owner.value]);
    }
  }

  /** Recorded StartCore failures are at least a cooldown apart. */
  lemma FailuresSpaced(now: int, steps: seq<Step>, i: nat, j: nat)
    requires ValidRun(Init(now), steps) && i <= j < |Exec(Init(now), steps).failures|
    ensures var f := Exec(Init(now), steps).failures; f[j] - f[i] >= (j - i) * COOLDOWN
  {
    InvRun(Init(now), steps);
    SpacedApart(Exec(Init(now), steps).failures, Exec(Init(now), steps).now, i, j);
  }

  lemma {:induction false} SpacedApart(failures: seq<int>, now: int, i: nat, j: nat)
    requires Spaced(failures, now) && i <= j < |failures|
    ensures failures[j] - failures[i] >= (j - i) * COOLDOWN
    decreases j
  {
    if i < j {
      SpacedApart(failures, now, i, j - 1);
      assert failures[j - 1 + 1] - failures[j - 1] >= COOLDOWN;
    }
  }

  /** n recorded failures within `w` nanoseconds need n - 1 cooldowns to fit. */
  lemma FailuresInWindow(now: int, steps: seq<Step>, i: nat, j: nat, w: nat)
    requires ValidRun(Init(now), steps) && i <= j < |Exec(Init(now), steps).failures|
    requires var f := Exec(Init(now), steps).failures; f[j] - f[i] <= w
    ensures j - i + 1 <= 1 + w / COOLDOWN
  {
    FailuresSpaced(now, steps, i, j);
  }

  /** No goroutine waits forever on the mutex: it can move, or its holder can. */
  lemma NoDeadlock(now: int, steps: seq<Step>, t: Tid)
    requires ValidRun(Init(now), steps) && t in Exec(Init(now), steps).threads
    ensures var st := Exec(Init(now), steps);
            || Enabled(st, Advance(t)) || Enabled(st, Finish(t, Started))
            || (st.mu.Some? && Enabled(st, Advance(st.mu.value)))
  {
    InvRun(Init(now), steps);
  }

  /** Who is let in, in every reachable state: StartCore when nobody is inside and every recorded failure is
      15 seconds past, restartCoreWithConfig when nobody is inside. The others return. */
  lemma Admission(now: int, steps: seq<Step>, t: Tid, kind: Kind)
    requires ValidRun(Init(now), steps)
    requires var st := Exec(Init(now), steps); t in st.threads && st.threads[t] == CheckHeld(kind)
    ensures var st := Exec(Init(now), steps); var after := Apply(st, Advance(t));
            var admitted := (forall x :: x in st.threads ==> !Guarded(st.threads[x]))
                            && (kind.Start? ==> forall f :: f in st.failures ==> st.now - f >= 15_000_000_000);
            && (admitted ==> t in after.threads && after.threads[t] == Inside(kind) && after.inProgress)
            && (!admitted ==> t !in after.threads && after.inProgress == st.inProgress)
            && after.mu == None && after.lastFail == st.lastFail
  {
    InvRun(Init(now), steps);
    FlagMeansInside(now, steps);
    var st := Exec(Init(now), steps);
    LastFailureCounts(st.failures, st.now);
  }

  /** The latest failure is the one that decides. */
  lemma LastFailureCounts(failures: seq<int>, now: int)
    requires Spaced(failures, now)
    ensures failures != [] ==>
              (now - failures[|failures| - 1] >= COOLDOWN <==> forall f :: f in failures ==> now - f >= COOLDOWN)
  {
    if failures != [] {
      assert failures[|failures| - 1] in failures;
      forall f | f in failures ensures f <= failures[|failures| - 1] {
        var i :| 0 <= i < |failures| && failures[i] == f;
        SpacedApart(failures, now, i, |failures| - 1);
      }
    }
  }

  /** The way out, when the mutex is free: only a failed StartCore is recorded, at the time it takes the
      mutex, and the flag goes down on every way out. */
  lemma WayOut(st: State, t: Tid, kind: Kind, outcome: Outcome)
    requires t in st.threads && st.threads[t] == Inside(kind) && st.mu.None?
    ensures var recorded := outcome == StartError && kind == Start;
            var advances := [Advance(t), Advance(t)];
            var steps := [Finish(t, outcome)] + (if recorded then advances else []) + advances;
            && ValidRun(st, steps)
            && var end := Exec(st, steps);
               && t !in end.threads && !end.inProgress && end.mu.None?
               && end.failures == st.failures + (if recorded then [st.now] else [])
               && end.lastFail == (if recorded then Some(st.now) else st.lastFail)
               && forall x :: x != t ==> (x in end.threads <==> x in st.threads)
                                         && (x in st.threads ==> end.threads[x] == st.threads[x])
  {
    var s1 := Apply(st, Finish(t, outcome));
    if outcome == StartError && kind == Start {
      var s2 := Apply(s1, Advance(t));
      var s3 := Apply(s2, Advance(t));
      Unlock(s3, t);
      TwoSteps(s1, Advance(t), Advance(t), [Advance(t), Advance(t)]);
      FirstStep(st, Finish(t, outcome), [Advance(t), Advance(t)] + [Advance(t), Advance(t)]);
      assert [Finish(t, outcome)] + [Advance(t), Advance(t)] + [Advance(t), Advance(t)]
          == [Finish(t, outcome)] + ([Advance(t), Advance(t)] + [Advance(t), Advance(t)]);
    } else {
      Unlock(s1, t);
      FirstStep(st, Finish(t, outcome), [Advance(t), Advance(t)]);
      assert [Finish(t, outcome)] + [] + [Advance(t), Advance(t)] == [Finish(t, outcome)] + [Advance(t), Advance(t)];
    }
  }

  lemma FirstStep(st: State, a: Step, rest: seq<Step>)
    requires Enabled(st, a) && ValidRun(Apply(st, a), rest)
    ensures ValidRun(st, [a] + rest) && Exec(st, [a] + rest) == Exec(Apply(st, a), rest)
  {
    hide Enabled, Apply;
    assert ([a] + rest)[1..] == rest;
  }

  lemma TwoSteps(st: State, a: Step, b: Step, rest: seq<Step>)
    requires Enabled(st, a) && Enabled(Apply(st, a), b) && ValidRun(Apply(Apply(st, a), b), rest)
    ensures ValidRun(st, [a, b] + rest) && Exec(st, [a, b] + rest) == Exec(Apply(Apply(st, a), b), rest)
  {
    hide Enabled, Apply;
    FirstStep(Apply(st, a), b, rest);
    FirstStep(st, a, [b] + rest);
    assert [a, b] + rest == [a] + ([b] + rest);
  }

  lemma Unlock(st: State, t: Tid)
    requires t in st.threads && st.threads[t] == ReleaseWait && st.mu.None?
    ensures ValidRun(st, [Advance(t), Advance(t)])
    ensures var end := Exec(st, [Advance(t), Advance(t)]);
            && t !in end.threads && !end.inProgress && end.mu.None?
            && end.failures == st.failures && end.lastFail == st.lastFail
            && forall x :: x != t ==> (x in end.threads <==> x in st.threads)
                                      && (x in st.threads ==> end.threads[x] == st.threads[x])
  {
    hide ValidRun, Exec;
    var s1 := Apply(st, Advance(t));
    var s2 := Apply(s1, Advance(t));
    assert ValidRun(s2, []) && Exec(s2, []) == s2 by { NoMoreSteps(s2); }
    TwoSteps(st, Advance(t), Advance(t), []);
    assert [Advance(t), Advance(t)] + [] == [Advance(t), Advance(t)];
  }

  lemma NoMoreSteps(st: State)
    ensures ValidRun(st, []) && Exec(st, []) == st
  {
  }
}
