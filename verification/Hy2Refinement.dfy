/** Run alone, the threads of Hy2Protocol do what the calls of Hy2Service promise. */
module Hy2Refinement {
  import opened Model
  import opened Hy2Protocol
  import Hy2Service
  import Hy2Theorems

  ghost predicate PanelOnly(steps: seq<Step>) {
    forall x :: x in steps ==> x.PanelStep?
  }

  predicate Unlisted(r: Session, keep: set<string>) {
    r.id.authenticated && r.id.password !in keep
  }

  /** Up to the stamps of the scan, nothing happened to the session. */
  predicate SameSession(a: Session, b: Session) {
    b == a.(at := b.at)
  }

  ghost predicate OnlyScanned(a: State, b: State) {
    && b.users == a.users && b.reg == a.reg && b.streams == a.streams && b.table.Keys == a.table.Keys
    && forall s :: s in a.table ==> SameSession(a.table[s], b.table[s])
  }

  /** A run of no steps, and a run of one step more. */
  lemma NoSteps(st: State)
    ensures ValidRun(st, []) && Exec(st, []) == st
  {
  }

  lemma Then(st: State, steps: seq<Step>, x: Step)
    requires ValidRun(st, steps) && Enabled(Exec(st, steps), x)
    ensures ValidRun(st, steps + [x]) && Exec(st, steps + [x]) == Apply(Exec(st, steps), x)
  {
    hide Enabled, Apply;
    assert [x][1..] == [];
    Hy2Theorems.Compose(st, steps, [x]);
  }

  /** A step of one thread, taken three times. */
  lemma ThreeSteps(st: State, x: Step, st1: State, st2: State, st3: State)
    requires Enabled(st, x) && st1 == Apply(st, x)
    requires Enabled(st1, x) && st2 == Apply(st1, x)
    requires Enabled(st2, x) && st3 == Apply(st2, x)
    ensures ValidRun(st, [x, x, x]) && Exec(st, [x, x, x]) == st3
  {
    hide ValidRun, Exec, Enabled, Apply;
    NoSteps(st);
    Then(st, [], x);
    assert [] + [x] == [x];
    Then(st, [x], x);
    assert [x] + [x] == [x, x];
    Then(st, [x, x], x);
    assert [x, x] + [x] == [x, x, x];
  }

  // ---------- one session ----------

  function ScanOne(st: State, s: Sid): State
    requires st.panel.Scan? && s in st.panel.todo && s in st.table
  {
    var p := st.panel;
    var r := st.table[s];
    State(st.users, st.reg, st.table[s := r.(authLock := None, at := r.at.(scanned := st.clock + 3))],
          Scan(p.keep, p.todo - {s}, if Unlisted(r, p.keep) then p.victims + [s] else p.victims), st.clock + 3,
          st.streams)
  }

  lemma ScanOneRuns(st: State, s: Sid)
    requires st.panel.Scan? && s in st.panel.todo && s in st.table && st.table[s].authLock.None?
    ensures var steps := [PanelStep(s), PanelStep(s), PanelStep(s)];
            ValidRun(st, steps) && Exec(st, steps) == ScanOne(st, s)
  {
    var r := st.table[s];
    var held := r.(authLock := Some(Panel));
    var st1 := Apply(st, PanelStep(s));
    var st2 := Apply(st1, PanelStep(s));
    var st3 := Apply(st2, PanelStep(s));
    assert st2.table == st.table[s := held];
    assert st3.table == st.table[s := r.(authLock := None, at := r.at.(scanned := st.clock + 3))];
    ThreeSteps(st, PanelStep(s), st1, st2, st3);
  }

  function EvictOne(st: State): State
    requires st.panel.Evict? && st.panel.victims != [] && st.panel.victims[0] in st.table
  {
    var s := st.panel.victims[0];
    var r := st.table[s];
    State(st.users, st.reg, st.table[s := r.(connLock := None, channel := Close(r.channel))],
          Evict(st.panel.victims[1..]), st.clock + 3, st.streams)
  }

  lemma EvictOneRuns(st: State)
    requires st.panel.Evict? && st.panel.victims != [] && st.panel.victims[0] in st.table
    requires st.table[st.panel.victims[0]].connLock.None?
    ensures var steps := [PanelStep(0), PanelStep(0), PanelStep(0)];
            ValidRun(st, steps) && Exec(st, steps) == EvictOne(st)
  {
    var s := st.panel.victims[0];
    var r := st.table[s];
    var st1 := Apply(st, PanelStep(0));
    var st2 := Apply(st1, PanelStep(0));
    var st3 := Apply(st2, PanelStep(0));
    assert st2.table == st.table[s := r.(connLock := Some(Panel))];
    assert st3.table == st.table[s := r.(connLock := None, channel := Close(r.channel))];
    ThreeSteps(st, PanelStep(0), st1, st2, st3);
  }

  // ---------- the two loops ----------

  lemma {:induction false} ScanAll(st: State) returns (steps: seq<Step>)
    requires st.panel.Scan? && st.panel.todo <= st.table.Keys
    requires forall s :: s in st.panel.todo ==> st.table[s].authLock.None?
    ensures PanelOnly(steps) && ValidRun(st, steps)
    ensures var end := Exec(st, steps);
            && OnlyScanned(st, end) && end.panel.Scan? && end.panel.keep == st.panel.keep && end.panel.todo == {}
            && forall s :: s in end.panel.victims <==>
                 s in st.panel.victims || (s in st.panel.todo && Unlisted(st.table[s], st.panel.keep))
    decreases st.panel.todo
  {
    if st.panel.todo == {} {
      steps := [];
    } else {
      var s :| s in st.panel.todo;
      ScanOneRuns(st, s);
      var first := [PanelStep(s), PanelStep(s), PanelStep(s)];
      var rest := ScanAll(ScanOne(st, s));
      steps := first + rest;
      hide ValidRun, Exec;
      Hy2Theorems.Compose(st, first, rest);
    }
  }

  /** The channels of exactly the listed sessions are closed. */
  ghost predicate OnlyEvicted(a: State, b: State, victims: seq<Sid>) {
    && b.users == a.users && b.reg == a.reg && b.streams == a.streams && b.table.Keys == a.table.Keys
    && forall s :: s in a.table ==>
         b.table[s].id == a.table[s].id
         && b.table[s].channel == if s in victims then Close(a.table[s].channel) else a.table[s].channel
  }

  lemma {:induction false} EvictAll(st: State) returns (steps: seq<Step>)
    requires st.panel.Evict? && forall s :: s in st.panel.victims ==> s in st.table && st.table[s].connLock.None?
    ensures PanelOnly(steps) && ValidRun(st, steps)
    ensures Exec(st, steps).panel == Ready && OnlyEvicted(st, Exec(st, steps), st.panel.victims)
    decreases |st.panel.victims|
  {
    if st.panel.victims == [] {
      hide ValidRun, Exec;
      NoSteps(st);
      Then(st, [], PanelStep(0));
      steps := [] + [PanelStep(0)];
    } else {
      var s := st.panel.victims[0];
      assert s in st.panel.victims;
      EvictOneRuns(st);
      var mid := EvictOne(st);
      var rest := EvictAll(mid);
      var first := [PanelStep(0), PanelStep(0), PanelStep(0)];
      steps := first + rest;
      hide ValidRun, Exec;
      Hy2Theorems.Compose(st, first, rest);
      EvictedFirst(st, mid, Exec(mid, rest));
    }
  }

  lemma EvictedFirst(st: State, mid: State, end: State)
    requires st.panel.Evict? && st.panel.victims != [] && st.panel.victims[0] in st.table && mid == EvictOne(st)
    requires OnlyEvicted(mid, end, mid.panel.victims)
    ensures OnlyEvicted(st, end, st.panel.victims)
  {
    assert forall x :: x in st.panel.victims <==> x == st.panel.victims[0] || x in mid.panel.victims;
  }

  // ---------- a whole update ----------

  /** Nobody else holds a lock the panel needs. */
  ghost predicate Undisturbed(st: State) {
    && st.users.writer.None? && st.users.readers == {} && st.reg.lock.None? && st.reg.ids <= st.table.Keys
    && forall s :: s in st.table ==> st.table[s].authLock.None? && st.table[s].connLock.None?
  }

  /** The effect that UpdateUsers and RetainUsers promise together. */
  ghost predicate Updated(a: State, b: State, names: seq<string>, passwords: seq<string>)
    requires |names| == |passwords|
  {
    && b.panel.Ready? && b.users.userMap == Hy2Service.BuildUsers(names, passwords)
    && b.reg.ids == a.reg.ids && b.table.Keys == a.table.Keys
    && forall s :: s in a.table ==>
         b.table[s].id == a.table[s].id
         && (b.table[s].channel.done <==>
               a.table[s].channel.done
               || (s in a.reg.ids && a.table[s].id.authenticated && a.table[s].id.password !in passwords))
  }

  function Swapped(st: State, names: seq<string>, passwords: seq<string>): State
    requires |names| == |passwords|
  {
    var incoming := Hy2Service.BuildUsers(names, passwords);
    State(Users(incoming, None, {}, st.users.epochs + [incoming], st.clock + 3), st.reg.(lock := Some(Panel)), st.table,
          Scan((set p | p in passwords), st.reg.ids, []), st.clock + 4, st.streams)
  }

  lemma SwapRuns(st: State, names: seq<string>, passwords: seq<string>)
    requires st.panel.Ready? && Undisturbed(st) && |names| == |passwords|
    ensures var steps := [Update(names, passwords), PanelStep(0), PanelStep(0), PanelStep(0)];
            ValidRun(st, steps) && Exec(st, steps) == Swapped(st, names, passwords)
  {
    hide Hy2Service.BuildUsers, ValidRun, Exec;
    var update, x := Update(names, passwords), PanelStep(0);
    var st1 := Apply(st, update);
    var st2 := Apply(st1, x);
    var st3 := Apply(st2, x);
    ThreeSteps(st1, x, st2, st3, Apply(st3, x));
    NoSteps(st);
    Then(st, [], update);
    assert [] + [update] == [update] && [update] + [x, x, x] == [update, x, x, x];
    Hy2Theorems.Compose(st, [update], [x, x, x]);
  }

  lemma UnlockRuns(st: State)
    requires st.panel.Scan? && st.panel.todo == {}
    ensures ValidRun(st, [PanelStep(0)])
    ensures Exec(st, [PanelStep(0)])
            == st.(clock := st.clock + 1, reg := st.reg.(lock := None), panel := Evict(st.panel.victims))
  {
    hide ValidRun, Exec;
    NoSteps(st);
    Then(st, [], PanelStep(0));
    assert [] + [PanelStep(0)] == [PanelStep(0)];
  }

  /** Swap, scan, unlock and evict together make the update. */
  lemma StagesMakeUpdate(st: State, names: seq<string>, passwords: seq<string>, scanned: State, end: State)
    requires st.panel.Ready? && Undisturbed(st) && |names| == |passwords|
    requires var st1 := Swapped(st, names, passwords);
             && OnlyScanned(st1, scanned) && scanned.panel.Scan?
             && forall s :: s in scanned.panel.victims <==> s in st.reg.ids && Unlisted(st.table[s], st1.panel.keep)
    requires OnlyEvicted(scanned.(reg := scanned.reg.(lock := None)), end, scanned.panel.victims) && end.panel.Ready?
    ensures Updated(st, end, names, passwords)
  {
    hide Hy2Service.BuildUsers;
  }

  /** An undisturbed panel thread can finish an update, and then has done exactly what the two calls
      promise: the map is the listed one, and closed are exactly the registered authenticated
      sessions whose password is not listed, besides those that were. */
  lemma UpdateAlone(st: State, names: seq<string>, passwords: seq<string>) returns (steps: seq<Step>)
    requires st.panel.Ready? && Undisturbed(st) && |names| == |passwords|
    ensures PanelOnly(steps) && ValidRun(st, [Update(names, passwords)] + steps)
    ensures Updated(st, Exec(st, [Update(names, passwords)] + steps), names, passwords)
  {
    hide ValidRun, Exec, Apply, Hy2Service.BuildUsers, Updated;
    var swap := [PanelStep(0), PanelStep(0), PanelStep(0)];
    var first := [Update(names, passwords)] + swap;
    assert first == [Update(names, passwords), PanelStep(0), PanelStep(0), PanelStep(0)];
    SwapRuns(st, names, passwords);
    var st1 := Swapped(st, names, passwords);
    var scan := ScanAll(st1);
    var st2 := Exec(st1, scan);
    var unlock := [PanelStep(0)];
    UnlockRuns(st2);
    var st3 := Exec(st2, unlock);
    var evict := EvictAll(st3);
    steps := swap + (scan + (unlock + evict));
    StagesMakeUpdate(st, names, passwords, st2, Exec(st3, evict));
    hide OnlyScanned, OnlyEvicted, Undisturbed, Swapped;
    Hy2Theorems.Compose(st2, unlock, evict);
    Hy2Theorems.Compose(st1, scan, unlock + evict);
    Hy2Theorems.Compose(st, first, scan + (unlock + evict));
    assert [Update(names, passwords)] + steps == first + (scan + (unlock + evict));
  }

  // ---------- every undisturbed update ----------

  /** What an update has to close. */
  predicate Due(a: State, s: Sid, passwords: seq<string>) {
    s in a.reg.ids && s in a.table && a.table[s].id.authenticated && a.table[s].id.password !in passwords
  }

  /** Nothing but locks, stamps and channels has changed. */
  ghost predicate Framed(a: State, b: State) {
    && b.table.Keys == a.table.Keys && b.reg.ids == a.reg.ids
    && forall s :: s in a.table ==> b.table[s].id == a.table[s].id
  }

  /** Everything due is closed, except for what is still pending; nothing else is. */
  ghost predicate ClosedBut(a: State, b: State, passwords: seq<string>, pending: set<Sid>)
    requires a.table.Keys == b.table.Keys
  {
    forall s :: s in a.table ==>
                  && (a.table[s].channel.done ==> b.table[s].channel.done)
                  && (b.table[s].channel.done ==> a.table[s].channel.done || Due(a, s, passwords))
                  && (Due(a, s, passwords) && s !in pending ==> b.table[s].channel.done)
  }

  ghost predicate Untouched(a: State, b: State)
    requires a.table.Keys == b.table.Keys
  {
    forall s :: s in a.table ==> b.table[s].channel == a.table[s].channel
  }

  /** The scan has dealt with every registered session but those left. */
  ghost predicate Sorted(a: State, passwords: seq<string>, left: set<Sid>, victims: seq<Sid>) {
    && left <= a.reg.ids
    && forall s :: s in victims <==> Due(a, s, passwords) && s !in left
  }

  function KeepSet(passwords: seq<string>): set<string> {
    set p | p in passwords
  }

  ghost predicate AllDue(a: State, passwords: seq<string>, victims: seq<Sid>) {
    forall s :: s in victims ==> Due(a, s, passwords)
  }

  /** How far an update begun in `a` has come. */
  ghost predicate Progress(a: State, b: State, names: seq<string>, passwords: seq<string>)
    requires |names| == |passwords|
  {
    var incoming := Hy2Service.BuildUsers(names, passwords);
    && Framed(a, b)
    && match b.panel
       case Ready => b.users.userMap == incoming && ClosedBut(a, b, passwords, {})
       case SwapWait(users, keep) => users == incoming && keep == KeepSet(passwords) && Untouched(a, b)
       case SwapHeld(users, keep) => users == incoming && keep == KeepSet(passwords) && Untouched(a, b)
       case RetainWait(keep) => b.users.userMap == incoming && keep == KeepSet(passwords) && Untouched(a, b)
       case Scan(keep, todo, victims) =>
         b.users.userMap == incoming && keep == KeepSet(passwords) && Untouched(a, b)
         && Sorted(a, passwords, todo, victims)
       case ScanWait(keep, todo, victims, cur) =>
         b.users.userMap == incoming && keep == KeepSet(passwords) && Untouched(a, b) && cur in a.reg.ids
         && Sorted(a, passwords, todo + {cur}, victims) && cur !in todo
       case ScanHeld(keep, todo, victims, cur) =>
         b.users.userMap == incoming && keep == KeepSet(passwords) && Untouched(a, b) && cur in a.reg.ids
         && Sorted(a, passwords, todo + {cur}, victims) && cur !in todo
       case Evict(victims) =>
         b.users.userMap == incoming && AllDue(a, passwords, victims)
         && ClosedBut(a, b, passwords, set s | s in victims)
       case EvictWait(cur, victims) =>
         b.users.userMap == incoming && AllDue(a, passwords, [cur] + victims)
         && ClosedBut(a, b, passwords, set s | s in [cur] + victims)
       case EvictHeld(cur, victims) =>
         b.users.userMap == incoming && AllDue(a, passwords, [cur] + victims)
         && ClosedBut(a, b, passwords, set s | s in [cur] + victims)
  }

  lemma ScanProgress(a: State, b: State, names: seq<string>, passwords: seq<string>, pick: Sid)
    requires |names| == |passwords| && a.reg.ids <= a.table.Keys
    requires Progress(a, b, names, passwords) && PanelEnabled(b, pick)
    requires b.panel.Scan? || b.panel.ScanWait? || b.panel.ScanHeld?
    ensures Progress(a, Apply(b, PanelStep(pick)), names, passwords)
  {
    hide Hy2Service.BuildUsers;
    match b.panel
    case Scan(_, todo, victims) =>
      if todo != {} {
        assert todo - {pick} + {pick} == todo;
      }
    case ScanWait(_, _, _, _) =>
    case ScanHeld(_, todo, _, cur) =>
      assert todo <= a.reg.ids;
  }

  lemma EvictProgress(a: State, b: State, names: seq<string>, passwords: seq<string>, pick: Sid)
    requires |names| == |passwords| && a.reg.ids <= a.table.Keys
    requires Progress(a, b, names, passwords) && PanelEnabled(b, pick)
    requires b.panel.Evict? || b.panel.EvictWait?
    ensures Progress(a, Apply(b, PanelStep(pick)), names, passwords)
  {
    hide Hy2Service.BuildUsers;
    match b.panel
    case Evict(victims) =>
      if victims != [] {
        assert [victims[0]] + victims[1..] == victims;
      } else {
        assert (set s: Sid | s in victims) == {};
      }
    case EvictWait(_, _) =>
  }

  lemma CloseProgress(a: State, b: State, names: seq<string>, passwords: seq<string>, pick: Sid)
    requires |names| == |passwords| && a.reg.ids <= a.table.Keys
    requires Progress(a, b, names, passwords) && PanelEnabled(b, pick) && b.panel.EvictHeld?
    ensures Progress(a, Apply(b, PanelStep(pick)), names, passwords)
  {
    hide Hy2Service.BuildUsers;
    var EvictHeld(cur, victims) := b.panel;
    assert forall s :: s in [cur] + victims <==> s == cur || s in victims;
  }

  lemma SwapProgress(a: State, b: State, names: seq<string>, passwords: seq<string>, pick: Sid)
    requires |names| == |passwords| && a.reg.ids <= a.table.Keys
    requires Progress(a, b, names, passwords) && PanelEnabled(b, pick)
    requires b.panel.SwapWait? || b.panel.SwapHeld? || b.panel.RetainWait?
    ensures Progress(a, Apply(b, PanelStep(pick)), names, passwords)
  {
    hide Hy2Service.BuildUsers;
  }

  lemma {:induction false} PanelProgress(a: State, b: State, names: seq<string>, passwords: seq<string>,
                                         steps: seq<Step>)
    requires |names| == |passwords| && a.reg.ids <= a.table.Keys
    requires Progress(a, b, names, passwords) && PanelOnly(steps) && ValidRun(b, steps)
    ensures Progress(a, Exec(b, steps), names, passwords)
    decreases |steps|
  {
    hide Progress, Hy2Service.BuildUsers, Apply, PanelEnabled;
    if steps != [] {
      assert steps[0] in steps && forall x :: x in steps[1..] ==> x in steps;
      var pick := steps[0].pick;
      assert PanelEnabled(b, pick) && !b.panel.Ready? by { EnabledPanel(b, pick); }
      if b.panel.Scan? || b.panel.ScanWait? || b.panel.ScanHeld? {
        ScanProgress(a, b, names, passwords, pick);
      } else if b.panel.Evict? || b.panel.EvictWait? {
        EvictProgress(a, b, names, passwords, pick);
      } else if b.panel.EvictHeld? {
        CloseProgress(a, b, names, passwords, pick);
      } else {
        SwapProgress(a, b, names, passwords, pick);
      }
      PanelProgress(a, Apply(b, steps[0]), names, passwords, steps[1..]);
    }
  }

  lemma EnabledPanel(b: State, pick: Sid)
    requires Enabled(b, PanelStep(pick))
    ensures PanelEnabled(b, pick) && !b.panel.Ready?
  {
  }

  /** Whatever order the panel thread scans in: when an update that nobody disturbs is over, the map is
      the listed one, and closed are exactly the registered authenticated sessions whose password is
      not listed, besides those that were. So every such run refines the two calls. */
  lemma UpdateRefines(st: State, names: seq<string>, passwords: seq<string>, steps: seq<Step>)
    requires st.panel.Ready? && st.reg.ids <= st.table.Keys && |names| == |passwords|
    requires PanelOnly(steps) && ValidRun(st, [Update(names, passwords)] + steps)
    requires Exec(st, [Update(names, passwords)] + steps).panel.Ready?
    ensures Updated(st, Exec(st, [Update(names, passwords)] + steps), names, passwords)
  {
    hide ValidRun, Exec, Hy2Service.BuildUsers;
    var update := Update(names, passwords);
    FirstStep(st, update, steps);
    PanelProgress(st, Apply(st, update), names, passwords, steps);
  }

  lemma FirstStep(st: State, x: Step, steps: seq<Step>)
    requires ValidRun(st, [x] + steps)
    ensures Enabled(st, x) && ValidRun(Apply(st, x), steps) && Exec(st, [x] + steps) == Exec(Apply(st, x), steps)
  {
    hide Apply, Enabled;
    assert ([x] + steps)[0] == x && ([x] + steps)[1..] == steps;
  }

  // ---------- a whole authentication request ----------

  /** An undisturbed handler gives the session the identity of the current map, or leaves it alone,
      as ServeAuth promises. */
  lemma ServeAlone(st: State, s: Sid, pw: string) returns (steps: seq<Step>)
    requires Enabled(st, Request(s, pw))
    requires st.users.writer.None? && !st.panel.SwapWait? && st.table[s].authLock.None? && s !in st.users.readers
    ensures (forall x :: x in steps ==> x == AuthStep(s)) && ValidRun(st, [Request(s, pw)] + steps)
    ensures var end := Exec(st, [Request(s, pw)] + steps);
            && end.users == st.users && end.reg == st.reg && end.table.Keys == st.table.Keys
            && end.table[s].auth.Quiet? && end.table[s].authLock.None?
            && end.table[s].id == (if pw in st.users.userMap then Identity(true, st.users.userMap[pw], pw)
                                   else st.table[s].id)
            && forall x :: x in st.table && x != s ==> end.table[x] == st.table[x]
  {
    hide ValidRun, Exec;
    var q := Request(s, pw);
    var st1 := Apply(st, q);
    NoSteps(st);
    Then(st, [], q);
    assert [] + [q] == [q];
    var look := LookupAlone(st1, s, pw);
    Hy2Theorems.Compose(st, [q], look);
    var mid := Exec(st1, look);
    if pw in st.users.userMap {
      var commit := CommitAlone(mid, s, pw, st.users.userMap[pw]);
      steps := look + commit;
      Hy2Theorems.Compose(st, [q] + look, commit);
      assert [q] + look + commit == [q] + steps;
    } else {
      steps := look;
    }
  }

  lemma LookupAlone(st: State, s: Sid, pw: string) returns (steps: seq<Step>)
    requires s in st.table && st.table[s].auth == LookWait(pw)
    requires st.users.writer.None? && !st.panel.SwapWait? && s !in st.users.readers
    ensures (forall x :: x in steps ==> x == AuthStep(s)) && ValidRun(st, steps)
    ensures var end := Exec(st, steps);
            && end.users == st.users && end.reg == st.reg && end.table.Keys == st.table.Keys
            && end.table[s].auth == (if pw in st.users.userMap then CommitWait(pw, st.users.userMap[pw]) else Quiet)
            && end.table[s].id == st.table[s].id && end.table[s].authLock == st.table[s].authLock
            && forall x :: x in st.table && x != s ==> end.table[x] == st.table[x]
  {
    hide ValidRun, Exec;
    var a := AuthStep(s);
    NoSteps(st);
    Then(st, [], a);
    assert [] + [a] == [a];
    Then(st, [a], a);
    assert [a] + [a] == [a, a];
    steps := [a, a];
    assert Exec(st, steps).users.readers == st.users.readers;
  }

  lemma CommitAlone(st: State, s: Sid, pw: string, user: string) returns (steps: seq<Step>)
    requires s in st.table && st.table[s].auth == CommitWait(pw, user) && st.table[s].authLock.None?
    ensures (forall x :: x in steps ==> x == AuthStep(s)) && ValidRun(st, steps)
    ensures var end := Exec(st, steps);
            && end.users == st.users && end.reg == st.reg && end.table.Keys == st.table.Keys
            && end.table[s].auth.Quiet? && end.table[s].authLock.None? && end.table[s].id == Identity(true, user, pw)
            && forall x :: x in st.table && x != s ==> end.table[x] == st.table[x]
  {
    hide ValidRun, Exec;
    var a := AuthStep(s);
    var st1 := Apply(st, a);
    var st2 := Apply(st1, a);
    var st3 := Apply(st2, a);
    ThreeSteps(st, a, st1, st2, st3);
    Then(st, [a, a, a], a);
    Then(st, [a, a, a] + [a], a);
    steps := [a, a, a] + [a] + [a];
  }
}
