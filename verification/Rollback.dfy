/** The agent's direct rollback: validate both captures, delete the table, restore both
    families, and fall back to the last-good table when a restore fails. Every tool's
    return code, and whatever a failing tool leaves behind, is the environment's choice. */
module Rollback {
  import Snapshots
  import opened Sequences

  // ---- The host and its tools ------------------------------------------------------

  /** rules.v4 and rules.v6, the first two artifacts of a snapshot. */
  const FAMILIES := 2

  datatype Command = Test(family: nat) | DeleteTable | Restore(family: nat) | Reapply

  /** Return codes, per family where a command runs per family, and what is left when a
      command that failed had already acted. */
  datatype Tools = Tools(test: seq<int>, delete: int, deleteLeaves: bool,
                         restore: seq<int>, restoreLeaves: seq<int>,
                         lastGood: bool, reapply: int, reapplyLeaves: bool)

  predicate ValidTools(t: Tools) {
    |t.test| == |t.restore| == |t.restoreLeaves| == FAMILIES
  }

  /** Whether the table is there, the rules of each family, and the commands run so far. */
  datatype Host = Host(table: bool, rules: seq<int>, trace: seq<Command>)

  predicate ValidHost(h: Host) {
    |h.rules| == FAMILIES
  }

  /** A snapshot's captured rules, by family. */
  datatype Capture = Capture(files: seq<nat>, rules: seq<int>)

  predicate ValidCapture(c: Capture) {
    |c.rules| == FAMILIES
  }

  datatype Exit = Restored | Missing(family: nat) | TestFailed(family: nat) | RestoreFailed(family: nat)

  // ---- The procedure ------------------------------------------------------------------

  predicate Checked(c: Capture, t: Tools, family: nat)
    requires ValidTools(t) && family < FAMILIES
  {
    family in c.files && t.test[family] == 0
  }

  /** The families that pass their check before the first one that does not. */
  function Passing(c: Capture, t: Tools): (n: nat)
    requires ValidTools(t)
    ensures n <= FAMILIES
  {
    if !Checked(c, t, 0) then 0 else if !Checked(c, t, 1) then 1 else 2
  }

  function Tests(n: nat): seq<Command> {
    if n == 0 then [] else Tests(n - 1) + [Test(n - 1)]
  }

  function Restores(n: nat): seq<Command> {
    if n == 0 then [] else Restores(n - 1) + [Restore(n - 1)]
  }

  /** The families restored before the first failing restore. */
  function Restoring(t: Tools): (n: nat)
    requires ValidTools(t)
    ensures n <= FAMILIES
  {
    if t.restore[0] != 0 then 0 else if t.restore[1] != 0 then 1 else 2
  }

  function ExitOf(c: Capture, t: Tools): Exit
    requires ValidTools(t)
  {
    var n := Passing(c, t);
    if n < FAMILIES then (if n in c.files then TestFailed(n) else Missing(n))
    else if Restoring(t) < FAMILIES then RestoreFailed(Restoring(t))
    else Restored
  }

  /** The restored families carry the capture; the failing one carries what is left. */
  function RestoredRules(before: seq<int>, c: Capture, t: Tools, n: nat): (r: seq<int>)
    requires |before| == FAMILIES && ValidCapture(c) && ValidTools(t) && n <= FAMILIES
    ensures |r| == FAMILIES
  {
    if n == 0 then before
    else RestoredRules(before, c, t, n - 1)[n - 1 := if t.restore[n - 1] == 0 then c.rules[n - 1] else t.restoreLeaves[n - 1]]
  }

  function Procedure(h: Host, c: Capture, t: Tools): Host
    requires ValidHost(h) && ValidCapture(c) && ValidTools(t)
  {
    var n := Passing(c, t);
    if n < FAMILIES then h.(trace := h.trace + Tests(if n in c.files then n + 1 else n))
    else
      var r := Restoring(t);
      var gone := t.delete != 0 && t.deleteLeaves;
      if r == FAMILIES then
        Host(gone, RestoredRules(h.rules, c, t, r), h.trace + Tests(FAMILIES) + [DeleteTable] + Restores(r))
      else
        Host(if t.lastGood then t.reapply == 0 || t.reapplyLeaves else gone,
             RestoredRules(h.rules, c, t, r + 1),
             h.trace + Tests(FAMILIES) + [DeleteTable] + Restores(r + 1) + if t.lastGood then [Reapply] else [])
  }

  class Machine {
    var host: Host

    constructor (h: Host)
      ensures host == h
    {
      host := h;
    }

    /** One tool call: it is recorded, and it does what its return code says. */
    method RunCapture(command: Command, c: Capture, t: Tools) returns (rc: int)
      requires ValidHost(host) && ValidCapture(c) && ValidTools(t)
      requires command.Test? || command.Restore? ==> command.family < FAMILIES
      modifies this
      ensures ValidHost(host) && host.trace == old(host).trace + [command]
      ensures rc == match command
                    case Test(f) => t.test[f]
                    case DeleteTable => t.delete
                    case Restore(f) => t.restore[f]
                    case Reapply => t.reapply
      ensures host.table == match command
                            case DeleteTable => rc != 0 && t.deleteLeaves
                            case Reapply => rc == 0 || t.reapplyLeaves
                            case _ => old(host).table
      ensures host.rules == if command.Restore?
                            then old(host).rules[command.family := if rc == 0 then c.rules[command.family]
                                                                  else t.restoreLeaves[command.family]]
                            else old(host).rules
    {
      match command
      case Test(f) =>
        rc := t.test[f];
        host := host.(trace := host.trace + [command]);
      case DeleteTable =>
        rc := t.delete;
        host := host.(table := rc != 0 && t.deleteLeaves, trace := host.trace + [command]);
      case Restore(f) =>
        rc := t.restore[f];
        host := host.(rules := host.rules[f := if rc == 0 then c.rules[f] else t.restoreLeaves[f]],
                      trace := host.trace + [command]);
      case Reapply =>
        rc := t.reapply;
        host := host.(table := rc == 0 || t.reapplyLeaves, trace := host.trace + [command]);
    }

    method CheckCaptures(c: Capture, t: Tools) returns (exit: Exit)
      requires ValidHost(host) && ValidCapture(c) && ValidTools(t)
      modifies this
      ensures Passing(c, t) == FAMILIES ==> exit == Restored && host == old(host).(trace := old(host).trace + Tests(FAMILIES))
      ensures Passing(c, t) < FAMILIES ==> exit == ExitOf(c, t) && host == Procedure(old(host), c, t)
    {
      ghost var start := host.trace;
      for i := 0 to FAMILIES
        invariant ValidHost(host) && host == old(host).(trace := start + Tests(i))
        invariant forall f :: 0 <= f < i ==> Checked(c, t, f)
      {
        if i !in c.files { return Missing(i); }
        Associates(start, Tests(i), [Test(i)]);
        var rc := RunCapture(Test(i), c, t);
        if rc != 0 { return TestFailed(i); }
      }
      exit := Restored;
    }

    method ReapplyLastGood(c: Capture, t: Tools)
      requires ValidHost(host) && ValidCapture(c) && ValidTools(t)
      modifies this
      ensures host == if t.lastGood
                      then old(host).(table := t.reapply == 0 || t.reapplyLeaves, trace := old(host).trace + [Reapply])
                      else old(host)
    {
      if !t.lastGood { return; }
      var _ := RunCapture(Reapply, c, t);
    }

    method RestoreFamilies(c: Capture, t: Tools) returns (exit: Exit)
      requires ValidHost(host) && ValidCapture(c) && ValidTools(t)
      modifies this
      ensures exit == if Restoring(t) == FAMILIES then Restored else RestoreFailed(Restoring(t))
      ensures var n := if Restoring(t) == FAMILIES then FAMILIES else Restoring(t) + 1;
              host == old(host).(rules := RestoredRules(old(host).rules, c, t, n), trace := old(host).trace + Restores(n))
    {
      ghost var start := host.trace;
      for i := 0 to FAMILIES
        invariant ValidHost(host)
        invariant host == old(host).(rules := RestoredRules(old(host).rules, c, t, i), trace := start + Restores(i))
        invariant forall f :: 0 <= f < i ==> t.restore[f] == 0
      {
        Associates(start, Restores(i), [Restore(i)]);
        var rc := RunCapture(Restore(i), c, t);
        if rc != 0 { return RestoreFailed(i); }
      }
      exit := Restored;
    }

    method RollbackDirect(c: Capture, t: Tools) returns (exit: Exit)
      requires ValidHost(host) && ValidCapture(c) && ValidTools(t)
      modifies this
      ensures exit == ExitOf(c, t) && host == Procedure(old(host), c, t)
    {
      exit := CheckCaptures(c, t);
      if !exit.Restored? { return; }
      var _ := RunCapture(DeleteTable, c, t);
      exit := RestoreFamilies(c, t);
      if !exit.Restored? { ReapplyLastGood(c, t); }
    }
  }

  // ---- What the procedure guarantees ----------------------------------------------------

  /** `a` was run, and `b` only after it. */
  predicate Before(trace: seq<Command>, a: Command, b: Command) {
    forall j :: 0 <= j < |trace| && trace[j] == b ==> exists i :: 0 <= i < j && trace[i] == a
  }

  predicate Good(c: Capture, t: Tools, family: nat)
    requires ValidTools(t)
  {
    family < FAMILIES && family in c.files && t.test[family] == 0
  }

  function Ran(h: Host, c: Capture, t: Tools): seq<Command>
    requires ValidHost(h) && ValidCapture(c) && ValidTools(t)
  {
    Procedure(h.(trace := []), c, t).trace
  }

  lemma TestsAre()
    ensures Tests(1) == [Test(0)] && Tests(2) == [Test(0), Test(1)]
  {
    assert Tests(1) == Tests(0) + [Test(0)] && Tests(2) == Tests(1) + [Test(1)];
  }

  lemma RestoresAre()
    ensures Restores(1) == [Restore(0)] && Restores(2) == [Restore(0), Restore(1)]
  {
    assert Restores(1) == Restores(0) + [Restore(0)] && Restores(2) == Restores(1) + [Restore(1)];
  }

  /** The restores that are attempted, and the fallback. */
  function RestorePhase(t: Tools): seq<Command>
    requires ValidTools(t)
  {
    (if Restoring(t) == 0 then [Restore(0)] else [Restore(0), Restore(1)])
    + if Restoring(t) < FAMILIES && t.lastGood then [Reapply] else []
  }

  lemma RanRefused(h: Host, c: Capture, t: Tools)
    requires ValidHost(h) && ValidCapture(c) && ValidTools(t) && Passing(c, t) < FAMILIES
    ensures Ran(h, c, t) <= [Test(0), Test(1)]
  {
    TestsAre();
    var n := Passing(c, t);
    assert Ran(h, c, t) == Tests(if n in c.files then n + 1 else n);
  }

  lemma RanThrough(h: Host, c: Capture, t: Tools)
    requires ValidHost(h) && ValidCapture(c) && ValidTools(t) && Passing(c, t) == FAMILIES
    ensures Ran(h, c, t) == [Test(0), Test(1), DeleteTable] + RestorePhase(t)
  {
    TestsAre();
    RestoresAre();
    var r := Restoring(t);
    var front := [] + Tests(FAMILIES) + [DeleteTable];
    assert front == [Test(0), Test(1), DeleteTable];
    if r < FAMILIES {
      Associates(front, Restores(r + 1), if t.lastGood then [Reapply] else []);
    } else {
      assert RestorePhase(t) == Restores(r);
    }
  }

  /** Tests, then the delete, then restores. */
  lemma PhasesInOrder(tail: seq<Command>)
    requires tail != [] && tail[0] == Restore(0) && forall i :: 0 <= i < |tail| ==> tail[i].Restore? || tail[i].Reapply?
    ensures var ran := [Test(0), Test(1), DeleteTable] + tail;
            && DeleteTable in ran
            && Before(ran, Test(0), DeleteTable) && Before(ran, Test(1), DeleteTable)
            && Before(ran, DeleteTable, Restore(0)) && Before(ran, DeleteTable, Restore(1))
  {
    var ran := [Test(0), Test(1), DeleteTable] + tail;
    assert ran[0] == Test(0) && ran[1] == Test(1) && ran[2] == DeleteTable;
    forall j | 3 <= j < |ran| ensures ran[j] == tail[j - 3] {}
  }

  lemma RestoresInOrder(t: Tools)
    requires ValidTools(t)
    ensures var ran := [Test(0), Test(1), DeleteTable] + RestorePhase(t);
            Before(ran, Restore(0), Restore(1))
  {
    var ran := [Test(0), Test(1), DeleteTable] + RestorePhase(t);
    assert ran[3] == Restore(0);
  }

  /** The table is deleted exactly when both captures exist and pass their test, after both
      tests and before any restore; a restore happens only then too. */
  lemma DeleteOnlyAfterTests(h: Host, c: Capture, t: Tools)
    requires ValidHost(h) && ValidCapture(c) && ValidTools(t)
    ensures DeleteTable in Ran(h, c, t) <==> Good(c, t, 0) && Good(c, t, 1)
    ensures Before(Ran(h, c, t), Test(0), DeleteTable) && Before(Ran(h, c, t), Test(1), DeleteTable)
    ensures Before(Ran(h, c, t), DeleteTable, Restore(0)) && Before(Ran(h, c, t), DeleteTable, Restore(1))
    ensures Before(Ran(h, c, t), Restore(0), Restore(1))
  {
    if Passing(c, t) == FAMILIES {
      RanThrough(h, c, t);
      PhasesInOrder(RestorePhase(t));
      RestoresInOrder(t);
    } else {
      RanRefused(h, c, t);
    }
  }

  /** An attempt refused before the delete leaves table and rules alone. */
  lemma RefusalTouchesNothing(h: Host, c: Capture, t: Tools)
    requires ValidHost(h) && ValidCapture(c) && ValidTools(t)
    ensures var after := Procedure(h, c, t);
            ExitOf(c, t).Missing? || ExitOf(c, t).TestFailed? ==> after.table == h.table && after.rules == h.rules
    ensures ExitOf(c, t).Missing? ==> ExitOf(c, t).family !in c.files
    ensures ExitOf(c, t).TestFailed? ==> t.test[ExitOf(c, t).family] != 0
  {
  }

  /** Success means exactly that both captures were good and both restores returned zero;
      then both families carry the captured rules and no fallback ran. */
  lemma SuccessRestoresBoth(h: Host, c: Capture, t: Tools)
    requires ValidHost(h) && ValidCapture(c) && ValidTools(t)
    ensures ExitOf(c, t).Restored? <==>
            Good(c, t, 0) && Good(c, t, 1) && t.restore[0] == 0 && t.restore[1] == 0
    ensures ExitOf(c, t).Restored? ==> Procedure(h, c, t).rules == c.rules && Reapply !in Ran(h, c, t)
  {
    if Passing(c, t) == FAMILIES { RanThrough(h, c, t); }
    if ExitOf(c, t).Restored? {
      assert RestoredRules(h.rules, c, t, 1) == h.rules[0 := c.rules[0]];
      assert RestoredRules(h.rules, c, t, 2) == h.rules[0 := c.rules[0]][1 := c.rules[1]];
    }
  }

  /** A failing restore is followed by the fallback, as the last command, whenever a
      last-good table exists. */
  lemma FailedRestoreFallsBack(h: Host, c: Capture, t: Tools)
    requires ValidHost(h) && ValidCapture(c) && ValidTools(t) && ExitOf(c, t).RestoreFailed?
    ensures var ran := Ran(h, c, t);
            && (t.lastGood <==> Reapply in ran) && (t.lastGood ==> ran[|ran| - 1] == Reapply)
    ensures t.lastGood && t.reapply == 0 ==> Procedure(h, c, t).table
  {
    if Passing(c, t) == FAMILIES { RanThrough(h, c, t); } else { RanRefused(h, c, t); }
  }

  /** An error exit that leaves the host without the table it had means that there was no
      last-good table, or that re-applying it failed. */
  lemma TableLostOnlyWithoutFallback(h: Host, c: Capture, t: Tools)
    requires ValidHost(h) && ValidCapture(c) && ValidTools(t)
    ensures h.table && !Procedure(h, c, t).table && !ExitOf(c, t).Restored? ==> !t.lastGood || t.reapply != 0
    ensures DeleteTable in Ran(h, c, t) && !Procedure(h, c, t).table && !ExitOf(c, t).Restored?
            ==> !t.lastGood || t.reapply != 0
  {
    if Passing(c, t) == FAMILIES { RanThrough(h, c, t); } else { RanRefused(h, c, t); }
  }

  /** Rolling back the latest deploy gets past the file check exactly when its snapshot
      wrote both rule dumps: a refusal for a missing file means that one was not written, and
      is certain then unless an earlier test fails. */
  lemma LatestDeployCanRollBack(initial: Snapshots.HostState, ds: seq<Snapshots.Deployment>, rules: seq<int>, t: Tools)
    requires Snapshots.Increasing(ds) && ds != [] && |rules| == FAMILIES && ValidTools(t)
    requires ds[|ds| - 1].w.made
    ensures var d, h := ds[|ds| - 1], Snapshots.Run(initial, ds);
            Snapshots.IsGreatest(h.dirs.Keys, Snapshots.Stamp(d.time))
    ensures var d := ds[|ds| - 1];
            var exit := ExitOf(Capture(Snapshots.Run(initial, ds).dirs[Snapshots.Stamp(d.time)].files, rules), t);
            && (exit.Missing? ==> !(Snapshots.Wrote(d.w, 0) && Snapshots.Wrote(d.w, 1)))
            && (t.test[0] == 0 ==> (exit.Missing? <==> !(Snapshots.Wrote(d.w, 0) && Snapshots.Wrote(d.w, 1))))
  {
    var d, n := ds[|ds| - 1], |ds| - 1;
    var live := Snapshots.Run(initial, ds[..n]).live;
    Snapshots.RollbackPicksLatest(initial, ds, n);
    FileCheck(live, d.w, rules, t);
  }

  lemma FileCheck(live: Snapshots.HostState, w: Snapshots.Weather, rules: seq<int>, t: Tools)
    requires Snapshots.ValidWeather(w) && |rules| == FAMILIES && ValidTools(t)
    ensures var exit, both := ExitOf(Capture(Snapshots.Written(live, w).files, rules), t),
                              Snapshots.Wrote(w, 0) && Snapshots.Wrote(w, 1);
            (exit.Missing? ==> !both) && (t.test[0] == 0 ==> (exit.Missing? <==> !both))
  {
    Snapshots.WrittenFiles(live, w, 0);
    Snapshots.WrittenFiles(live, w, 1);
  }
}
