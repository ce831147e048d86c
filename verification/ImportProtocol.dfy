/** Applying an import plan to the console and rolling it back, with a manifest of what
    was created, while other people edit the same store. */
module ImportProtocol {
  import opened Wrappers

  datatype Row = Row(instance: int, name: string, content: string)

  datatype PlanRow = PlanRow(name: string, content: string)

  datatype Entry = Entry(name: string, id: nat)

  /** The console's rows by id, the next id it will give out, and the saved manifest. */
  datatype State = State(rows: map<nat, Row>, nextId: nat, manifest: seq<Entry>)

  /** One completed action.  A failed apply stops at row `k` of the plan, which the console
      may or may not have stored before answering with an error; its manifest is not saved.
      A failed rollback stops after `n` entries. */
  datatype Event =
    | Create(row: Row)
    | Update(id: nat, row: Row)
    | Delete(id: nat)
    | Apply(instance: int, plan: seq<PlanRow>)
    | FailedApply(instance: int, plan: seq<PlanRow>, k: nat, stored: bool)
    | Rollback
    | FailedRollback(n: nat)

  // ---- What each action does ------------------------------------------------

  predicate NameTaken(rows: map<nat, Row>, instance: int, name: string) {
    exists id :: id in rows && rows[id].instance == instance && rows[id].name == name
  }

  /** Plan row `i` is the first of its name and no console row has that name. */
  predicate IsNew(rows: map<nat, Row>, instance: int, plan: seq<PlanRow>, i: nat)
    requires i < |plan|
  {
    !NameTaken(rows, instance, plan[i].name) && forall j :: 0 <= j < i ==> plan[j].name != plan[i].name
  }

  function Post(st: State, instance: int, row: PlanRow): State {
    State(st.rows[st.nextId := Row(instance, row.name, row.content)], st.nextId + 1,
          st.manifest + [Entry(row.name, st.nextId)])
  }

  /** The state after the apply loop's first `n` rows, manifest entries included. */
  function ApplyUpTo(st: State, instance: int, plan: seq<PlanRow>, n: nat): State
    requires n <= |plan|
  {
    if n == 0 then st
    else
      var before := ApplyUpTo(st, instance, plan, n - 1);
      if IsNew(st.rows, instance, plan, n - 1) then Post(before, instance, plan[n - 1]) else before
  }

  function Ids(manifest: seq<Entry>): set<nat> {
    set e | e in manifest :: e.id
  }

  function RollbackUpTo(st: State, n: nat): State {
    st.(rows := st.rows - Ids(if n <= |st.manifest| then st.manifest[..n] else st.manifest))
  }

  function Step(st: State, event: Event): State {
    match event
    case Create(row) => st.(rows := st.rows[st.nextId := row], nextId := st.nextId + 1)
    case Update(id, row) => if id in st.rows then st.(rows := st.rows[id := row]) else st
    case Delete(id) => st.(rows := st.rows - {id})
    case Apply(instance, plan) => ApplyUpTo(st, instance, plan, |plan|)
    case FailedApply(instance, plan, k, stored) =>
      var n := if k >= |plan| then |plan| else if stored then k + 1 else k;
      ApplyUpTo(st, instance, plan, n).(manifest := st.manifest)
    case Rollback => RollbackUpTo(st, |st.manifest|)
    case FailedRollback(n) => RollbackUpTo(st, n)
  }

  // ---- The importer ---------------------------------------------------------

  class Console {
    var rows: map<nat, Row>
    var nextId: nat

    constructor (rows: map<nat, Row>, nextId: nat)
      ensures this.rows == rows && this.nextId == nextId
    {
      this.rows, this.nextId := rows, nextId;
    }

    method PostRow(instance: int, row: PlanRow) returns (id: nat)
      modifies this
      ensures id == old(nextId) && nextId == old(nextId) + 1
      ensures rows == old(rows)[id := Row(instance, row.name, row.content)]
    {
      id := nextId;
      rows := rows[id := Row(instance, row.name, row.content)];
      nextId := nextId + 1;
    }

    method DeleteRow(id: nat) returns (found: bool)
      modifies this`rows
      ensures found == (id in old(rows)) && rows == old(rows) - {id}
    {
      found := id in rows;
      rows := rows - {id};
    }
  }

  class Importer {
    const console: Console
    var manifest: seq<Entry>

    constructor (console: Console)
      ensures this.console == console && manifest == []
    {
      this.console := console;
      manifest := [];
    }

    function StateOf(): State
      reads this, console
    {
      State(console.rows, console.nextId, manifest)
    }

    method ApplyRows(instance: int, plan: seq<PlanRow>) returns (run: nat)
      modifies this, console
      ensures StateOf() == Step(old(StateOf()), Apply(instance, plan))
      ensures |manifest| == |old(manifest)| + run && console.nextId == old(console.nextId) + run
    {
      ghost var start := StateOf();
      var names := set id | id in console.rows && console.rows[id].instance == instance :: console.rows[id].name;
      var created := manifest;
      run := 0;
      assert forall name :: name in names <==> NameTaken(start.rows, instance, name);
      for i := 0 to |plan|
        invariant State(console.rows, console.nextId, created) == ApplyUpTo(start, instance, plan, i)
        invariant forall name :: name in names <==>
                    NameTaken(start.rows, instance, name) || exists j :: 0 <= j < i && plan[j].name == name
        invariant |created| == |start.manifest| + run && console.nextId == start.nextId + run
      {
        var row := plan[i];
        if row.name in names {
          continue;
        }
        var id := console.PostRow(instance, row);
        created := created + [Entry(row.name, id)];
        names := names + {row.name};
        run := run + 1;
      }
      manifest := created;
    }

    method RollbackRows() returns (deleted: nat, missing: nat)
      modifies console`rows
      ensures StateOf() == Step(old(StateOf()), Rollback)
      ensures deleted + missing == |manifest|
    {
      deleted, missing := 0, 0;
      for i := 0 to |manifest|
        invariant console.rows == old(console.rows) - Ids(manifest[..i])
        invariant deleted + missing == i
      {
        assert manifest[..i + 1] == manifest[..i] + [manifest[i]];
        assert Ids(manifest[..i + 1]) == Ids(manifest[..i]) + {manifest[i].id};
        var found := console.DeleteRow(manifest[i].id);
        if found { deleted := deleted + 1; } else { missing := missing + 1; }
      }
      assert manifest[..|manifest|] == manifest;
    }
  }

  // ---- Runs -----------------------------------------------------------------

  /** Which ids the importer's own posts were given, and which of those no manifest
      remembers because the apply that posted them failed. */
  datatype History = History(mine: set<nat>, orphans: set<nat>)

  function IdRange(from: nat, to: nat): (ids: set<nat>)
    ensures forall i: nat :: i in ids <==> from <= i < to
  {
    if from >= to then {} else IdRange(from, to - 1) + {to - 1}
  }

  function Remember(h: History, st: State, st': State, event: Event): History {
    var posted := IdRange(st.nextId, st'.nextId);
    match event
    case Apply(_, _) => h.(mine := h.mine + posted)
    case FailedApply(_, _, _, _) => History(h.mine + posted, h.orphans + posted)
    case _ => h
  }

  datatype Trace = Trace(st: State, h: History)

  function Run(st: State, events: seq<Event>): Trace {
    if events == [] then Trace(st, History({}, {}))
    else
      var before, last := Run(st, events[..|events| - 1]), events[|events| - 1];
      var st' := Step(before.st, last);
      Trace(st', Remember(before.h, before.st, st', last))
  }

  ghost predicate Consistent(t: Trace) {
    && (forall id :: id in t.st.rows ==> id < t.st.nextId)
    && (forall id :: id in t.h.mine ==> id < t.st.nextId)
    && Ids(t.st.manifest) <= t.h.mine - t.h.orphans
    && t.h.orphans <= t.h.mine
  }

  lemma {:induction false} ApplyGrowsManifest(st: State, instance: int, plan: seq<PlanRow>, n: nat)
    requires n <= |plan|
    ensures var st' := ApplyUpTo(st, instance, plan, n);
            && st'.nextId >= st.nextId
            && Ids(st'.manifest) == Ids(st.manifest) + IdRange(st.nextId, st'.nextId)
  {
    if n > 0 {
      ApplyGrowsManifest(st, instance, plan, n - 1);
      var before := ApplyUpTo(st, instance, plan, n - 1);
      IdsMore(before.manifest, Entry(plan[n - 1].name, before.nextId));
      RangeMore(st.nextId, before.nextId);
      Unions(Ids(st.manifest), IdRange(st.nextId, before.nextId), {before.nextId});
    }
  }

  lemma IdsMore(manifest: seq<Entry>, e: Entry)
    ensures Ids(manifest + [e]) == Ids(manifest) + {e.id}
  {
  }

  lemma RangeMore(from: nat, to: nat)
    requires from <= to
    ensures IdRange(from, to + 1) == IdRange(from, to) + {to}
  {
  }

  lemma Unions<T>(a: set<T>, b: set<T>, c: set<T>)
    ensures (a + b) + c == a + (b + c)
  {
  }

  lemma {:induction false} ApplyGrows(st: State, instance: int, plan: seq<PlanRow>, n: nat)
    requires n <= |plan| && forall id :: id in st.rows ==> id < st.nextId
    ensures var st' := ApplyUpTo(st, instance, plan, n);
            && st'.nextId >= st.nextId
            && st'.rows.Keys == st.rows.Keys + IdRange(st.nextId, st'.nextId)
            && (forall id :: id in st.rows ==> st'.rows[id] == st.rows[id])
            && Ids(st'.manifest) == Ids(st.manifest) + IdRange(st.nextId, st'.nextId)
  {
    ApplyGrowsManifest(st, instance, plan, n);
    if n > 0 {
      ApplyGrows(st, instance, plan, n - 1);
      var before := ApplyUpTo(st, instance, plan, n - 1);
      if IsNew(st.rows, instance, plan, n - 1) { PostGrows(st, before, instance, plan[n - 1]); }
    }
  }

  /** One more post takes the next id and touches no old row. */
  lemma PostGrows(st: State, before: State, instance: int, row: PlanRow)
    requires before.nextId >= st.nextId && before.rows.Keys == st.rows.Keys + IdRange(st.nextId, before.nextId)
    requires forall id :: id in st.rows ==> id < st.nextId && before.rows[id] == st.rows[id]
    ensures var after := Post(before, instance, row);
            && after.nextId == before.nextId + 1
            && after.rows.Keys == st.rows.Keys + IdRange(st.nextId, after.nextId)
            && forall id :: id in st.rows ==> after.rows[id] == st.rows[id]
  {
    RangeMore(st.nextId, before.nextId);
  }

  lemma StepKeepsConsistent(st: State, h: History, event: Event)
    requires Consistent(Trace(st, h))
    ensures var st' := Step(st, event); Consistent(Trace(st', Remember(h, st, st', event)))
  {
    match event
    case Apply(instance, plan) => ApplyGrows(st, instance, plan, |plan|);
    case FailedApply(instance, plan, k, stored) =>
      ApplyGrows(st, instance, plan, if k >= |plan| then |plan| else if stored then k + 1 else k);
    case _ =>
  }

  lemma {:induction false} RunsAreConsistent(st: State, events: seq<Event>)
    requires st.manifest == [] && forall id :: id in st.rows ==> id < st.nextId
    ensures Consistent(Run(st, events))
  {
    if events != [] {
      RunsAreConsistent(st, events[..|events| - 1]);
      var before := Run(st, events[..|events| - 1]);
      StepKeepsConsistent(before.st, before.h, events[|events| - 1]);
    }
  }

  /** Over every interleaving of edits, applies and rollbacks, failed ones included, a
      rollback leaves alone every row whose id the importer did not create. */
  lemma RollbackDeletesOnlyMine(st: State, events: seq<Event>, n: nat)
    requires st.manifest == [] && forall id :: id in st.rows ==> id < st.nextId
    ensures var t := Run(st, events);
            var after := RollbackUpTo(t.st, n);
            && after.rows.Keys <= t.st.rows.Keys
            && forall id :: id in t.st.rows && id !in t.h.mine ==> id in after.rows && after.rows[id] == t.st.rows[id]
  {
    RunsAreConsistent(st, events);
    var t := Run(st, events);
    if n <= |t.st.manifest| {
      assert Ids(t.st.manifest[..n]) <= Ids(t.st.manifest);
    }
  }

  /** An id given to somebody else never becomes the importer's. */
  lemma {:induction false} TheirsStayTheirs(st: State, events: seq<Event>, more: seq<Event>, id: nat)
    requires st.manifest == [] && forall i :: i in st.rows ==> i < st.nextId
    requires id < Run(st, events).st.nextId && id !in Run(st, events).h.mine
    ensures id !in Run(st, events + more).h.mine && id < Run(st, events + more).st.nextId
  {
    if more == [] {
      assert events + more == events;
    } else {
      var init := more[..|more| - 1];
      TheirsStayTheirs(st, events, init, id);
      RunsAreConsistent(st, events + init);
      assert (events + more)[..|events + more| - 1] == events + init;
      assert (events + more)[|events + more| - 1] == more[|more| - 1];
      var before, last := Run(st, events + init), more[|more| - 1];
      match last
      case Apply(instance, plan) => ApplyGrows(before.st, instance, plan, |plan|);
      case FailedApply(instance, plan, k, stored) =>
        ApplyGrows(before.st, instance, plan, if k >= |plan| then |plan| else if stored then k + 1 else k);
      case _ =>
    }
  }

  // ---- What one apply creates -----------------------------------------------

  /** The plan rows an apply posts, in plan order. */
  function NewRows(rows: map<nat, Row>, instance: int, plan: seq<PlanRow>, n: nat): seq<PlanRow>
    requires n <= |plan|
  {
    if n == 0 then []
    else NewRows(rows, instance, plan, n - 1) + if IsNew(rows, instance, plan, n - 1) then [plan[n - 1]] else []
  }

  lemma {:induction false} ApplyCounts(st: State, instance: int, plan: seq<PlanRow>, n: nat)
    requires n <= |plan|
    ensures var st', posted := ApplyUpTo(st, instance, plan, n), NewRows(st.rows, instance, plan, n);
            && st'.nextId == st.nextId + |posted|
            && |st'.manifest| == |st.manifest| + |posted| && st.manifest <= st'.manifest
  {
    if n > 0 { ApplyCounts(st, instance, plan, n - 1); }
  }

  /** An apply creates exactly the first plan row of each name not already present: the
      `k`-th of them gets the `k`-th next id and the `k`-th new manifest entry. */
  lemma {:induction false} ApplyCreatesNewRows(st: State, instance: int, plan: seq<PlanRow>, n: nat, k: nat)
    requires n <= |plan| && k < |NewRows(st.rows, instance, plan, n)|
    ensures var st', row := ApplyUpTo(st, instance, plan, n), NewRows(st.rows, instance, plan, n)[k];
            var id := st.nextId + k;
            && st'.nextId == st.nextId + |NewRows(st.rows, instance, plan, n)|
            && |st'.manifest| == |st.manifest| + |NewRows(st.rows, instance, plan, n)|
            && id in st'.rows && st'.rows[id] == Row(instance, row.name, row.content)
            && st'.manifest[|st.manifest| + k] == Entry(row.name, id)
  {
    ApplyCounts(st, instance, plan, n);
    ApplyCounts(st, instance, plan, n - 1);
    if k < |NewRows(st.rows, instance, plan, n - 1)| { ApplyCreatesNewRows(st, instance, plan, n - 1, k); }
  }

  lemma {:induction false} ApplyTakesNames(st: State, instance: int, plan: seq<PlanRow>, n: nat, i: nat)
    requires i < n <= |plan| && forall id :: id in st.rows ==> id < st.nextId
    ensures NameTaken(ApplyUpTo(st, instance, plan, n).rows, instance, plan[i].name)
  {
    var before, after := ApplyUpTo(st, instance, plan, n - 1), ApplyUpTo(st, instance, plan, n);
    ApplyGrows(st, instance, plan, n - 1);
    ApplyStepKeeps(st, instance, plan, n);
    if i < n - 1 {
      ApplyTakesNames(st, instance, plan, n - 1, i);
      NameStaysTaken(before.rows, after.rows, instance, plan[i].name);
    } else if IsNew(st.rows, instance, plan, i) {
      assert after.rows[before.nextId].name == plan[i].name;
    } else if NameTaken(st.rows, instance, plan[i].name) {
      NameStaysTaken(st.rows, after.rows, instance, plan[i].name);
    } else {
      var j :| 0 <= j < i && plan[j].name == plan[i].name;
      ApplyTakesNames(st, instance, plan, n - 1, j);
    }
  }

  lemma ApplyStepKeeps(st: State, instance: int, plan: seq<PlanRow>, n: nat)
    requires 0 < n <= |plan| && forall id :: id in st.rows ==> id < st.nextId
    ensures var before, after := ApplyUpTo(st, instance, plan, n - 1), ApplyUpTo(st, instance, plan, n);
            forall id :: id in before.rows ==> id in after.rows && after.rows[id] == before.rows[id]
  {
    ApplyGrows(st, instance, plan, n - 1);
  }

  lemma NameStaysTaken(rows: map<nat, Row>, rows': map<nat, Row>, instance: int, name: string)
    requires NameTaken(rows, instance, name)
    requires forall id :: id in rows ==> id in rows' && rows'[id] == rows[id]
    ensures NameTaken(rows', instance, name)
  {
    var id :| id in rows && rows[id].instance == instance && rows[id].name == name;
    assert rows'[id].name == name;
  }

  lemma {:induction false} NothingNew(st: State, instance: int, plan: seq<PlanRow>, n: nat)
    requires n <= |plan|
    requires forall i :: 0 <= i < n ==> NameTaken(st.rows, instance, plan[i].name)
    ensures ApplyUpTo(st, instance, plan, n) == st
  {
    if n > 0 { NothingNew(st, instance, plan, n - 1); }
  }

  /** A repeated apply creates nothing. */
  lemma RepeatedApplyIsIdle(st: State, instance: int, plan: seq<PlanRow>)
    requires forall id :: id in st.rows ==> id < st.nextId
    ensures var once := Step(st, Apply(instance, plan)); Step(once, Apply(instance, plan)) == once
  {
    var once := ApplyUpTo(st, instance, plan, |plan|);
    forall i | 0 <= i < |plan| ensures NameTaken(once.rows, instance, plan[i].name) {
      ApplyTakesNames(st, instance, plan, |plan|, i);
    }
    NothingNew(once, instance, plan, |plan|);
  }

  // ---- Restoring the store --------------------------------------------------

  predicate IsEdit(event: Event) {
    event.Create? || event.Update? || event.Delete?
  }

  /** Nobody else writes. */
  predicate Alone(events: seq<Event>) {
    forall i :: 0 <= i < |events| ==> !IsEdit(events[i])
  }

  /** The original rows are all there, untouched, and whatever else there is was posted by
      the importer and is either in the manifest or an orphan. */
  ghost predicate OriginalPlusMine(st0: State, t: Trace) {
    && st0.nextId <= t.st.nextId
    && (forall id :: id in st0.rows ==> id in t.st.rows && t.st.rows[id] == st0.rows[id])
    && (forall id :: id in t.h.orphans ==> id in t.st.rows)
    && (forall id :: id in t.st.rows ==> id in st0.rows || id in t.h.orphans || id in Ids(t.st.manifest))
    && (forall id :: id in t.h.mine ==> st0.nextId <= id)
  }

  lemma StepKeepsOriginal(st0: State, st: State, h: History, event: Event)
    requires forall id :: id in st0.rows ==> id < st0.nextId
    requires Consistent(Trace(st, h)) && OriginalPlusMine(st0, Trace(st, h)) && !IsEdit(event)
    ensures var st' := Step(st, event); OriginalPlusMine(st0, Trace(st', Remember(h, st, st', event)))
  {
    match event
    case Apply(instance, plan) => ApplyKeepsOriginal(st0, st, h, instance, plan);
    case FailedApply(instance, plan, k, stored) => FailedApplyKeepsOriginal(st0, st, h, instance, plan, k, stored);
    case Rollback => PartOfManifest(st, |st.manifest|);
    case FailedRollback(n) => PartOfManifest(st, n);
  }

  lemma ApplyKeepsOriginal(st0: State, st: State, h: History, instance: int, plan: seq<PlanRow>)
    requires forall id :: id in st0.rows ==> id < st0.nextId
    requires Consistent(Trace(st, h)) && OriginalPlusMine(st0, Trace(st, h))
    ensures var event := Apply(instance, plan);
            var st' := Step(st, event); OriginalPlusMine(st0, Trace(st', Remember(h, st, st', event)))
  {
    ApplyGrows(st, instance, plan, |plan|);
    var event := Apply(instance, plan);
    var st' := Step(st, event);
    GrowthKeepsOriginal(st0, Trace(st, h), Trace(st', Remember(h, st, st', event)), IdRange(st.nextId, st'.nextId));
  }

  /** Posted rows that the manifest or the account of orphans remembers. */
  lemma GrowthKeepsOriginal(st0: State, t: Trace, u: Trace, posted: set<nat>)
    requires OriginalPlusMine(st0, t) && t.st.nextId <= u.st.nextId
    requires u.st.rows.Keys == t.st.rows.Keys + posted
    requires forall id :: id in t.st.rows ==> u.st.rows[id] == t.st.rows[id]
    requires t.h.orphans <= u.h.orphans <= t.h.orphans + posted && u.h.mine == t.h.mine + posted
    requires Ids(t.st.manifest) <= Ids(u.st.manifest) && posted <= u.h.orphans + Ids(u.st.manifest)
    requires forall id :: id in posted ==> t.st.nextId <= id
    ensures OriginalPlusMine(st0, u)
  {
  }

  lemma FailedApplyKeepsOriginal(st0: State, st: State, h: History, instance: int, plan: seq<PlanRow>, k: nat, stored: bool)
    requires forall id :: id in st0.rows ==> id < st0.nextId
    requires Consistent(Trace(st, h)) && OriginalPlusMine(st0, Trace(st, h))
    ensures var event := FailedApply(instance, plan, k, stored);
            var st' := Step(st, event); OriginalPlusMine(st0, Trace(st', Remember(h, st, st', event)))
  {
    ApplyGrows(st, instance, plan, if k >= |plan| then |plan| else if stored then k + 1 else k);
    var event := FailedApply(instance, plan, k, stored);
    var st' := Step(st, event);
    GrowthKeepsOriginal(st0, Trace(st, h), Trace(st', Remember(h, st, st', event)), IdRange(st.nextId, st'.nextId));
  }

  lemma PartOfManifest(st: State, n: nat)
    ensures Ids(if n <= |st.manifest| then st.manifest[..n] else st.manifest) <= Ids(st.manifest)
    ensures st.manifest[..|st.manifest|] == st.manifest
  {
  }

  lemma {:induction false} RunsKeepOriginal(st0: State, events: seq<Event>)
    requires st0.manifest == [] && forall id :: id in st0.rows ==> id < st0.nextId
    requires Alone(events)
    ensures OriginalPlusMine(st0, Run(st0, events))
  {
    if events != [] {
      var init := events[..|events| - 1];
      RunsKeepOriginal(st0, init);
      RunsAreConsistent(st0, init);
      StepKeepsOriginal(st0, Run(st0, init).st, Run(st0, init).h, events[|events| - 1]);
    }
  }

  /** With no other writer, a rollback leaves the original rows and the orphans of failed
      applies; so it restores the original store exactly when no failed apply had posted
      a row. */
  lemma RollbackRestoresIff(st0: State, events: seq<Event>)
    requires st0.manifest == [] && forall id :: id in st0.rows ==> id < st0.nextId
    requires Alone(events)
    ensures var t := Run(st0, events);
            var after := Step(t.st, Rollback);
            && after.rows.Keys == st0.rows.Keys + t.h.orphans
            && (after.rows == st0.rows <==> t.h.orphans == {})
  {
    RunsKeepOriginal(st0, events);
    RunsAreConsistent(st0, events);
    var t := Run(st0, events);
    PartOfManifest(t.st, |t.st.manifest|);
    var after := Step(t.st, Rollback);
    forall id ensures id in after.rows.Keys <==> id in st0.rows.Keys + t.h.orphans {
    }
    if t.h.orphans != {} {
      var id :| id in t.h.orphans;
      assert id in after.rows && id !in st0.rows;
    }
  }

  /** A failed apply is the only source of orphans. */
  lemma {:induction false} OrphansComeFromFailures(st0: State, events: seq<Event>)
    requires forall i :: 0 <= i < |events| ==> !events[i].FailedApply?
    ensures Run(st0, events).h.orphans == {}
  {
    if events != [] { OrphansComeFromFailures(st0, events[..|events| - 1]); }
  }

  /** The console answers a post it has stored with an error when its agent is down.  The
      row then outlives every rollback: the manifest was never saved, and a later apply
      skips the row because its name is taken. */
  lemma StoredButFailedPostOutlivesRollback()
    ensures var st0 := State(map[], 1, []);
            var plan := [PlanRow("allow tcp/22", "22")];
            var events := [FailedApply(1, plan, 0, true), Apply(1, plan)];
            Step(Run(st0, events).st, Rollback).rows == map[1 := Row(1, "allow tcp/22", "22")]
  {
    var st0 := State(map[], 1, []);
    var plan := [PlanRow("allow tcp/22", "22")];
    var failed, again := FailedApply(1, plan, 0, true), Apply(1, plan);
    var row := Row(1, "allow tcp/22", "22");
    assert [failed, again][..1] == [failed] && [failed][..0] == [];
    assert IsNew(st0.rows, 1, plan, 0);
    var st1 := Step(st0, failed);
    assert st1 == State(map[1 := row], 2, []);
    assert NameTaken(st1.rows, 1, plan[0].name) by { assert st1.rows[1] == row; }
    NothingNew(st1, 1, plan, 1);
    assert Step(st1, again) == st1;
    assert st1.rows - Ids([]) == st1.rows;
    assert Run(st0, [failed]).st == st1 by { assert Run(st0, []).st == st0; }
    assert Run(st0, [failed, again]).st == st1;
  }
}
