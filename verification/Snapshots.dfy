/** The agent's undo points: stamped snapshot directories, pruning, and the deploy step that
    takes one before it touches the host. */
module Snapshots {
  import opened Wrappers
  import opened Text

  // ---- String order -------------------------------------------------------------

  /** Code point order, the order `sorted` uses on names. */
  predicate LexLess(a: string, b: string) {
    b != [] && (a == [] || a[0] < b[0] || (a[0] == b[0] && LexLess(a[1..], b[1..])))
  }

  lemma {:induction false} LexTotal(a: string, b: string)
    ensures a == b || LexLess(a, b) || LexLess(b, a)
    ensures !(LexLess(a, b) && LexLess(b, a)) && (LexLess(a, b) ==> a != b)
  {
    if a != [] && b != [] {
      LexTotal(a[1..], b[1..]);
      if a[0] == b[0] && a[1..] == b[1..] { assert a == [a[0]] + a[1..] && b == [b[0]] + b[1..]; }
    }
  }

  lemma {:induction false} LexTransitive(a: string, b: string, c: string)
    requires LexLess(a, b) && LexLess(b, c)
    ensures LexLess(a, c)
  {
    if a != [] && a[0] == b[0] == c[0] { LexTransitive(a[1..], b[1..], c[1..]); }
  }

  /** Fields of one width compare first; what follows only breaks ties. */
  lemma {:induction false} LexFields(p: string, q: string, s: string, t: string)
    requires |p| == |q|
    ensures LexLess(p + s, q + t) <==> LexLess(p, q) || (p == q && LexLess(s, t))
  {
    if p == [] {
      assert p + s == s && q + t == t && p == q;
    } else {
      assert (p + s)[1..] == p[1..] + s && (q + t)[1..] == q[1..] + t;
      LexFields(p[1..], q[1..], s, t);
      assert p == q <==> p[0] == q[0] && p[1..] == q[1..] by {
        assert p == [p[0]] + p[1..] && q == [q[0]] + q[1..];
      }
    }
  }

  // ---- Stamps -------------------------------------------------------------------

  /** `n` in at least `width` digits, zero padded. */
  function Padded(n: nat, width: nat): (s: string)
    ensures |s| == width
  {
    if width == 0 then "" else Padded(n / 10, width - 1) + [DigitChar(n % 10)]
  }

  function Limit(width: nat): nat {
    if width == 0 then 1 else 10 * Limit(width - 1)
  }

  lemma {:induction false} PaddedOrder(m: nat, n: nat, width: nat)
    requires m < Limit(width) && n < Limit(width)
    ensures LexLess(Padded(m, width), Padded(n, width)) <==> m < n
    ensures Padded(m, width) == Padded(n, width) <==> m == n
  {
    if width > 0 {
      var p, q := Padded(m / 10, width - 1), Padded(n / 10, width - 1);
      var c, d := [DigitChar(m % 10)], [DigitChar(n % 10)];
      PaddedOrder(m / 10, n / 10, width - 1);
      LexFields(p, q, c, d);
      assert LexLess(c, d) <==> m % 10 < n % 10;
      assert p + c == q + d <==> p == q && c == d by {
        assert (p + c)[..width - 1] == p && (q + d)[..width - 1] == q;
        assert (p + c)[width - 1] == c[0] && (q + d)[width - 1] == d[0];
      }
    }
  }

  /** A UTC time as its calendar fields. */
  datatype Moment = Moment(year: nat, month: nat, day: nat, hour: nat, minute: nat, second: nat, micro: nat)

  /** The years `%Y` prints in four digits, and the fields' calendar bounds. */
  predicate ValidMoment(t: Moment) {
    && 1000 <= t.year < 10000 && 1 <= t.month <= 12 && 1 <= t.day <= 31
    && t.hour < 24 && t.minute < 60 && t.second < 60 && t.micro < 1000000
  }

  function FieldsOf(t: Moment): seq<nat> {
    [t.year, t.month, t.day, t.hour, t.minute, t.second, t.micro]
  }

  /** Earlier: smaller in the first calendar field that differs. */
  predicate Earlier(a: Moment, b: Moment) {
    FieldsBelow(FieldsOf(a), FieldsOf(b))
  }

  predicate FieldsBelow(a: seq<nat>, b: seq<nat>) {
    a != [] && b != [] && (a[0] < b[0] || (a[0] == b[0] && FieldsBelow(a[1..], b[1..])))
  }

  /** The `%Y%m%d-%H%M%S-%f` stamp. */
  function Stamp(t: Moment): string {
    Padded(t.year, 4) + (Padded(t.month, 2) + (Padded(t.day, 2) + ("-"
    + (Padded(t.hour, 2) + (Padded(t.minute, 2) + (Padded(t.second, 2) + ("-" + Padded(t.micro, 6))))))))
  }

  lemma FieldOrder(m: nat, n: nat, width: nat, s: string, t: string)
    requires m < Limit(width) && n < Limit(width)
    ensures LexLess(Padded(m, width) + s, Padded(n, width) + t) <==> m < n || (m == n && LexLess(s, t))
  {
    PaddedOrder(m, n, width);
    LexFields(Padded(m, width), Padded(n, width), s, t);
  }

  /** Stamps compare as text the way their times compare. */
  lemma StampOrder(a: Moment, b: Moment)
    requires ValidMoment(a) && ValidMoment(b)
    ensures LexLess(Stamp(a), Stamp(b)) <==> Earlier(a, b)
  {
    var a6, b6 := Padded(a.micro, 6), Padded(b.micro, 6);
    var a5, b5 := Padded(a.second, 2) + ("-" + a6), Padded(b.second, 2) + ("-" + b6);
    var a4, b4 := Padded(a.minute, 2) + a5, Padded(b.minute, 2) + b5;
    var a3, b3 := Padded(a.hour, 2) + a4, Padded(b.hour, 2) + b4;
    var a2, b2 := Padded(a.day, 2) + ("-" + a3), Padded(b.day, 2) + ("-" + b3);
    var a1, b1 := Padded(a.month, 2) + a2, Padded(b.month, 2) + b2;
    PaddedOrder(a.micro, b.micro, 6);
    LexFields("-", "-", a6, b6);
    FieldOrder(a.second, b.second, 2, "-" + a6, "-" + b6);
    FieldOrder(a.minute, b.minute, 2, a5, b5);
    FieldOrder(a.hour, b.hour, 2, a4, b4);
    LexFields("-", "-", a3, b3);
    FieldOrder(a.day, b.day, 2, "-" + a3, "-" + b3);
    FieldOrder(a.month, b.month, 2, a2, b2);
    FieldOrder(a.year, b.year, 4, a1, b1);
    LexTotal("-", "-");
    CalendarOrder(a, b);
  }

  lemma CalendarOrder(a: Moment, b: Moment)
    ensures Earlier(a, b) <==> a.year < b.year || (a.year == b.year && EarlierInYear(a, b))
  {
    var x, y := FieldsOf(a), FieldsOf(b);
    Tail(x, y, 0); Tail(x, y, 1); Tail(x, y, 2); Tail(x, y, 3);
    TimeOrder(x, y);
    assert x[0..] == x && y[0..] == y;
  }

  predicate EarlierInYear(a: Moment, b: Moment) {
    a.month < b.month || (a.month == b.month
    && (a.day < b.day || (a.day == b.day
    && (a.hour < b.hour || (a.hour == b.hour
    && (a.minute < b.minute || (a.minute == b.minute
    && (a.second < b.second || (a.second == b.second && a.micro < b.micro)))))))))
  }

  lemma TimeOrder(x: seq<nat>, y: seq<nat>)
    requires |x| == |y| == 7
    ensures FieldsBelow(x[4..], y[4..])
            <==> x[4] < y[4] || (x[4] == y[4] && (x[5] < y[5] || (x[5] == y[5] && x[6] < y[6])))
  {
    Tail(x, y, 4); Tail(x, y, 5); Tail(x, y, 6);
  }

  lemma Tail(x: seq<nat>, y: seq<nat>, i: nat)
    requires i < |x| == |y|
    ensures FieldsBelow(x[i..], y[i..]) <==> x[i] < y[i] || (x[i] == y[i] && FieldsBelow(x[i + 1..], y[i + 1..]))
  {
    assert x[i..][1..] == x[i + 1..] && y[i..][1..] == y[i + 1..];
  }

  // ---- Name-sorted directories -----------------------------------------------------

  function Elements(s: seq<string>): set<string> {
    set x | x in s
  }

  /** Strictly ascending. */
  predicate Sorted(s: seq<string>) {
    forall i, j :: 0 <= i < j < |s| ==> LexLess(s[i], s[j])
  }

  predicate Lists(s: seq<string>, names: set<string>) {
    Sorted(s) && Elements(s) == names
  }

  predicate IsGreatest(names: set<string>, m: string) {
    m in names && forall x :: x in names ==> x == m || LexLess(x, m)
  }

  function Above(names: set<string>, x: string): set<string> {
    set y | y in names && LexLess(x, y)
  }

  /** The names that fewer than `keep` others exceed. */
  function Newest(names: set<string>, keep: nat): set<string> {
    set x | x in names && |Above(names, x)| < keep
  }

  function Cut(size: nat, keep: nat): (c: nat)
    ensures c <= size
  {
    if size < keep then 0 else size - keep
  }

  lemma SortedDistinct(s: seq<string>, i: nat, j: nat)
    requires Sorted(s) && i < |s| && j < |s| && s[i] == s[j]
    ensures i == j
  {
    LexTotal(s[i], s[j]);
  }

  lemma {:induction false} SortedSize(s: seq<string>)
    requires Sorted(s)
    ensures |Elements(s)| == |s|
  {
    if s == [] {
      assert Elements(s) == {};
    } else {
      var front, m := s[..|s| - 1], s[|s| - 1];
      SortedSize(front);
      LastStandsOut(s);
    }
  }

  lemma LastStandsOut(s: seq<string>)
    requires Sorted(s) && s != []
    ensures var front, m := s[..|s| - 1], s[|s| - 1];
            m !in Elements(front) && Elements(s) == Elements(front) + {m} && IsGreatest(Elements(s), m)
  {
    var front, m := s[..|s| - 1], s[|s| - 1];
    assert s == front + [m];
    LexTotal(m, m);
    forall i | 0 <= i < |front| ensures front[i] != m && LexLess(front[i], m) { assert LexLess(s[i], m); }
  }

  lemma AboveIsTail(s: seq<string>, i: nat)
    requires Sorted(s) && i < |s|
    ensures Above(Elements(s), s[i]) == Elements(s[i + 1..]) && |Above(Elements(s), s[i])| == |s| - 1 - i
  {
    var above, tail := Above(Elements(s), s[i]), s[i + 1..];
    forall x | x in above ensures x in Elements(tail) {
      var j :| 0 <= j < |s| && s[j] == x;
      LexTotal(s[i], x);
      assert j > i;
      assert tail[j - i - 1] == x;
    }
    forall x | x in Elements(tail) ensures x in above {
      var j :| 0 <= j < |tail| && tail[j] == x;
      assert s[i + 1 + j] == x;
    }
    assert above == Elements(tail);
    SortedSize(tail);
  }

  /** Dropping the front of the sorted list leaves the newest names, and removing the
      dropped names leaves them too. */
  lemma TailIsNewest(s: seq<string>, keep: nat)
    requires Sorted(s)
    ensures Newest(Elements(s), keep) == Elements(s[Cut(|s|, keep)..])
    ensures Elements(s) - Elements(s[..Cut(|s|, keep)]) == Elements(s[Cut(|s|, keep)..])
  {
    var cut := Cut(|s|, keep);
    forall i | 0 <= i < |s| ensures s[i] in Newest(Elements(s), keep) <==> i >= cut { AboveIsTail(s, i); }
    InTailIff(s, cut);
    forall x ensures x in Newest(Elements(s), keep) <==> x in Elements(s[cut..]) {
      if x in s { var i :| 0 <= i < |s| && s[i] == x; }
      if x in s[cut..] { var j :| 0 <= j < |s[cut..]| && s[cut..][j] == x; assert s[cut + j] == x; }
    }
  }

  lemma InTailIff(s: seq<string>, cut: nat)
    requires Sorted(s) && cut <= |s|
    ensures forall i :: 0 <= i < |s| ==> (s[i] in Elements(s[cut..]) <==> i >= cut)
    ensures Elements(s) - Elements(s[..cut]) == Elements(s[cut..])
  {
    forall i | 0 <= i < |s| ensures s[i] in Elements(s[cut..]) <==> i >= cut {
      if i >= cut { assert s[cut..][i - cut] == s[i]; }
      if s[i] in s[cut..] {
        var j :| 0 <= j < |s[cut..]| && s[cut..][j] == s[i];
        SortedDistinct(s, i, cut + j);
      }
    }
    forall i | 0 <= i < |s| ensures s[i] in Elements(s[..cut]) <==> i < cut {
      if i < cut { assert s[..cut][i] == s[i]; }
      if s[i] in s[..cut] {
        var j :| 0 <= j < |s[..cut]| && s[..cut][j] == s[i];
        SortedDistinct(s, i, j);
      }
    }
    forall x ensures x in Elements(s) - Elements(s[..cut]) <==> x in Elements(s[cut..]) {
      if x in s { var i :| 0 <= i < |s| && s[i] == x; }
      if x in s[cut..] { var j :| 0 <= j < |s[cut..]| && s[cut..][j] == x; assert s[cut + j] == x; }
    }
  }

  // ---- Taking a snapshot -------------------------------------------------------------

  /** Whatever the probes can see of the host. */
  type HostState = int

  const KEEP_SNAPSHOTS := 10

  /** The eight captured commands; the netplan copy is one artifact more. */
  const COMMANDS := 8

  /** How a capture ended: its file is written, the tool failed, or the disk did. */
  datatype Probe = Captured | ToolFailed | DiskError

  /** How the removal of stale directories ended: all are gone, or after `done` of them one
      could not be removed and `rest` is left of it. */
  datatype Removal = AllRemoved | Stuck(done: nat, rest: Snapshot)

  /** Everything the environment decides about one snapshot: whether the directory can be
      made, how each capture ends, whether netplan and failures.txt can be written, and how
      the removal of old directories ends. */
  datatype Weather = Weather(made: bool, commands: seq<Probe>, netplan: bool, notes: bool, removal: Removal)

  predicate ValidWeather(w: Weather) {
    |w.commands| == COMMANDS
  }

  /** A snapshot directory: the state it saw, its artifacts, its failures.txt. */
  datatype Snapshot = Snapshot(state: HostState, files: seq<nat>, failures: seq<nat>)

  function Indices(commands: seq<Probe>, wanted: Probe): seq<nat> {
    if commands == [] then []
    else Indices(commands[..|commands| - 1], wanted)
         + if commands[|commands| - 1] == wanted then [|commands| - 1] else []
  }

  /** How many commands run before the disk fails. */
  function Completed(commands: seq<Probe>): (n: nat)
    ensures n <= |commands| && (n < |commands| ==> commands[n].DiskError?)
    ensures forall i :: 0 <= i < n ==> !commands[i].DiskError?
  {
    if commands == [] || commands[0].DiskError? then 0 else 1 + Completed(commands[1..])
  }

  function FilesOf(w: Weather): seq<nat>
    requires ValidWeather(w)
  {
    Indices(w.commands, Captured) + if w.netplan then [COMMANDS] else []
  }

  function FailuresOf(w: Weather): seq<nat>
    requires ValidWeather(w)
  {
    Indices(w.commands, ToolFailed) + if w.netplan then [] else [COMMANDS]
  }

  /** No write failed, failures.txt included where one was needed. */
  predicate DiskHolds(w: Weather)
    requires ValidWeather(w)
  {
    Completed(w.commands) == COMMANDS && (w.notes || FailuresOf(w) == [])
  }

  /** The directory left behind, finished or not. */
  function Written(state: HostState, w: Weather): Snapshot
    requires ValidWeather(w)
  {
    var n := Completed(w.commands);
    if n < COMMANDS then Snapshot(state, Indices(w.commands[..n], Captured), [])
    else Snapshot(state, FilesOf(w), if w.notes then FailuresOf(w) else [])
  }

  datatype Failure = StampTaken | NotMade | DiskFailed | NotPruned | PayloadRejected | ApplyRejected

  /** The directory's new contents and whether taking the snapshot went through. */
  function Taken(live: HostState, dirs: map<string, Snapshot>, stamp: string, w: Weather)
    : (Result<string, Failure>, map<string, Snapshot>)
    requires ValidWeather(w)
  {
    if stamp in dirs then (Err(StampTaken), dirs)
    else if !w.made then (Err(NotMade), dirs)
    else
      var grown := dirs[stamp := Written(live, w)];
      if !DiskHolds(w) then (Err(DiskFailed), grown)
      else (if Removes(|grown|, w.removal) then Ok(stamp) else Err(NotPruned), Pruned(grown, w.removal))
  }

  /** Every stale directory can be removed. */
  predicate Removes(size: nat, removal: Removal) {
    removal.AllRemoved? || size <= removal.done + KEEP_SNAPSHOTS
  }

  /** How many directories are left at most. */
  function Left(size: nat, removal: Removal): (keep: nat)
    ensures keep >= KEEP_SNAPSHOTS
  {
    if Removes(size, removal) then KEEP_SNAPSHOTS else size - removal.done
  }

  /** The directory that could not be removed: the oldest one left. */
  predicate Torn(names: set<string>, removal: Removal, name: string) {
    !Removes(|names|, removal) && |Above(names, name)| + 1 == Left(|names|, removal)
  }

  function Pruned(dirs: map<string, Snapshot>, removal: Removal): (left: map<string, Snapshot>)
    ensures left.Keys == Newest(dirs.Keys, Left(|dirs|, removal))
  {
    var kept := Newest(dirs.Keys, Left(|dirs|, removal));
    map name | name in kept :: if Torn(dirs.Keys, removal, name) then removal.rest else dirs[name]
  }

  lemma {:induction false} IndicesStep(commands: seq<Probe>, n: nat, wanted: Probe)
    requires n < |commands|
    ensures Indices(commands[..n + 1], wanted)
            == Indices(commands[..n], wanted) + if commands[n] == wanted then [n] else []
  {
    assert commands[..n + 1][..n] == commands[..n];
  }

  /** The first `n` commands' files and failures. */
  predicate Collected(commands: seq<Probe>, n: nat, files: seq<nat>, failures: seq<nat>) {
    n <= |commands| && files == Indices(commands[..n], Captured) && failures == Indices(commands[..n], ToolFailed)
  }

  lemma OneMoreProbe(commands: seq<Probe>, n: nat, files: seq<nat>, failures: seq<nat>)
    requires n <= Completed(commands) && n < |commands| && Collected(commands, n, files, failures)
    ensures commands[n].DiskError? <==> n == Completed(commands)
    ensures commands[n].Captured? ==> Collected(commands, n + 1, files + [n], failures)
    ensures commands[n].ToolFailed? ==> Collected(commands, n + 1, files, failures + [n])
  {
    IndicesStep(commands, n, Captured);
    IndicesStep(commands, n, ToolFailed);
  }

  class Agent {
    var live: HostState
    var dirs: map<string, Snapshot>

    constructor (state: HostState)
      ensures live == state && dirs == map[]
    {
      live, dirs := state, map[];
    }

    method SnapshotState(stamp: string, w: Weather) returns (r: Result<string, Failure>)
      requires ValidWeather(w)
      modifies this`dirs
      ensures r == Taken(live, old(dirs), stamp, w).0 && dirs == Taken(live, old(dirs), stamp, w).1
    {
      if stamp in dirs { return Err(StampTaken); }
      if !w.made { return Err(NotMade); }
      var files, failures, disk := CaptureCommands(stamp, w);
      if !disk { return Err(DiskFailed); }
      assert w.commands[..COMMANDS] == w.commands;
      if w.netplan {
        files := files + [COMMANDS];
      } else {
        failures := failures + [COMMANDS];
      }
      dirs := dirs[stamp := Snapshot(live, files, [])];
      assert files == FilesOf(w) && failures == FailuresOf(w);
      if failures != [] {
        if !w.notes { return Err(DiskFailed); }
        dirs := dirs[stamp := Snapshot(live, files, failures)];
      }
      assert dirs == old(dirs)[stamp := Written(live, w)];
      var removed := PruneOldSnapshots(w.removal);
      r := if removed then Ok(stamp) else Err(NotPruned);
    }

    /** Run one command and write its output into the snapshot. */
    method CaptureCommand(ghost others: map<string, Snapshot>, stamp: string, files: seq<nat>, i: nat, probe: Probe)
      returns (grown: seq<nat>)
      requires dirs == others[stamp := Snapshot(live, files, [])]
      modifies this`dirs
      ensures grown == if probe.Captured? then files + [i] else files
      ensures dirs == others[stamp := Snapshot(live, grown, [])]
    {
      grown := files;
      if probe.Captured? {
        grown := files + [i];
        dirs := dirs[stamp := Snapshot(live, grown, [])];
      }
    }

    /** Capture the commands one by one; a failing tool is noted, a failing disk stops it. */
    method CaptureCommands(stamp: string, w: Weather) returns (files: seq<nat>, failures: seq<nat>, disk: bool)
      requires ValidWeather(w)
      modifies this`dirs
      ensures disk == (Completed(w.commands) == COMMANDS)
      ensures Collected(w.commands, Completed(w.commands), files, failures)
      ensures dirs == old(dirs)[stamp := Snapshot(live, files, [])]
    {
      ghost var others := dirs;
      files, failures, disk := [], [], true;
      dirs := dirs[stamp := Snapshot(live, files, [])];
      var i := 0;
      while i < COMMANDS && disk
        invariant i <= Completed(w.commands) && (!disk ==> i == Completed(w.commands) < COMMANDS)
        invariant dirs == others[stamp := Snapshot(live, files, [])]
        invariant Collected(w.commands, i, files, failures)
        decreases COMMANDS - i, disk
      {
        OneMoreProbe(w.commands, i, files, failures);
        if w.commands[i].DiskError? {
          disk := false;
        } else {
          files := CaptureCommand(others, stamp, files, i, w.commands[i]);
          if w.commands[i].ToolFailed? { failures := failures + [i]; }
          i := i + 1;
        }
      }
    }

    /** Sort the names and remove all but the last ones. */
    method PruneOldSnapshots(removal: Removal) returns (removed: bool)
      modifies this`dirs
      ensures removed == Removes(|old(dirs)|, removal)
      ensures dirs == Pruned(old(dirs), removal)
    {
      var names := SortedNames(dirs.Keys);
      var stale := Cut(|names|, KEEP_SNAPSHOTS);
      ghost var was := dirs;
      ListedSize(was, names);
      removed := RemoveOldest(names[..stale], removal);
      if removed { PrunedAll(was, names, removal); } else { PrunedTo(was, names, removal); }
    }

    /** Remove the directories one by one, up to one that cannot be removed. */
    method RemoveOldest(stale: seq<string>, removal: Removal) returns (removed: bool)
      modifies this`dirs
      ensures removed == (removal.AllRemoved? || |stale| <= removal.done)
      ensures removed ==> dirs == old(dirs) - Elements(stale)
      ensures !removed ==> dirs == (old(dirs) - Elements(stale[..removal.done]))[stale[removal.done] := removal.rest]
    {
      for i := 0 to |stale|
        invariant removal.Stuck? ==> i <= removal.done
        invariant dirs == old(dirs) - Elements(stale[..i])
      {
        if removal.Stuck? && i == removal.done {
          dirs := dirs[stale[i] := removal.rest];
          return false;
        }
        dirs := dirs - {stale[i]};
        assert stale[..i + 1] == stale[..i] + [stale[i]];
      }
      assert stale[..|stale|] == stale;
      removed := true;
    }

    /** The newest directory, as rollback looks for it. */
    method NewestSnapshotDir() returns (name: Option<string>)
      ensures dirs == map[] ==> name.None?
      ensures dirs != map[] ==> name.Some? && IsGreatest(dirs.Keys, name.value)
    {
      var names := SortedNames(dirs.Keys);
      if names == [] {
        assert Elements(names) == {};
        return None;
      }
      assert names[0] in Elements(names);
      name := Some(names[|names| - 1]);
    }

    /** Snapshot first; the table is swapped only after it, the conversion and the
        validation all went through. */
    method Deploy(stamp: string, w: Weather, converts: bool, applied: Option<HostState>)
      returns (r: Result<string, Failure>)
      requires ValidWeather(w)
      modifies this
      ensures dirs == Taken(old(live), old(dirs), stamp, w).1
      ensures r == Verdict(Taken(old(live), old(dirs), stamp, w).0, converts, applied)
      ensures live == if r.Ok? then applied.value else old(live)
    {
      r := SnapshotState(stamp, w);
      if r.Err? { return; }
      if !converts { return Err(PayloadRejected); }
      if applied.None? { return Err(ApplyRejected); }
      live := applied.value;
    }
  }

  lemma ListedSize(dirs: map<string, Snapshot>, names: seq<string>)
    requires Lists(names, dirs.Keys)
    ensures |dirs| == |names|
  {
    SortedSize(names);
    assert |dirs| == |dirs.Keys|;
  }

  /** All stale names removed: the newest ones are left as they were. */
  lemma PrunedAll(was: map<string, Snapshot>, names: seq<string>, removal: Removal)
    requires Lists(names, was.Keys) && Removes(|names|, removal)
    ensures Pruned(was, removal) == was - Elements(names[..Cut(|names|, KEEP_SNAPSHOTS)])
  {
    ListedSize(was, names);
    TailIsNewest(names, KEEP_SNAPSHOTS);
  }

  /** Stopped at a stale name: it is the oldest of those left. */
  lemma PrunedTo(was: map<string, Snapshot>, names: seq<string>, removal: Removal)
    requires Lists(names, was.Keys) && !Removes(|names|, removal)
    ensures var stale := names[..Cut(|names|, KEEP_SNAPSHOTS)];
            removal.done < |stale|
            && Pruned(was, removal) == (was - Elements(stale[..removal.done]))[stale[removal.done] := removal.rest]
  {
    var i := removal.done;
    ListedSize(was, names);
    TailIsNewest(names, |names| - i);
    assert names[..Cut(|names|, KEEP_SNAPSHOTS)][..i] == names[..i];
    forall j | 0 <= j < |names| ensures Torn(was.Keys, removal, names[j]) <==> j == i { AboveIsTail(names, j); }
    TornIs(was.Keys, names, removal);
    assert names[i] in Elements(names[i..]) by { assert names[i..][0] == names[i]; }
  }

  lemma TornIs(keys: set<string>, names: seq<string>, removal: Removal)
    requires Lists(names, keys) && !Removes(|names|, removal)
    requires forall j :: 0 <= j < |names| ==> (Torn(keys, removal, names[j]) <==> j == removal.done)
    ensures forall name :: name in keys ==> (Torn(keys, removal, name) <==> name == names[removal.done])
  {
    forall name | name in keys ensures Torn(keys, removal, name) <==> name == names[removal.done] {
      var j :| 0 <= j < |names| && names[j] == name;
      if j != removal.done { SortedAt(names, j, removal.done); }
    }
  }

  lemma SortedAt(s: seq<string>, i: nat, j: nat)
    requires Sorted(s) && i < |s| && j < |s| && i != j
    ensures s[i] != s[j]
  {
    if s[i] == s[j] { SortedDistinct(s, i, j); }
  }

  function Verdict(snapshot: Result<string, Failure>, converts: bool, applied: Option<HostState>)
    : Result<string, Failure>
  {
    if snapshot.Err? then snapshot
    else if !converts then Err(PayloadRejected)
    else if applied.None? then Err(ApplyRejected)
    else snapshot
  }

  predicate AllBelow(names: set<string>, r: seq<string>) {
    forall x, i :: x in names && 0 <= i < |r| ==> LexLess(x, r[i])
  }

  /** `sorted` over names: select the greatest remaining one, back to front. */
  method SortedNames(names: set<string>) returns (r: seq<string>)
    ensures Lists(r, names)
  {
    r := [];
    var left := names;
    while left != {}
      invariant Sorted(r) && AllBelow(left, r) && left + Elements(r) == names
      decreases |left|
    {
      var m := PickGreatest(left);
      GreatestFirst(left, r, m);
      left, r := left - {m}, [m] + r;
    }
  }

  /** The greatest remaining name goes in front of the greater ones. */
  lemma GreatestFirst(left: set<string>, r: seq<string>, m: string)
    requires IsGreatest(left, m) && Sorted(r) && AllBelow(left, r)
    ensures Sorted([m] + r) && AllBelow(left - {m}, [m] + r)
    ensures left - {m} + Elements([m] + r) == left + Elements(r)
  {
    var s := [m] + r;
    forall j | 0 <= j < |r| ensures LexLess(m, r[j]) {}
    forall i, j | 0 <= i < j < |s| ensures LexLess(s[i], s[j]) { if i > 0 { assert s[i] == r[i - 1] && s[j] == r[j - 1]; } }
  }

  method PickGreatest(names: set<string>) returns (m: string)
    requires names != {}
    ensures IsGreatest(names, m)
  {
    m :| m in names;
    var left := names - {m};
    while left != {}
      invariant left <= names && m in names
      invariant forall x :: x in names - left ==> x == m || LexLess(x, m)
      decreases |left|
    {
      var x :| x in left;
      LexTotal(m, x);
      if LexLess(m, x) {
        forall y | y in names - left && y != m ensures LexLess(y, x) { LexTransitive(y, m, x); }
        m := x;
      }
      left := left - {x};
    }
  }

  // ---- Every artifact is accounted for -------------------------------------------------

  lemma {:induction false} InIndices(commands: seq<Probe>, wanted: Probe, a: nat)
    ensures a in Indices(commands, wanted) <==> a < |commands| && commands[a] == wanted
  {
    if commands != [] {
      var front := commands[..|commands| - 1];
      InIndices(front, wanted, a);
      if a < |front| { assert front[a] == commands[a]; }
    }
  }

  /** The command's output was written: it ran before the disk failed, and went through. */
  predicate Wrote(w: Weather, a: nat)
    requires ValidWeather(w)
  {
    a < Completed(w.commands) && w.commands[a].Captured?
  }

  lemma WrittenFiles(state: HostState, w: Weather, a: nat)
    requires ValidWeather(w) && a < COMMANDS
    ensures a in Written(state, w).files <==> Wrote(w, a)
  {
    var n := Completed(w.commands);
    InIndices(w.commands[..n], Captured, a);
    if n == COMMANDS { assert w.commands[..n] == w.commands; }
  }

  /** In a finished snapshot each of the nine artifacts was captured or is named in
      failures.txt, never both and never neither. */
  lemma NothingSilentlyMissing(state: HostState, w: Weather, a: nat)
    requires ValidWeather(w) && DiskHolds(w) && a <= COMMANDS
    ensures a in Written(state, w).files <==> a !in Written(state, w).failures
  {
    InIndices(w.commands, Captured, a);
    InIndices(w.commands, ToolFailed, a);
    assert FailuresOf(w) == Written(state, w).failures;
    if a < COMMANDS { assert !w.commands[a].DiskError?; }
  }

  // ---- One snapshot -------------------------------------------------------------------

  /** A finished snapshot is itself still there exactly when fewer directories carry a later
      stamp than are left (ten, or more when one cannot be removed); it is what rollback
      would pick exactly when none does. */
  lemma NewSurvivesIff(live: HostState, dirs: map<string, Snapshot>, stamp: string, w: Weather)
    requires ValidWeather(w) && w.made && DiskHolds(w) && stamp !in dirs
    ensures var after := Taken(live, dirs, stamp, w).1;
            && (stamp in after <==> |Above(dirs.Keys, stamp)| < Left(|dirs| + 1, w.removal))
            && (IsGreatest(after.Keys, stamp) <==> Above(dirs.Keys, stamp) == {})
  {
    var names, keep := dirs.Keys + {stamp}, Left(|dirs| + 1, w.removal);
    var grown := dirs[stamp := Written(live, w)];
    GrownSize(dirs, stamp, Written(live, w));
    assert Taken(live, dirs, stamp, w).1.Keys == Newest(names, keep);
    LexTotal(stamp, stamp);
    assert Above(names, stamp) == Above(dirs.Keys, stamp);
    GreatestIff(names, stamp, keep);
  }

  /** A name is the greatest of the newest exactly when it is the greatest of all. */
  lemma GreatestIff(names: set<string>, x: string, keep: nat)
    requires x in names && keep > 0
    ensures IsGreatest(Newest(names, keep), x) <==> Above(names, x) == {}
  {
    if Above(names, x) == {} {
      forall y | y in names ensures y == x || LexLess(y, x) {
        LexTotal(x, y);
        assert y !in Above(names, x);
      }
    } else {
      LaterSurvives(names, x, keep);
    }
  }

  lemma GrownSize(dirs: map<string, Snapshot>, stamp: string, s: Snapshot)
    requires stamp !in dirs
    ensures |dirs[stamp := s]| == |dirs| + 1 && dirs[stamp := s].Keys == dirs.Keys + {stamp}
  {
    var grown := dirs[stamp := s];
    assert grown.Keys == dirs.Keys + {stamp};
    assert |dirs.Keys + {stamp}| == |dirs.Keys| + 1;
    assert |grown| == |grown.Keys| && |dirs| == |dirs.Keys|;
  }

  /** Pruning never keeps a name and drops every greater one. */
  lemma LaterSurvives(names: set<string>, x: string, keep: nat)
    requires x in names && Above(names, x) != {}
    ensures x in Newest(names, keep) ==> !IsGreatest(Newest(names, keep), x)
  {
    var y :| y in Above(names, x);
    forall z | z in Above(names, y) ensures z in Above(names, x) { LexTransitive(x, y, z); }
    SubsetSize(Above(names, y), Above(names, x));
    LexTotal(x, y);
  }

  lemma SubsetSize(a: set<string>, b: set<string>)
    requires a <= b
    ensures |a| <= |b|
  {
    assert b == a + (b - a);
  }

  // ---- Whole runs -----------------------------------------------------------------------

  datatype Host = Host(live: HostState, dirs: map<string, Snapshot>)

  /** One deploy request and everything the environment does during it. */
  datatype Deployment = Deployment(time: Moment, w: Weather, converts: bool, applied: Option<HostState>)

  predicate ValidDeployment(d: Deployment) {
    ValidMoment(d.time) && ValidWeather(d.w)
  }

  predicate AllValid(ds: seq<Deployment>) {
    forall i :: 0 <= i < |ds| ==> ValidDeployment(ds[i])
  }

  function Deployed(h: Host, d: Deployment): Host
    requires ValidDeployment(d)
  {
    var taken := Taken(h.live, h.dirs, Stamp(d.time), d.w);
    Host(if Verdict(taken.0, d.converts, d.applied).Ok? then d.applied.value else h.live, taken.1)
  }

  /** The host after deploying from a fresh state directory. */
  function Run(initial: HostState, ds: seq<Deployment>): Host
    requires AllValid(ds)
  {
    if ds == [] then Host(initial, map[])
    else Deployed(Run(initial, ds[..|ds| - 1]), ds[|ds| - 1])
  }

  /** Nothing failed: the stamp is new, the directory made, every write through, every stale
      directory gone, the payload converted and the table applied. */
  predicate Succeeds(h: Host, d: Deployment)
    requires ValidDeployment(d)
  {
    && Stamp(d.time) !in h.dirs && d.w.made
    && (forall a :: 0 <= a < COMMANDS ==> !d.w.commands[a].DiskError?)
    && (d.w.notes || (d.w.netplan && forall a :: 0 <= a < COMMANDS ==> d.w.commands[a].Captured?))
    && (d.w.removal.AllRemoved? || |h.dirs| + 1 <= d.w.removal.done + 10)
    && d.converts && d.applied.Some?
  }

  lemma {:induction false} IndicesEmpty(commands: seq<Probe>, wanted: Probe)
    ensures Indices(commands, wanted) == [] <==> forall a :: 0 <= a < |commands| ==> commands[a] != wanted
  {
    if commands != [] {
      var front := commands[..|commands| - 1];
      IndicesEmpty(front, wanted);
      assert forall a :: 0 <= a < |front| ==> front[a] == commands[a];
    }
  }

  /** A deploy puts the new state in force exactly when nothing failed, and otherwise leaves
      the one in force alone. */
  lemma DeployedLive(h: Host, d: Deployment)
    requires ValidDeployment(d)
    ensures Deployed(h, d).live == if Succeeds(h, d) then d.applied.value else h.live
  {
    IndicesEmpty(d.w.commands, ToolFailed);
  }

  /** So the state in force after a run is that of the last deploy that did not fail. */
  lemma {:induction false} RunLive(initial: HostState, ds: seq<Deployment>, i: nat)
    requires AllValid(ds) && i <= |ds|
    requires forall j :: i <= j < |ds| ==> !Succeeds(Run(initial, ds[..j]), ds[j])
    ensures i == 0 ==> Run(initial, ds).live == initial
    ensures i > 0 && Succeeds(Run(initial, ds[..i - 1]), ds[i - 1]) ==>
              Run(initial, ds).live == ds[i - 1].applied.value
    decreases |ds|
  {
    if ds != [] {
      var n := |ds| - 1;
      var front := ds[..n];
      RunUnfolds(initial, ds);
      DeployedLive(Run(initial, front), ds[n]);
      if i <= n {
        forall j | i <= j < n ensures !Succeeds(Run(initial, front[..j]), front[j]) {
          assert front[..j] == ds[..j];
          assert !Succeeds(Run(initial, ds[..j]), ds[j]);
        }
        assert !Succeeds(Run(initial, ds[..n]), ds[n]);
        if i > 0 { assert front[..i - 1] == ds[..i - 1]; }
        RunLive(initial, front, i);
      }
    }
  }

  predicate Increasing(ds: seq<Deployment>) {
    && AllValid(ds)
    && forall i, j :: 0 <= i < j < |ds| ==> Earlier(ds[i].time, ds[j].time)
  }

  /** The stamps of the deploys whose directory could be made. */
  function Stamps(ds: seq<Deployment>): seq<string>
    requires AllValid(ds)
  {
    if ds == [] then []
    else
      var d := ds[|ds| - 1];
      assert ValidDeployment(d);
      Stamps(ds[..|ds| - 1]) + if d.w.made then [Stamp(d.time)] else []
  }

  lemma {:induction false} StampFromRun(ds: seq<Deployment>, j: nat) returns (i: nat)
    requires AllValid(ds) && j < |Stamps(ds)|
    ensures i < |ds| && Stamps(ds)[j] == Stamp(ds[i].time)
  {
    var front := ds[..|ds| - 1];
    if j < |Stamps(front)| { i := StampFromRun(front, j); } else { i := |front|; }
  }

  lemma {:induction false} StampsSorted(ds: seq<Deployment>)
    requires Increasing(ds)
    ensures Sorted(Stamps(ds))
    ensures ds != [] ==> Sorted(Stamps(ds[..|ds| - 1]) + [Stamp(ds[|ds| - 1].time)])
  {
    if ds != [] {
      var front, d := ds[..|ds| - 1], ds[|ds| - 1];
      StampsSorted(front);
      forall j | 0 <= j < |Stamps(front)| ensures LexLess(Stamps(front)[j], Stamp(d.time)) {
        var i := StampFromRun(front, j);
        StampOrder(ds[i].time, d.time);
      }
    }
  }

  /** How many of the oldest directories are gone. */
  function Dropped(ds: seq<Deployment>): (k: nat)
    requires AllValid(ds)
    ensures k <= Cut(|Stamps(ds)|, KEEP_SNAPSHOTS)
  {
    if ds == [] then 0
    else
      var d, before := ds[|ds| - 1], Dropped(ds[..|ds| - 1]);
      assert ValidDeployment(d);
      if d.w.made then before + MoreDropped(|Stamps(ds)| - before, d.w) else before
  }

  lemma SortedSlice(s: seq<string>, k: nat)
    requires Sorted(s) && k <= |s|
    ensures Sorted(s[k..])
  {
  }

  lemma NotAmong(stamps: seq<string>, k: nat, stamp: string)
    requires Sorted(stamps + [stamp]) && k <= |stamps|
    ensures stamp !in stamps[k..]
  {
    if stamp in stamps[k..] {
      var i :| 0 <= i < |stamps[k..]| && stamps[k..][i] == stamp;
      SortedDistinct(stamps + [stamp], k + i, |stamps|);
    }
  }

  /** The directories a snapshot leaves, when the old ones held the last stamps. */
  lemma TakenKeepsTail(live: HostState, dirs: map<string, Snapshot>, stamps: seq<string>, k: nat, stamp: string, w: Weather)
    requires ValidWeather(w) && w.made && Sorted(stamps + [stamp])
    requires k <= |stamps| && dirs.Keys == Elements(stamps[k..]) && stamp !in dirs
    ensures var all := stamps + [stamp];
            Taken(live, dirs, stamp, w).1.Keys == Elements(all[k + MoreDropped(|all| - k, w)..])
  {
    var all := stamps + [stamp];
    var grown := dirs[stamp := Written(live, w)];
    GrownTail(dirs, stamps, k, stamp, Written(live, w));
    if DiskHolds(w) { PrunedTail(grown, all, k, w.removal); }
  }

  /** How many directories a snapshot removes when it made `size` of them. */
  function MoreDropped(size: nat, w: Weather): (k: nat)
    requires ValidWeather(w)
    ensures k <= Cut(size, KEEP_SNAPSHOTS)
  {
    if DiskHolds(w) then Cut(size, Left(size, w.removal)) else 0
  }

  lemma GrownTail(dirs: map<string, Snapshot>, stamps: seq<string>, k: nat, stamp: string, s: Snapshot)
    requires Sorted(stamps + [stamp]) && k <= |stamps| && dirs.Keys == Elements(stamps[k..]) && stamp !in dirs
    ensures var all, grown := stamps + [stamp], dirs[stamp := s];
            Sorted(all[k..]) && grown.Keys == Elements(all[k..]) && |grown| == |all| - k
  {
    var all := stamps + [stamp];
    assert all[k..] == stamps[k..] + [stamp];
    SortedSlice(all, k);
    ListedSize(dirs[stamp := s], all[k..]);
  }

  lemma PrunedTail(grown: map<string, Snapshot>, all: seq<string>, k: nat, removal: Removal)
    requires k <= |all| && Sorted(all[k..]) && grown.Keys == Elements(all[k..]) && |grown| == |all| - k
    ensures Pruned(grown, removal).Keys == Elements(all[k + Cut(|all| - k, Left(|all| - k, removal))..])
  {
    var keep := Left(|all| - k, removal);
    TailIsNewest(all[k..], keep);
    SliceTwice(all, k, Cut(|all| - k, keep));
  }

  lemma SliceTwice(s: seq<string>, k: nat, m: nat)
    requires k + m <= |s|
    ensures s[k..][m..] == s[k + m..]
  {
  }

  /** The directories after a run are the last stamps of the run. */
  ghost predicate HoldsTail(h: Host, ds: seq<Deployment>)
    requires AllValid(ds)
  {
    h.dirs.Keys == Elements(Stamps(ds)[Dropped(ds)..])
  }

  lemma DeployTakes(h: Host, d: Deployment)
    requires ValidDeployment(d)
    ensures Deployed(h, d).dirs == Taken(h.live, h.dirs, Stamp(d.time), d.w).1
    ensures !d.w.made ==> Deployed(h, d).dirs == h.dirs
  {
  }

  lemma OneMoreDeploy(h: Host, ds: seq<Deployment>)
    requires Increasing(ds) && ds != [] && HoldsTail(h, ds[..|ds| - 1])
    ensures HoldsTail(Deployed(h, ds[|ds| - 1]), ds) && Stamp(ds[|ds| - 1].time) !in h.dirs
  {
    var front, d := ds[..|ds| - 1], ds[|ds| - 1];
    StampsSorted(ds);
    NotAmong(Stamps(front), Dropped(front), Stamp(d.time));
    DeployTakes(h, d);
    RunMore(ds);
    if d.w.made { TakenKeepsTail(h.live, h.dirs, Stamps(front), Dropped(front), Stamp(d.time), d.w); }
  }

  lemma RunMore(ds: seq<Deployment>)
    requires AllValid(ds) && ds != []
    ensures var front, d := ds[..|ds| - 1], ds[|ds| - 1];
            && Stamps(ds) == (if d.w.made then Stamps(front) + [Stamp(d.time)] else Stamps(front))
            && ValidDeployment(d)
            && Dropped(ds) == if d.w.made then Dropped(front) + MoreDropped(|Stamps(front)| + 1 - Dropped(front), d.w)
                              else Dropped(front)
  {
    assert Stamps(ds[..|ds| - 1]) + [] == Stamps(ds[..|ds| - 1]);
  }

  lemma RunUnfolds(initial: HostState, ds: seq<Deployment>)
    requires ds != [] && AllValid(ds)
    ensures Run(initial, ds) == Deployed(Run(initial, ds[..|ds| - 1]), ds[|ds| - 1])
  {
  }

  /** After any run of deploys at increasing times the directory holds the newest of the
      snapshots that could be made, and never fewer than ten of them. */
  lemma {:induction false} RunHoldsTail(initial: HostState, ds: seq<Deployment>)
    requires Increasing(ds)
    ensures HoldsTail(Run(initial, ds), ds)
    ensures ds != [] ==> Stamp(ds[|ds| - 1].time) !in Run(initial, ds[..|ds| - 1]).dirs
  {
    if ds == [] {
      assert Stamps(ds)[0..] == [];
    } else {
      RunHoldsTail(initial, ds[..|ds| - 1]);
      OneMoreDeploy(Run(initial, ds[..|ds| - 1]), ds);
      RunUnfolds(initial, ds);
    }
  }

  /** Whatever fails on the way, none of the ten newest snapshots is ever lost. */
  lemma NewestTenStay(initial: HostState, ds: seq<Deployment>)
    requires Increasing(ds)
    ensures Elements(Stamps(ds)[Cut(|Stamps(ds)|, KEEP_SNAPSHOTS)..]) <= Run(initial, ds).dirs.Keys
    ensures Run(initial, ds).dirs.Keys <= Elements(Stamps(ds))
  {
    RunHoldsTail(initial, ds);
    var all := Stamps(ds);
    SuffixElements(all, Dropped(ds), Cut(|all|, KEEP_SNAPSHOTS));
    SuffixElements(all, 0, Dropped(ds));
    assert all[0..] == all;
  }

  lemma SuffixElements(s: seq<string>, i: nat, j: nat)
    requires i <= j <= |s|
    ensures Elements(s[j..]) <= Elements(s[i..])
  {
    forall x | x in s[j..] ensures x in s[i..] {
      var k :| 0 <= k < |s[j..]| && s[j..][k] == x;
      assert s[i..][j - i + k] == x;
    }
  }

  /** The last deploy's snapshot went through, the removal of old ones included. */
  predicate LastTaken(initial: HostState, ds: seq<Deployment>)
    requires AllValid(ds)
  {
    ds != []
    && Taken(Run(initial, ds[..|ds| - 1]).live, Run(initial, ds[..|ds| - 1]).dirs,
             Stamp(ds[|ds| - 1].time), ds[|ds| - 1].w).0.Ok?
  }

  /** After any run of deploys at increasing times whose last snapshot went through, the
      directory holds exactly the newest ten, or all of them when there are fewer. */
  lemma RunKeepsNewestTen(initial: HostState, ds: seq<Deployment>)
    requires Increasing(ds) && LastTaken(initial, ds)
    ensures Run(initial, ds).dirs.Keys == Elements(Stamps(ds)[Cut(|Stamps(ds)|, KEEP_SNAPSHOTS)..])
    ensures |Run(initial, ds).dirs| == if |Stamps(ds)| < KEEP_SNAPSHOTS then |Stamps(ds)| else KEEP_SNAPSHOTS
  {
    var cut := Cut(|Stamps(ds)|, KEEP_SNAPSHOTS);
    RunHoldsTail(initial, ds);
    LastTakenDrops(initial, ds);
    StampsSorted(ds);
    SortedSlice(Stamps(ds), cut);
    SortedSize(Stamps(ds)[cut..]);
    assert |Run(initial, ds).dirs| == |Run(initial, ds).dirs.Keys|;
  }

  lemma LastTakenDrops(initial: HostState, ds: seq<Deployment>)
    requires Increasing(ds) && LastTaken(initial, ds)
    ensures Dropped(ds) == Cut(|Stamps(ds)|, KEEP_SNAPSHOTS)
  {
    var front, d := ds[..|ds| - 1], ds[|ds| - 1];
    var h := Run(initial, front);
    RunHoldsTail(initial, front);
    StampsSorted(front);
    SortedSlice(Stamps(front), Dropped(front));
    ListedSize(h.dirs, Stamps(front)[Dropped(front)..]);
    RunMore(ds);
    TakenRemoves(h.live, h.dirs, Stamp(d.time), d.w);
  }

  /** A snapshot that goes through removes all that are stale. */
  lemma TakenRemoves(live: HostState, dirs: map<string, Snapshot>, stamp: string, w: Weather)
    requires ValidWeather(w) && Taken(live, dirs, stamp, w).0.Ok?
    ensures w.made && MoreDropped(|dirs| + 1, w) == Cut(|dirs| + 1, KEEP_SNAPSHOTS)
  {
    GrownSize(dirs, stamp, Written(live, w));
  }

  /** Nothing is ever torn but what ten others exceed. */
  lemma NewestIntact(dirs: map<string, Snapshot>, removal: Removal, name: string)
    requires name in dirs && Above(dirs.Keys, name) == {}
    ensures name in Pruned(dirs, removal) && Pruned(dirs, removal)[name] == dirs[name]
  {
  }

  lemma TakenKeepsNew(live: HostState, dirs: map<string, Snapshot>, stamp: string, w: Weather)
    requires ValidWeather(w) && w.made && stamp !in dirs && forall x :: x in dirs ==> LexLess(x, stamp)
    ensures var after := Taken(live, dirs, stamp, w).1; stamp in after && after[stamp] == Written(live, w)
  {
    var grown := dirs[stamp := Written(live, w)];
    forall x | x in grown ensures x !in Above(grown.Keys, stamp) { LexTotal(x, stamp); }
    assert Above(grown.Keys, stamp) == {};
    NewestIntact(grown, w.removal, stamp);
  }

  /** Deploy `i` is the last one whose directory could be made. */
  predicate LastMade(ds: seq<Deployment>, i: nat)
    requires i < |ds|
  {
    ds[i].w.made && forall j :: i < j < |ds| ==> !ds[j].w.made
  }

  lemma {:induction false} LastStamp(ds: seq<Deployment>, i: nat)
    requires AllValid(ds) && i < |ds| && LastMade(ds, i)
    ensures Stamps(ds) != [] && Stamps(ds)[|Stamps(ds)| - 1] == Stamp(ds[i].time)
  {
    if i < |ds| - 1 { LastStamp(ds[..|ds| - 1], i); }
  }

  lemma {:induction false} LastStays(initial: HostState, ds: seq<Deployment>, i: nat)
    requires Increasing(ds) && i < |ds| && LastMade(ds, i)
    ensures var h := Run(initial, ds);
            && Stamp(ds[i].time) in h.dirs
            && h.dirs[Stamp(ds[i].time)] == Written(Run(initial, ds[..i]).live, ds[i].w)
  {
    var front, d := ds[..|ds| - 1], ds[|ds| - 1];
    RunUnfolds(initial, ds);
    DeployTakes(Run(initial, front), d);
    if i < |ds| - 1 {
      LastStays(initial, front, i);
      assert front[..i] == ds[..i];
    } else {
      LatestStays(initial, ds);
    }
  }

  lemma LatestStays(initial: HostState, ds: seq<Deployment>)
    requires Increasing(ds) && ds != [] && ds[|ds| - 1].w.made
    ensures var d, before := ds[|ds| - 1], Run(initial, ds[..|ds| - 1]);
            var after := Taken(before.live, before.dirs, Stamp(d.time), d.w).1;
            Stamp(d.time) in after && after[Stamp(d.time)] == Written(before.live, d.w)
  {
    var d, before := ds[|ds| - 1], Run(initial, ds[..|ds| - 1]);
    EarlierRuns(initial, ds);
    TakenKeepsNew(before.live, before.dirs, Stamp(d.time), d.w);
  }

  lemma EarlierRuns(initial: HostState, ds: seq<Deployment>)
    requires Increasing(ds) && ds != []
    ensures var dirs, stamp := Run(initial, ds[..|ds| - 1]).dirs, Stamp(ds[|ds| - 1].time);
            stamp !in dirs && forall x :: x in dirs ==> LexLess(x, stamp)
  {
    var front, stamp := ds[..|ds| - 1], Stamp(ds[|ds| - 1].time);
    RunHoldsTail(initial, ds);
    RunHoldsTail(initial, front);
    StampsSorted(ds);
    forall x | x in Run(initial, front).dirs ensures LexLess(x, stamp) {
      InSuffix(Stamps(front), Dropped(front), x);
      EarlierThanLast(Stamps(front), stamp, x);
    }
  }

  lemma InSuffix(s: seq<string>, k: nat, x: string)
    requires k <= |s| && x in Elements(s[k..])
    ensures x in s
  {
  }

  lemma EarlierThanLast(s: seq<string>, last: string, x: string)
    requires Sorted(s + [last]) && x in s
    ensures LexLess(x, last)
  {
    var i :| 0 <= i < |s| && s[i] == x;
    assert (s + [last])[i] == x && (s + [last])[|s|] == last;
  }

  /** Rollback picks the snapshot of the last deploy whose directory could be made, whatever
      failed after that, and it shows the host as it was before that deploy. */
  lemma RollbackPicksLatest(initial: HostState, ds: seq<Deployment>, i: nat)
    requires Increasing(ds) && i < |ds| && LastMade(ds, i)
    ensures var h := Run(initial, ds);
            && IsGreatest(h.dirs.Keys, Stamp(ds[i].time))
            && h.dirs[Stamp(ds[i].time)] == Written(Run(initial, ds[..i]).live, ds[i].w)
  {
    RunHoldsTail(initial, ds);
    StampsSorted(ds);
    LastStamp(ds, i);
    LastStays(initial, ds, i);
    TailGreatest(Stamps(ds), Dropped(ds));
  }

  lemma TailGreatest(s: seq<string>, k: nat)
    requires Sorted(s) && k < |s|
    ensures IsGreatest(Elements(s[k..]), s[|s| - 1])
  {
    SortedSlice(s, k);
    LastStandsOut(s[k..]);
  }

  /** So it picks the latest deploy's own snapshot exactly when that directory could be made. */
  lemma PicksLatestIff(initial: HostState, ds: seq<Deployment>)
    requires Increasing(ds) && ds != []
    ensures IsGreatest(Run(initial, ds).dirs.Keys, Stamp(ds[|ds| - 1].time)) <==> ds[|ds| - 1].w.made
  {
    var front, d := ds[..|ds| - 1], ds[|ds| - 1];
    if d.w.made {
      RollbackPicksLatest(initial, ds, |ds| - 1);
    } else {
      RunUnfolds(initial, ds);
      RunHoldsTail(initial, ds);
    }
  }

  // ---- The clock set back ------------------------------------------------------------------

  /** Ten deploys, a second apart. */
  function TenDeploys(w: Weather): (ds: seq<Deployment>)
    ensures |ds| == 10
  {
    seq(10, i requires 0 <= i < 10 => Deployment(Moment(2026, 1, 1, 0, 0, i, 0), w, true, Some(i)))
  }

  const LAST_YEAR := Moment(2025, 1, 1, 0, 0, 0, 0)

  predicate NothingFails(w: Weather) {
    ValidWeather(w) && w.made && DiskHolds(w) && w.removal.AllRemoved?
  }

  lemma TenIncrease(w: Weather)
    requires NothingFails(w)
    ensures Increasing(TenDeploys(w))
  {
    var ds := TenDeploys(w);
    forall i, j | 0 <= i < j < 10 ensures Earlier(ds[i].time, ds[j].time) { CalendarOrder(ds[i].time, ds[j].time); }
  }

  lemma {:induction false} AllMadeStamps(ds: seq<Deployment>)
    requires AllValid(ds) && forall i :: 0 <= i < |ds| ==> ds[i].w.made
    ensures |Stamps(ds)| == |ds|
  {
    if ds != [] { AllMadeStamps(ds[..|ds| - 1]); }
  }

  lemma LaterStamps(ds: seq<Deployment>, t: Moment)
    requires AllValid(ds) && ValidMoment(t) && forall i :: 0 <= i < |ds| ==> t.year < ds[i].time.year
    ensures forall x :: x in Stamps(ds) ==> LexLess(Stamp(t), x)
  {
    forall x | x in Stamps(ds) ensures LexLess(Stamp(t), x) {
      var j :| 0 <= j < |Stamps(ds)| && Stamps(ds)[j] == x;
      var i := StampFromRun(ds, j);
      CalendarOrder(t, ds[i].time);
      StampOrder(t, ds[i].time);
    }
  }

  lemma AllLater(initial: HostState, w: Weather)
    requires NothingFails(w)
    ensures var keys := Run(initial, TenDeploys(w)).dirs.Keys;
            |keys| == 10 && Above(keys, Stamp(LAST_YEAR)) == keys
  {
    var ds := TenDeploys(w);
    TenIncrease(w);
    RunHoldsTail(initial, ds);
    AllMadeStamps(ds);
    StampsSorted(ds);
    SortedSize(Stamps(ds));
    assert Dropped(ds) == 0 && Stamps(ds)[0..] == Stamps(ds);
    LaterStamps(ds, LAST_YEAR);
  }

  /** After ten deploys in 2026, a deploy with the clock back in 2025 takes a snapshot, calls
      it done, and prunes it at once; rollback would pick another. */
  lemma ClockSetBack(initial: HostState, w: Weather)
    requires NothingFails(w) && AllValid(TenDeploys(w))
    ensures var h := Run(initial, TenDeploys(w));
            var taken := Taken(h.live, h.dirs, Stamp(LAST_YEAR), w);
            taken.0 == Ok(Stamp(LAST_YEAR)) && Stamp(LAST_YEAR) !in taken.1
  {
    var h := Run(initial, TenDeploys(w));
    AllLater(initial, w);
    assert |h.dirs| == |h.dirs.Keys|;
    LexTotal(Stamp(LAST_YEAR), Stamp(LAST_YEAR));
    NewSurvivesIff(h.live, h.dirs, Stamp(LAST_YEAR), w);
  }
}
