/** The parity gate's comparison of the legacy surface with the rendered one: which findings
    it reports, and what it means that it reports none. */
module GateVerdict {
  import opened Wrappers
  import opened LegacyImport
  import opened ParityGate

  type Triple = (Family, string, int)

  /** The agent control ports and the one drop documented as stricter than the capture. */
  const ALLOWED_EXTRA_ACCEPTS: set<Triple> := {
    (V4, "tcp", 8081), (V4, "tcp", 8083), (V4, "tcp", 8085), (V6, "tcp", 8081), (V6, "tcp", 8083), (V6, "tcp", 8085)}

  const ALLOWED_EXTRA_DROPS: set<Triple> := {(V6, "tcp", 5432)}

  datatype Hook = HookInput | HookForward | HookOutput | HookRawPrerouting

  datatype Policy = PolicyAccept | PolicyDrop

  const HOOKS: seq<Hook> := [HookInput, HookForward, HookOutput, HookRawPrerouting]

  function Required(hook: Hook): Policy {
    if hook.HookInput? || hook.HookForward? then PolicyDrop else PolicyAccept
  }

  /** One side of the comparison; only the rendered side has policies. */
  datatype Side = Side(surface: Surface, policies: map<Hook, Policy>)

  datatype Category = Accepts | Drops | Meters | Guards | Internal | SpoofDrops | Policies

  datatype Finding =
    | AcceptMissing(t: Triple) | AcceptUnexpected(t: Triple)
    | DropMissing(t: Triple) | DropUnexpected(t: Triple)
    | MeterMissing(name: string) | MeterRate(name: string) | MeterUnexpected(name: string)
    | GuardsDiffer | InternalDiffer | AntiSpoofDiffer
    | PolicyWrong(hook: Hook)

  function CategoryOf(f: Finding): Category {
    match f
    case AcceptMissing(_) => Accepts
    case AcceptUnexpected(_) => Accepts
    case DropMissing(_) => Drops
    case DropUnexpected(_) => Drops
    case MeterMissing(_) => Meters
    case MeterRate(_) => Meters
    case MeterUnexpected(_) => Meters
    case GuardsDiffer => Guards
    case InternalDiffer => Internal
    case AntiSpoofDiffer => SpoofDrops
    case PolicyWrong(_) => Policies
  }

  datatype Report = Pass(category: Category) | Diff(finding: Finding)

  /** What is wrong with the rendered side. */
  predicate Wrong(f: Finding, e: Side, a: Side) {
    match f
    case AcceptMissing(t) => t in e.surface.accepts && t !in a.surface.accepts
    case AcceptUnexpected(t) => t in a.surface.accepts && t !in e.surface.accepts && t !in ALLOWED_EXTRA_ACCEPTS
    case DropMissing(t) => t in e.surface.drops && t !in a.surface.drops
    case DropUnexpected(t) => t in a.surface.drops && t !in e.surface.drops && t !in ALLOWED_EXTRA_DROPS
    case MeterMissing(name) => name in e.surface.meters && name !in a.surface.meters
    case MeterRate(name) => name in e.surface.meters && name in a.surface.meters && a.surface.meters[name] != e.surface.meters[name]
    case MeterUnexpected(name) => name in a.surface.meters && name !in e.surface.meters
    case GuardsDiffer => e.surface.guards != a.surface.guards
    case InternalDiffer => e.surface.internal != a.surface.internal
    case AntiSpoofDiffer => e.surface.antiSpoof != a.surface.antiSpoof
    case PolicyWrong(hook) => hook !in a.policies || a.policies[hook] != Required(hook)
  }

  // ---- The report of some categories ------------------------------------------------------

  /** The order the categories are compared in. */
  function Rank(c: Category): nat {
    match c
    case Accepts => 0 case Drops => 1 case Meters => 2 case Guards => 3
    case Internal => 4 case SpoofDrops => 5 case Policies => 6
  }

  function CategoryAt(r: Report): Category {
    if r.Pass? then r.category else CategoryOf(r.finding)
  }

  /** The lines speak of the categories `from` to `to` only, and report exactly their faults. */
  ghost predicate Faults(lines: seq<Report>, from: nat, to: nat, e: Side, a: Side) {
    && (forall r :: r in lines ==> from <= Rank(CategoryAt(r)) < to)
    && forall f :: from <= Rank(CategoryOf(f)) < to ==> (Diff(f) in lines <==> Wrong(f, e, a))
  }

  ghost predicate Clean(c: Category, e: Side, a: Side) {
    forall f :: CategoryOf(f) == c ==> !Wrong(f, e, a)
  }

  /** And a pass line stands exactly for a category without a fault. */
  ghost predicate Reports(lines: seq<Report>, from: nat, to: nat, e: Side, a: Side) {
    && Faults(lines, from, to, e, a)
    && forall c :: from <= Rank(c) < to ==> (Pass(c) in lines <==> Clean(c, e, a))
  }

  /** Fault lines, closed by a pass line when there are none. */
  method Close(diffs: seq<Report>, category: Category, ghost e: Side, ghost a: Side) returns (lines: seq<Report>)
    requires Faults(diffs, Rank(category), Rank(category) + 1, e, a) && Pass(category) !in diffs
    ensures Reports(lines, Rank(category), Rank(category) + 1, e, a)
  {
    lines := diffs;
    if diffs == [] {
      lines := [Pass(category)];
    } else {
      assert diffs[0] in diffs;
      assert diffs[0].Diff? && Wrong(diffs[0].finding, e, a);
    }
  }

  /** A line per element, in whatever order the set is walked. */
  method Each<T(==)>(items: set<T>, report: T -> Report) returns (lines: seq<Report>)
    ensures forall r :: r in lines <==> exists x :: x in items && r == report(x)
  {
    lines := [];
    var left := items;
    while left != {}
      invariant left <= items
      invariant forall r :: r in lines <==> exists x :: x in items - left && r == report(x)
      decreases |left|
    {
      var x :| x in left;
      assert items - (left - {x}) == (items - left) + {x};
      lines, left := lines + [report(x)], left - {x};
    }
  }

  method CompareAccepts(e: Side, a: Side) returns (lines: seq<Report>)
    ensures Reports(lines, 0, 1, e, a)
  {
    var missing := Each(e.surface.accepts - a.surface.accepts, t => Diff(AcceptMissing(t)));
    var extra := Each(a.surface.accepts - e.surface.accepts - ALLOWED_EXTRA_ACCEPTS, t => Diff(AcceptUnexpected(t)));
    forall f | CategoryOf(f) == Accepts ensures Diff(f) in missing + extra <==> Wrong(f, e, a) {
      if f.AcceptMissing? {
        assert Diff(f) in missing <==> f.t in e.surface.accepts - a.surface.accepts;
      } else {
        assert Diff(f) in extra <==> f.t in a.surface.accepts - e.surface.accepts - ALLOWED_EXTRA_ACCEPTS;
      }
    }
    lines := Close(missing + extra, Accepts, e, a);
  }

  method CompareDrops(e: Side, a: Side) returns (lines: seq<Report>)
    ensures Reports(lines, 1, 2, e, a)
  {
    var missing := Each(e.surface.drops - a.surface.drops, t => Diff(DropMissing(t)));
    var extra := Each(a.surface.drops - e.surface.drops - ALLOWED_EXTRA_DROPS, t => Diff(DropUnexpected(t)));
    forall f | CategoryOf(f) == Drops ensures Diff(f) in missing + extra <==> Wrong(f, e, a) {
      if f.DropMissing? {
        assert Diff(f) in missing <==> f.t in e.surface.drops - a.surface.drops;
      } else {
        assert Diff(f) in extra <==> f.t in a.surface.drops - e.surface.drops - ALLOWED_EXTRA_DROPS;
      }
    }
    lines := Close(missing + extra, Drops, e, a);
  }

  function MissingMeters(e: Side, a: Side): set<string> {
    e.surface.meters.Keys - a.surface.meters.Keys
  }

  function WrongRates(e: Side, a: Side): set<string> {
    set name | name in e.surface.meters && name in a.surface.meters && a.surface.meters[name] != e.surface.meters[name]
  }

  method CompareMeters(e: Side, a: Side) returns (lines: seq<Report>)
    ensures Reports(lines, 2, 3, e, a)
  {
    var missing := Each(MissingMeters(e, a), name => Diff(MeterMissing(name)));
    var rates := Each(WrongRates(e, a), name => Diff(MeterRate(name)));
    var extra := Each(MissingMeters(a, e), name => Diff(MeterUnexpected(name)));
    var diffs := missing + rates + extra;
    forall f | CategoryOf(f) == Meters ensures Diff(f) in diffs <==> Wrong(f, e, a) {
      match f
      case MeterMissing(name) => assert Diff(f) in missing <==> name in MissingMeters(e, a);
      case MeterRate(name) => assert Diff(f) in rates <==> name in WrongRates(e, a);
      case MeterUnexpected(name) => assert Diff(f) in extra <==> name in MissingMeters(a, e);
    }
    lines := Close(diffs, Meters, e, a);
  }

  /** One line for a fault that is simply there or not. */
  method CompareOne(f: Finding, ghost from: nat, ghost to: nat, e: Side, a: Side) returns (lines: seq<Report>)
    requires f.GuardsDiffer? || f.InternalDiffer? || f.AntiSpoofDiffer?
    requires from == Rank(CategoryOf(f)) && to == from + 1
    ensures Reports(lines, from, to, e, a)
  {
    lines := if Wrong(f, e, a) then [Diff(f)] else [Pass(CategoryOf(f))];
  }

  method ComparePolicies(e: Side, a: Side) returns (lines: seq<Report>)
    ensures Reports(lines, 6, 7, e, a)
  {
    var diffs := [];
    for i := 0 to |HOOKS|
      invariant forall r :: r in diffs <==>
                  exists k :: 0 <= k < i && r == Diff(PolicyWrong(HOOKS[k])) && Wrong(PolicyWrong(HOOKS[k]), e, a)
    {
      if Wrong(PolicyWrong(HOOKS[i]), e, a) { diffs := diffs + [Diff(PolicyWrong(HOOKS[i]))]; }
    }
    forall f | CategoryOf(f) == Policies ensures Diff(f) in diffs <==> Wrong(f, e, a) { HookListed(f.hook); }
    lines := Close(diffs, Policies, e, a);
  }

  lemma HookListed(hook: Hook)
    ensures hook in HOOKS
  {
    var k := match hook case HookInput => 0 case HookForward => 1 case HookOutput => 2 case HookRawPrerouting => 3;
    assert HOOKS[k] == hook;
  }

  // ---- The whole report ------------------------------------------------------------------

  const CATEGORIES := 7

  method Compare(e: Side, a: Side) returns (lines: seq<Report>)
    ensures Reports(lines, 0, CATEGORIES, e, a)
  {
    var ports := ComparePorts(e, a);
    var rest := CompareRest(e, a);
    lines := Append(ports, rest, 0, 3, CATEGORIES, e, a);
  }

  method ComparePorts(e: Side, a: Side) returns (lines: seq<Report>)
    ensures Reports(lines, 0, 3, e, a)
  {
    lines := CompareAccepts(e, a);
    var drops := CompareDrops(e, a);
    lines := Append(lines, drops, 0, 1, 2, e, a);
    var meters := CompareMeters(e, a);
    lines := Append(lines, meters, 0, 2, 3, e, a);
  }

  method CompareRest(e: Side, a: Side) returns (lines: seq<Report>)
    ensures Reports(lines, 3, CATEGORIES, e, a)
  {
    var counted := CompareCounted(e, a);
    var policies := ComparePolicies(e, a);
    lines := Append(counted, policies, 3, 6, CATEGORIES, e, a);
  }

  method CompareCounted(e: Side, a: Side) returns (lines: seq<Report>)
    ensures Reports(lines, 3, 6, e, a)
  {
    lines := CompareOne(GuardsDiffer, 3, 4, e, a);
    var internal := CompareOne(InternalDiffer, 4, 5, e, a);
    lines := Append(lines, internal, 3, 4, 5, e, a);
    var spoof := CompareOne(AntiSpoofDiffer, 5, 6, e, a);
    lines := Append(lines, spoof, 3, 5, 6, e, a);
  }

  method Append(first: seq<Report>, second: seq<Report>, ghost from: nat, ghost mid: nat, ghost to: nat,
                ghost e: Side, ghost a: Side)
    returns (all: seq<Report>)
    requires Reports(first, from, mid, e, a) && Reports(second, mid, to, e, a) && from <= mid <= to
    ensures Reports(all, from, to, e, a)
  {
    all := first + second;
  }

  // ---- What a clean report means ------------------------------------------------------------

  /** The two sides agree on one category: the rendered table opens what the capture opens,
      plus at most the documented ports, drops what it drops, plus at most the documented one,
      is the same in what is counted, and has the base policies. */
  ghost predicate Agree(c: Category, e: Side, a: Side) {
    match c
    case Accepts =>
      && e.surface.accepts <= a.surface.accepts
      && forall t :: t in a.surface.accepts - e.surface.accepts ==> t.1 == "tcp" && t.2 in {8081, 8083, 8085}
    case Drops =>
      && e.surface.drops <= a.surface.drops
      && forall t :: t in a.surface.drops - e.surface.drops ==> t == (V6, "tcp", 5432)
    case Meters => e.surface.meters == a.surface.meters
    case Guards => e.surface.guards == a.surface.guards
    case Internal => e.surface.internal == a.surface.internal
    case SpoofDrops => e.surface.antiSpoof == a.surface.antiSpoof
    case Policies =>
      && (forall hook :: hook in a.policies)
      && a.policies[HookInput] == PolicyDrop && a.policies[HookForward] == PolicyDrop
      && a.policies[HookOutput] == PolicyAccept && a.policies[HookRawPrerouting] == PolicyAccept
  }

  ghost predicate Parity(e: Side, a: Side) {
    forall c :: Agree(c, e, a)
  }

  lemma ExtraAccept(t: Triple)
    ensures t in ALLOWED_EXTRA_ACCEPTS <==> t.1 == "tcp" && t.2 in {8081, 8083, 8085}
  {
    if t.1 == "tcp" && t.2 in {8081, 8083, 8085} {
      if t.0.V4? { assert t == (V4, "tcp", t.2); } else { assert t == (V6, "tcp", t.2); }
    }
  }

  /** The gate fails when some line is a DIFF line. */
  predicate Fails(lines: seq<Report>) {
    exists r :: r in lines && r.Diff?
  }

  /** A report without a DIFF line is parity, and the other way round. */
  lemma GatePassesIff(lines: seq<Report>, e: Side, a: Side)
    requires Reports(lines, 0, CATEGORIES, e, a)
    ensures !Fails(lines) <==> Parity(e, a)
  {
    if Parity(e, a) {
      forall f ensures !Wrong(f, e, a) { AgreeingHasNoFault(e, a, f); }
      forall r | r in lines ensures !r.Diff? {}
    }
    if !Fails(lines) {
      forall f ensures !Wrong(f, e, a) { assert Rank(CategoryOf(f)) < CATEGORIES; }
      forall c ensures Agree(c, e, a) { NoFaultIsAgreement(c, e, a); }
    }
  }

  /** A category passes exactly when the two sides agree on it, whatever the others say. */
  lemma PassLineIff(lines: seq<Report>, c: Category, e: Side, a: Side)
    requires Reports(lines, 0, CATEGORIES, e, a)
    ensures Pass(c) in lines <==> Agree(c, e, a)
  {
    assert Rank(c) < CATEGORIES;
    if Agree(c, e, a) {
      forall f | CategoryOf(f) == c ensures !Wrong(f, e, a) { AgreeingHasNoFault(e, a, f); }
    }
    if Pass(c) in lines { NoFaultIsAgreement(c, e, a); }
  }

  lemma AgreeingHasNoFault(e: Side, a: Side, f: Finding)
    requires Agree(CategoryOf(f), e, a)
    ensures !Wrong(f, e, a)
  {
    match f
    case AcceptMissing(t) =>
    case AcceptUnexpected(t) =>
      if t in a.surface.accepts && t !in e.surface.accepts {
        assert t in a.surface.accepts - e.surface.accepts;
        ExtraAccept(t);
      }
    case DropMissing(t) =>
    case DropUnexpected(t) =>
      if t in a.surface.drops && t !in e.surface.drops { assert t in a.surface.drops - e.surface.drops; }
    case MeterMissing(name) =>
    case MeterRate(name) =>
    case MeterUnexpected(name) =>
    case GuardsDiffer =>
    case InternalDiffer =>
    case AntiSpoofDiffer =>
    case PolicyWrong(hook) =>
      match hook
      case HookInput =>
      case HookForward =>
      case HookOutput =>
      case HookRawPrerouting =>
  }

  lemma NoFaultIsAgreement(c: Category, e: Side, a: Side)
    requires Clean(c, e, a)
    ensures Agree(c, e, a)
  {
    match c
    case Accepts =>
      forall t: Triple
        ensures (t in e.surface.accepts ==> t in a.surface.accepts)
             && (t in a.surface.accepts - e.surface.accepts ==> t.1 == "tcp" && t.2 in {8081, 8083, 8085})
      {
        ExtraAccept(t);
        assert !Wrong(AcceptMissing(t), e, a) && !Wrong(AcceptUnexpected(t), e, a);
      }
    case Drops =>
      forall t: Triple
        ensures (t in e.surface.drops ==> t in a.surface.drops)
             && (t in a.surface.drops - e.surface.drops ==> t == (V6, "tcp", 5432))
      {
        assert !Wrong(DropMissing(t), e, a) && !Wrong(DropUnexpected(t), e, a);
      }
    case Meters =>
      forall name: string
        ensures name in e.surface.meters <==> name in a.surface.meters
        ensures name in e.surface.meters && name in a.surface.meters ==> e.surface.meters[name] == a.surface.meters[name]
      {
        assert !Wrong(MeterMissing(name), e, a) && !Wrong(MeterRate(name), e, a) && !Wrong(MeterUnexpected(name), e, a);
      }
    case Guards => assert !Wrong(GuardsDiffer, e, a);
    case Internal => assert !Wrong(InternalDiffer, e, a);
    case SpoofDrops => assert !Wrong(AntiSpoofDiffer, e, a);
    case Policies =>
      forall hook: Hook ensures hook in a.policies && a.policies[hook] == Required(hook) {
        assert !Wrong(PolicyWrong(hook), e, a);
      }
  }
}
