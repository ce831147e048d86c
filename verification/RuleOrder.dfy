/** The console's rule order.  Rows carry an `order_index`; create, delete and move work on
    those numbers, and this module shows that they implement a plain list of rules per
    instance: append, remove, and swap with a neighbour. */
module RuleOrder {
  import opened Wrappers

  datatype Row = Row(instance: int, name: string, order: int)

  type Table = map<nat, Row>

  datatype State = State(rows: Table, nextId: nat)

  datatype Direction = Up | Down | OtherDirection(text: string)

  datatype Op =
    | Create(instance: int, name: string)
    | Patch(id: nat, name: string)
    | Delete(id: nat)
    | Move(id: nat, direction: Direction)

  // ---- The handlers' queries -------------------------------------------------

  predicate InInstance(rows: Table, id: nat, instance: int) {
    id in rows && rows[id].instance == instance
  }

  /** The greatest order index of the instance, or 0. */
  ghost predicate IsMaxOrder(rows: Table, instance: int, m: int) {
    && m >= 0 && (m == 0 || exists id :: InInstance(rows, id, instance) && rows[id].order == m)
    && forall id :: InInstance(rows, id, instance) ==> rows[id].order <= m
  }

  predicate IsAbove(rows: Table, id: nat, a: nat)
    requires id in rows
  {
    InInstance(rows, a, rows[id].instance) && rows[a].order < rows[id].order
  }

  predicate IsBelow(rows: Table, id: nat, b: nat)
    requires id in rows
  {
    InInstance(rows, b, rows[id].instance) && rows[b].order > rows[id].order
  }

  /** First of the rows above in descending order. */
  ghost predicate IsNextAbove(rows: Table, id: nat, a: nat)
    requires id in rows
  {
    IsAbove(rows, id, a) && forall x :: IsAbove(rows, id, x) ==> rows[x].order <= rows[a].order
  }

  /** First of the rows below in ascending order. */
  ghost predicate IsNextBelow(rows: Table, id: nat, b: nat)
    requires id in rows
  {
    IsBelow(rows, id, b) && forall x :: IsBelow(rows, id, x) ==> rows[x].order >= rows[b].order
  }

  function Swap(rows: Table, a: nat, b: nat): Table
    requires a in rows && b in rows
  {
    rows[a := rows[a].(order := rows[b].order)][b := rows[b].(order := rows[a].order)]
  }

  /** A handler may take the state from `st` to `st'`. */
  ghost predicate Next(instances: set<int>, st: State, op: Op, st': State) {
    match op
    case Create(instance, name) =>
      if instance !in instances then st' == st
      else exists m :: IsMaxOrder(st.rows, instance, m)
             && st' == State(st.rows[st.nextId := Row(instance, name, m + 10)], st.nextId + 1)
    case Patch(id, name) =>
      st' == if id in st.rows then st.(rows := st.rows[id := st.rows[id].(name := name)]) else st
    case Delete(id) => st' == st.(rows := st.rows - {id})
    case Move(id, Up) =>
      if id !in st.rows || forall a :: !IsAbove(st.rows, id, a) then st' == st
      else exists a :: IsNextAbove(st.rows, id, a) && st' == st.(rows := Swap(st.rows, id, a))
    case Move(id, Down) =>
      if id !in st.rows || forall b :: !IsBelow(st.rows, id, b) then st' == st
      else exists b :: IsNextBelow(st.rows, id, b) && st' == st.(rows := Swap(st.rows, id, b))
    case Move(_, OtherDirection(_)) => st' == st
  }

  // ---- The handlers ----------------------------------------------------------

  lemma {:induction false} GreatestExists(rows: Table, ids: set<nat>)
    requires ids != {} && ids <= rows.Keys
    ensures exists m :: m in ids && forall x :: x in ids ==> rows[x].order <= rows[m].order
    decreases |ids|
  {
    var c :| c in ids;
    var others := ids - {c};
    assert ids == others + {c};
    if others != {} {
      GreatestExists(rows, others);
      var m :| m in others && forall x :: x in others ==> rows[x].order <= rows[m].order;
      var g := if rows[m].order <= rows[c].order then c else m;
      assert g in ids && forall x :: x in ids ==> rows[x].order <= rows[g].order;
    }
  }

  lemma {:induction false} LeastExists(rows: Table, ids: set<nat>)
    requires ids != {} && ids <= rows.Keys
    ensures exists m :: m in ids && forall x :: x in ids ==> rows[x].order >= rows[m].order
    decreases |ids|
  {
    var c :| c in ids;
    var others := ids - {c};
    assert ids == others + {c};
    if others != {} {
      LeastExists(rows, others);
      var m :| m in others && forall x :: x in others ==> rows[x].order >= rows[m].order;
      var g := if rows[m].order >= rows[c].order then c else m;
      assert g in ids && forall x :: x in ids ==> rows[x].order >= rows[g].order;
    }
  }

  class RuleStore {
    const instances: set<int>
    var rows: Table
    var nextId: nat

    constructor (instances: set<int>)
      ensures this.instances == instances && StateOf() == State(map[], 1)
    {
      this.instances := instances;
      rows, nextId := map[], 1;
    }

    function StateOf(): State
      reads this
    {
      State(rows, nextId)
    }

    method CreateFirewallRule(instance: int, name: string) returns (id: Option<nat>)
      modifies this
      ensures Next(instances, old(StateOf()), Create(instance, name), StateOf())
      ensures id == if instance in instances then Some(old(nextId)) else None
    {
      if instance !in instances { return None; }
      var mine := set x | x in rows && rows[x].instance == instance;
      var m := 0;
      if mine != {} {
        GreatestExists(rows, mine);
        var top :| top in mine && forall x :: x in mine ==> rows[x].order <= rows[top].order;
        if rows[top].order > 0 { m := rows[top].order; }
        assert InInstance(rows, top, instance);
      }
      assert forall x :: InInstance(rows, x, instance) ==> x in mine;
      assert IsMaxOrder(rows, instance, m);
      id := Some(nextId);
      rows, nextId := rows[nextId := Row(instance, name, m + 10)], nextId + 1;
    }

    method UpdateFirewallRule(id: nat, name: string) returns (found: bool)
      modifies this`rows
      ensures Next(instances, old(StateOf()), Patch(id, name), StateOf())
      ensures found == (id in old(rows))
    {
      if id !in rows { return false; }
      rows := rows[id := rows[id].(name := name)];
      return true;
    }

    method DeleteFirewallRule(id: nat) returns (found: bool)
      modifies this`rows
      ensures Next(instances, old(StateOf()), Delete(id), StateOf())
      ensures found == (id in old(rows))
    {
      found := id in rows;
      if !found {
        assert rows - {id} == rows;
        return;
      }
      rows := rows - {id};
    }

    method MoveRule(id: nat, direction: Direction) returns (found: bool)
      modifies this`rows
      ensures Next(instances, old(StateOf()), Move(id, direction), StateOf())
      ensures found == (id in old(rows))
    {
      if id !in rows { return false; }
      found := true;
      match direction
      case Up =>
        var above := set x | x in rows && IsAbove(rows, id, x);
        assert forall x :: IsAbove(rows, id, x) ==> x in above;
        if above != {} {
          GreatestExists(rows, above);
          var a :| a in above && forall x :: x in above ==> rows[x].order <= rows[a].order;
          assert IsNextAbove(rows, id, a);
          rows := Swap(rows, id, a);
        }
      case Down =>
        var below := set x | x in rows && IsBelow(rows, id, x);
        assert forall x :: IsBelow(rows, id, x) ==> x in below;
        if below != {} {
          LeastExists(rows, below);
          var b :| b in below && forall x :: x in below ==> rows[x].order >= rows[b].order;
          assert IsNextBelow(rows, id, b);
          rows := Swap(rows, id, b);
        }
      case OtherDirection(_) =>
    }
  }

  // ---- The simple form: a list of rules per instance --------------------------

  datatype Lists = Lists(of: map<int, seq<nat>>, nextId: nat)

  function ListOf(a: Lists, instance: int): seq<nat> {
    if instance in a.of then a.of[instance] else []
  }

  /** Position of `id`, or the length when it is absent. */
  function Index(l: seq<nat>, id: nat): (i: nat)
    ensures i <= |l| && (i < |l| ==> l[i] == id)
    ensures id !in l[..i] && (i == |l| <==> id !in l)
  {
    if l == [] then 0 else if l[0] == id then 0 else 1 + Index(l[1..], id)
  }

  function Remove(l: seq<nat>, id: nat): seq<nat> {
    var i := Index(l, id);
    if i < |l| then l[..i] + l[i + 1..] else l
  }

  /** Positions `i` and `i + 1` trade places. */
  function Trade(l: seq<nat>, i: nat): (m: seq<nat>)
    requires i + 1 < |l|
    ensures |m| == |l| && m[i] == l[i + 1] && m[i + 1] == l[i]
    ensures forall k :: 0 <= k < |l| && k != i && k != i + 1 ==> m[k] == l[k]
  {
    l[i := l[i + 1]][i + 1 := l[i]]
  }

  function Raise(l: seq<nat>, id: nat): seq<nat> {
    var i := Index(l, id);
    if 0 < i < |l| then Trade(l, i - 1) else l
  }

  function Lower(l: seq<nat>, id: nat): seq<nat> {
    var i := Index(l, id);
    if i + 1 < |l| then Trade(l, i) else l
  }

  function Removing(id: nat): seq<nat> -> seq<nat> { l => Remove(l, id) }

  function Raising(id: nat): seq<nat> -> seq<nat> { l => Raise(l, id) }

  function Lowering(id: nat): seq<nat> -> seq<nat> { l => Lower(l, id) }

  function OnEach(a: Lists, f: seq<nat> -> seq<nat>): Lists {
    a.(of := map instance | instance in a.of :: f(a.of[instance]))
  }

  function SimpleStep(instances: set<int>, a: Lists, op: Op): Lists {
    match op
    case Create(instance, _) =>
      if instance in instances then Lists(a.of[instance := ListOf(a, instance) + [a.nextId]], a.nextId + 1) else a
    case Patch(_, _) => a
    case Delete(id) => OnEach(a, Removing(id))
    case Move(id, Up) => OnEach(a, Raising(id))
    case Move(id, Down) => OnEach(a, Lowering(id))
    case Move(_, OtherDirection(_)) => a
  }

  function SimpleRun(instances: set<int>, ops: seq<Op>): Lists {
    if ops == [] then Lists(map[], 1)
    else SimpleStep(instances, SimpleRun(instances, ops[..|ops| - 1]), ops[|ops| - 1])
  }

  // ---- Refinement -------------------------------------------------------------

  /** `l` lists the instance's rules in strictly increasing order index. */
  ghost predicate IsListing(rows: Table, instance: int, l: seq<nat>) {
    && (forall k :: 0 <= k < |l| ==> InInstance(rows, l[k], instance))
    && (forall id :: InInstance(rows, id, instance) ==> id in l)
    && (forall i, j :: 0 <= i < j < |l| ==> rows[l[i]].order < rows[l[j]].order)
  }

  ghost predicate Represents(st: State, a: Lists) {
    && st.nextId == a.nextId
    && (forall id :: id in st.rows ==> id < st.nextId && st.rows[id].order > 0)
    && forall instance :: IsListing(st.rows, instance, ListOf(a, instance))
  }

  lemma ListingDistinct(rows: Table, instance: int, l: seq<nat>, i: nat, j: nat)
    requires IsListing(rows, instance, l) && i < |l| && j < |l| && i != j
    ensures l[i] != l[j]
  {
  }

  lemma CreateAppends(rows: Table, instance: int, m: int, name: string, id: nat, other: int, l: seq<nat>)
    requires id !in rows && IsMaxOrder(rows, instance, m) && IsListing(rows, other, l)
    ensures IsListing(rows[id := Row(instance, name, m + 10)], other, if other == instance then l + [id] else l)
  {
    var rows' := rows[id := Row(instance, name, m + 10)];
    var l' := if other == instance then l + [id] else l;
    forall x | InInstance(rows', x, other) ensures x in l' {
      if x != id {
        assert InInstance(rows, x, other);
        assert x in l;
      } else {
        assert l'[|l|] == id;
      }
    }
  }

  /** Where position `k` of the shortened list was before. */
  function Unshift(i: nat, k: nat): nat {
    if k < i then k else k + 1
  }

  lemma RemoveAt(l: seq<nat>, id: nat)
    ensures id in l ==> |Remove(l, id)| == |l| - 1
    ensures id in l ==> forall k :: 0 <= k < |l| - 1 ==> Remove(l, id)[k] == l[Unshift(Index(l, id), k)]
    ensures id !in l ==> Remove(l, id) == l
  {
    if id in l {
      var i := Index(l, id);
      var m := l[..i] + l[i + 1..];
      assert Remove(l, id) == m;
      forall k | 0 <= k < |l| - 1 ensures m[k] == l[Unshift(i, k)] {
        if k >= i { assert m[k] == l[i + 1..][k - i]; }
      }
    }
  }

  lemma DeleteRemoves(rows: Table, id: nat, instance: int, l: seq<nat>)
    requires IsListing(rows, instance, l)
    ensures IsListing(rows - {id}, instance, Remove(l, id))
  {
    RemoveAt(l, id);
    if id in l {
      DeletePresent(rows, id, instance, l);
    } else {
      forall x | InInstance(rows - {id}, x, instance) ensures x in l { assert InInstance(rows, x, instance); }
      forall k | 0 <= k < |l| ensures InInstance(rows - {id}, l[k], instance) { assert l[k] != id; }
    }
  }

  lemma DeletePresent(rows: Table, id: nat, instance: int, l: seq<nat>)
    requires IsListing(rows, instance, l) && id in l
    ensures IsListing(rows - {id}, instance, Remove(l, id))
  {
    RemoveAt(l, id);
    var l', i := Remove(l, id), Index(l, id);
    forall k | 0 <= k < |l'| ensures InInstance(rows - {id}, l'[k], instance) {
      ListingDistinct(rows, instance, l, i, Unshift(i, k));
    }
    forall x | InInstance(rows - {id}, x, instance) ensures x in l' {
      assert InInstance(rows, x, instance);
      var k :| 0 <= k < |l| && l[k] == x;
      assert l'[if k < i then k else k - 1] == x;
    }
  }

  /** The increasing sequence of an instance's order indices. */
  function Orders(rows: Table, l: seq<nat>): seq<int>
    requires forall k :: 0 <= k < |l| ==> l[k] in rows
  {
    seq(|l|, k requires 0 <= k < |l| => rows[l[k]].order)
  }

  lemma SwapMembers(rows: Table, instance: int, l: seq<nat>, i: nat)
    requires IsListing(rows, instance, l) && i + 1 < |l|
    ensures forall k :: 0 <= k < |l| ==>
              && InInstance(Swap(rows, l[i], l[i + 1]), Trade(l, i)[k], instance)
              && Swap(rows, l[i], l[i + 1])[Trade(l, i)[k]].order == rows[l[k]].order
  {
    ListingDistinct(rows, instance, l, i, i + 1);
    forall k | 0 <= k < |l| && k != i && k != i + 1 ensures l[k] != l[i] && l[k] != l[i + 1] {
      ListingDistinct(rows, instance, l, k, i);
      ListingDistinct(rows, instance, l, k, i + 1);
    }
  }

  /** The sequence of order indices along the listing stays what it was. */
  lemma SwapKeepsOrders(rows: Table, instance: int, l: seq<nat>, i: nat)
    requires IsListing(rows, instance, l) && i + 1 < |l|
    ensures forall k :: 0 <= k < |l| ==> Trade(l, i)[k] in Swap(rows, l[i], l[i + 1])
    ensures Orders(Swap(rows, l[i], l[i + 1]), Trade(l, i)) == Orders(rows, l)
  {
    SwapMembers(rows, instance, l, i);
  }

  /** Swapping the indices of two neighbours trades them in the listing. */
  lemma SwapTrades(rows: Table, instance: int, l: seq<nat>, i: nat)
    requires IsListing(rows, instance, l) && i + 1 < |l|
    ensures IsListing(Swap(rows, l[i], l[i + 1]), instance, Trade(l, i))
  {
    var rows', l' := Swap(rows, l[i], l[i + 1]), Trade(l, i);
    SwapMembers(rows, instance, l, i);
    forall x | InInstance(rows', x, instance) ensures x in l' {
      assert InInstance(rows, x, instance);
      var k :| 0 <= k < |l| && l[k] == x;
      assert l'[if k == i then i + 1 else if k == i + 1 then i else k] == x;
    }
    forall j, k | 0 <= j < k < |l'| ensures rows'[l'[j]].order < rows'[l'[k]].order {
      assert rows[l[j]].order < rows[l[k]].order;
    }
  }

  lemma SwapElsewhere(rows: Table, a: nat, b: nat, instance: int, l: seq<nat>)
    requires IsListing(rows, instance, l) && a in rows && b in rows
    requires rows[a].instance == rows[b].instance != instance
    ensures IsListing(Swap(rows, a, b), instance, l)
  {
    var rows' := Swap(rows, a, b);
    forall x | InInstance(rows', x, instance) ensures x in l { assert InInstance(rows, x, instance); }
    forall k | 0 <= k < |l| ensures InInstance(rows', l[k], instance) && rows'[l[k]] == rows[l[k]] {
      assert InInstance(rows, l[k], instance);
    }
  }

  /** The query for the row above finds the listing's previous entry. */
  lemma AboveIsPrevious(rows: Table, id: nat, instance: int, l: seq<nat>)
    requires InInstance(rows, id, instance) && IsListing(rows, instance, l)
    ensures Index(l, id) < |l|
    ensures (exists a :: IsAbove(rows, id, a)) <==> Index(l, id) > 0
    ensures forall a :: IsNextAbove(rows, id, a) ==> Index(l, id) > 0 && a == l[Index(l, id) - 1]
  {
    var i := Index(l, id);
    if i > 0 { assert IsAbove(rows, id, l[i - 1]); }
    forall a | IsAbove(rows, id, a)
      ensures i > 0 && (IsNextAbove(rows, id, a) ==> a == l[i - 1])
    {
      var k := AboveStands(rows, id, instance, l, a);
      if k < i - 1 { assert rows[l[k]].order < rows[l[i - 1]].order; }
    }
  }

  /** A rule above stands before. */
  lemma AboveStands(rows: Table, id: nat, instance: int, l: seq<nat>, a: nat) returns (k: nat)
    requires InInstance(rows, id, instance) && IsListing(rows, instance, l) && IsAbove(rows, id, a)
    ensures k < Index(l, id) < |l| && l[k] == a
  {
    assert InInstance(rows, a, instance);
    k :| 0 <= k < |l| && l[k] == a;
  }

  lemma BelowIsFollowing(rows: Table, id: nat, instance: int, l: seq<nat>)
    requires InInstance(rows, id, instance) && IsListing(rows, instance, l)
    ensures Index(l, id) < |l|
    ensures (exists b :: IsBelow(rows, id, b)) <==> Index(l, id) + 1 < |l|
    ensures forall b :: IsNextBelow(rows, id, b) ==> Index(l, id) + 1 < |l| && b == l[Index(l, id) + 1]
  {
    var i := Index(l, id);
    if i + 1 < |l| { assert IsBelow(rows, id, l[i + 1]); }
    forall b | IsBelow(rows, id, b)
      ensures i + 1 < |l| && (IsNextBelow(rows, id, b) ==> b == l[i + 1])
    {
      assert InInstance(rows, b, instance);
      var k :| 0 <= k < |l| && l[k] == b;
      assert k > i;
      if k > i + 1 { assert rows[l[i + 1]].order < rows[l[k]].order; }
    }
  }

  /** The table after a move along the listing: unchanged, or two neighbours' indices
      swapped. */
  lemma MoveUpStep(instances: set<int>, st: State, id: nat, st': State, l: seq<nat>)
    requires Next(instances, st, Move(id, Up), st')
    requires id in st.rows && IsListing(st.rows, st.rows[id].instance, l)
    ensures var i := Index(l, id);
            && i < |l|
            && st' == if i > 0 then st.(rows := Swap(st.rows, l[i - 1], id)) else st
  {
    AboveIsPrevious(st.rows, id, st.rows[id].instance, l);
    var i := Index(l, id);
    if i > 0 {
      var a :| IsNextAbove(st.rows, id, a) && st' == st.(rows := Swap(st.rows, id, a));
      SwapSymmetric(st.rows, id, a);
    }
  }

  lemma SwapSymmetric(rows: Table, a: nat, b: nat)
    requires a in rows && b in rows
    ensures Swap(rows, a, b) == Swap(rows, b, a)
  {
  }

  lemma MoveDownStep(instances: set<int>, st: State, id: nat, st': State, l: seq<nat>)
    requires Next(instances, st, Move(id, Down), st')
    requires id in st.rows && IsListing(st.rows, st.rows[id].instance, l)
    ensures var i := Index(l, id);
            && i < |l|
            && st' == if i + 1 < |l| then st.(rows := Swap(st.rows, id, l[i + 1])) else st
  {
    BelowIsFollowing(st.rows, id, st.rows[id].instance, l);
  }

  lemma ListOfEach(a: Lists, f: seq<nat> -> seq<nat>, instance: int)
    requires f([]) == []
    ensures ListOf(OnEach(a, f), instance) == f(ListOf(a, instance))
  {
  }

  lemma CreateRefines(instances: set<int>, st: State, instance: int, name: string, st': State, a: Lists)
    requires Represents(st, a) && Next(instances, st, Create(instance, name), st')
    ensures Represents(st', SimpleStep(instances, a, Create(instance, name)))
  {
    if instance in instances {
      var m :| IsMaxOrder(st.rows, instance, m)
               && st' == State(st.rows[st.nextId := Row(instance, name, m + 10)], st.nextId + 1);
      forall other ensures IsListing(st'.rows, other, ListOf(SimpleStep(instances, a, Create(instance, name)), other)) {
        CreateAppends(st.rows, instance, m, name, st.nextId, other, ListOf(a, other));
      }
    }
  }

  lemma PatchRefines(st: State, id: nat, name: string, a: Lists)
    requires Represents(st, a) && id in st.rows
    ensures Represents(st.(rows := st.rows[id := st.rows[id].(name := name)]), a)
  {
    var rows' := st.rows[id := st.rows[id].(name := name)];
    forall instance ensures IsListing(rows', instance, ListOf(a, instance)) {
      assert IsListing(st.rows, instance, ListOf(a, instance));
      assert forall x :: InInstance(rows', x, instance) <==> InInstance(st.rows, x, instance);
      assert forall x :: x in st.rows ==> rows'[x].order == st.rows[x].order;
    }
  }

  lemma DeleteRefines(st: State, id: nat, a: Lists)
    requires Represents(st, a)
    ensures Represents(st.(rows := st.rows - {id}), OnEach(a, Removing(id)))
  {
    var f := Removing(id);
    forall instance ensures IsListing(st.rows - {id}, instance, ListOf(OnEach(a, f), instance)) {
      ListOfEach(a, f, instance);
      DeleteRemoves(st.rows, id, instance, ListOf(a, instance));
    }
  }

  /** One swap of neighbours, or none, at every instance's list. */
  lemma SwapRefines(st: State, a: Lists, home: int, i: nat, f: seq<nat> -> seq<nat>)
    requires Represents(st, a) && f([]) == []
    requires var l := ListOf(a, home); i + 1 < |l| && f(l) == Trade(l, i)
    requires forall other :: other != home ==> f(ListOf(a, other)) == ListOf(a, other)
    ensures var l := ListOf(a, home);
            Represents(st.(rows := Swap(st.rows, l[i], l[i + 1])), OnEach(a, f))
  {
    var l := ListOf(a, home);
    assert IsListing(st.rows, home, l);
    var rows' := Swap(st.rows, l[i], l[i + 1]);
    forall instance ensures IsListing(rows', instance, ListOf(OnEach(a, f), instance)) {
      ListOfEach(a, f, instance);
      if instance == home {
        SwapTrades(st.rows, home, l, i);
      } else {
        assert IsListing(st.rows, instance, ListOf(a, instance));
        SwapElsewhere(st.rows, l[i], l[i + 1], instance, ListOf(a, instance));
      }
    }
  }

  lemma IdleRefines(st: State, a: Lists, f: seq<nat> -> seq<nat>)
    requires Represents(st, a) && f([]) == []
    requires forall instance :: f(ListOf(a, instance)) == ListOf(a, instance)
    ensures Represents(st, OnEach(a, f))
  {
    forall instance ensures IsListing(st.rows, instance, ListOf(OnEach(a, f), instance)) {
      ListOfEach(a, f, instance);
      assert IsListing(st.rows, instance, ListOf(a, instance));
    }
  }

  /** Only the rule's own instance lists it. */
  lemma AbsentElsewhere(st: State, a: Lists, id: nat)
    requires Represents(st, a)
    ensures forall other :: !InInstance(st.rows, id, other) ==> id !in ListOf(a, other)
  {
    forall other | !InInstance(st.rows, id, other) ensures id !in ListOf(a, other) {
      assert IsListing(st.rows, other, ListOf(a, other));
    }
  }

  /** What is done to an instance's list when it does not hold the rule: nothing. */
  lemma AbsentIsIdle(l: seq<nat>, id: nat)
    requires id !in l
    ensures Raising(id)(l) == l && Lowering(id)(l) == l
  {
  }

  lemma ElsewhereIdle(rows: Table, a: Lists, id: nat)
    requires forall other :: !InInstance(rows, id, other) ==> id !in ListOf(a, other)
    ensures forall other :: !InInstance(rows, id, other) ==>
              Raising(id)(ListOf(a, other)) == ListOf(a, other) == Lowering(id)(ListOf(a, other))
    ensures Raising(id)([]) == [] && Lowering(id)([]) == []
  {
    forall other | !InInstance(rows, id, other)
      ensures Raising(id)(ListOf(a, other)) == ListOf(a, other) == Lowering(id)(ListOf(a, other))
    {
      AbsentIsIdle(ListOf(a, other), id);
    }
    AbsentIsIdle([], id);
  }

  /** A move that finds no neighbour changes no list. */
  lemma IdleEverywhere(rows: Table, a: Lists, id: nat, f: seq<nat> -> seq<nat>)
    requires forall other :: !InInstance(rows, id, other) ==> f(ListOf(a, other)) == ListOf(a, other)
    requires id in rows ==> f(ListOf(a, rows[id].instance)) == ListOf(a, rows[id].instance)
    ensures forall instance :: f(ListOf(a, instance)) == ListOf(a, instance)
  {
    forall instance ensures f(ListOf(a, instance)) == ListOf(a, instance) {
      if InInstance(rows, id, instance) { assert instance == rows[id].instance; }
    }
  }

  lemma RaisesAt(l: seq<nat>, id: nat)
    ensures Raising(id)(l) == var i := Index(l, id); if 0 < i < |l| then Trade(l, i - 1) else l
  {
  }

  lemma MoveUpRefines(instances: set<int>, st: State, id: nat, st': State, a: Lists)
    requires Represents(st, a) && Next(instances, st, Move(id, Up), st')
    ensures Represents(st', OnEach(a, Raising(id)))
  {
    AllButUp(st, a, id);
    if id in st.rows {
      var l := ListOf(a, st.rows[id].instance);
      var i := Index(l, id);
      assert IsListing(st.rows, st.rows[id].instance, l);
      MoveUpStep(instances, st, id, st', l);
      assert st' == if i > 0 then st.(rows := Swap(st.rows, l[i - 1], id)) else st;
    } else {
      assert st' == st;
    }
  }

  lemma AllButUp(st: State, a: Lists, id: nat)
    requires Represents(st, a)
    ensures id !in st.rows ==> Represents(st, OnEach(a, Raising(id)))
    ensures id in st.rows ==>
              var l := ListOf(a, st.rows[id].instance);
              var i := Index(l, id);
              i < |l| && Represents(if i > 0 then st.(rows := Swap(st.rows, l[i - 1], id)) else st, OnEach(a, Raising(id)))
  {
    AbsentElsewhere(st, a, id);
    ElsewhereIdle(st.rows, a, id);
    if id in st.rows {
      var home := st.rows[id].instance;
      var l := ListOf(a, home);
      assert IsListing(st.rows, home, l) && InInstance(st.rows, id, home);
      RaisedRefines(st, a, id, home, l, Index(l, id));
    } else {
      IdleEverywhere(st.rows, a, id, Raising(id));
      IdleRefines(st, a, Raising(id));
    }
  }

  lemma RaisedRefines(st: State, a: Lists, id: nat, home: int, l: seq<nat>, i: nat)
    requires Represents(st, a) && InInstance(st.rows, id, home) && l == ListOf(a, home) && i == Index(l, id) < |l|
    requires Raising(id)([]) == []
    requires forall other :: !InInstance(st.rows, id, other) ==> Raising(id)(ListOf(a, other)) == ListOf(a, other)
    ensures Represents(if i > 0 then st.(rows := Swap(st.rows, l[i - 1], id)) else st, OnEach(a, Raising(id)))
  {
    RaisesAt(l, id);
    if i > 0 {
      SwapRefines(st, a, home, i - 1, Raising(id));
    } else {
      IdleEverywhere(st.rows, a, id, Raising(id));
      IdleRefines(st, a, Raising(id));
    }
  }

  lemma LowersAt(l: seq<nat>, id: nat)
    ensures Lowering(id)(l) == var i := Index(l, id); if i + 1 < |l| then Trade(l, i) else l
  {
  }

  lemma MoveDownRefines(instances: set<int>, st: State, id: nat, st': State, a: Lists)
    requires Represents(st, a) && Next(instances, st, Move(id, Down), st')
    ensures Represents(st', OnEach(a, Lowering(id)))
  {
    AllButDown(st, a, id);
    if id in st.rows {
      var l := ListOf(a, st.rows[id].instance);
      var i := Index(l, id);
      assert IsListing(st.rows, st.rows[id].instance, l);
      MoveDownStep(instances, st, id, st', l);
      assert st' == if i + 1 < |l| then st.(rows := Swap(st.rows, id, l[i + 1])) else st;
    } else {
      assert st' == st;
    }
  }

  lemma AllButDown(st: State, a: Lists, id: nat)
    requires Represents(st, a)
    ensures id !in st.rows ==> Represents(st, OnEach(a, Lowering(id)))
    ensures id in st.rows ==>
              var l := ListOf(a, st.rows[id].instance);
              var i := Index(l, id);
              i < |l| && Represents(if i + 1 < |l| then st.(rows := Swap(st.rows, id, l[i + 1])) else st, OnEach(a, Lowering(id)))
  {
    AbsentElsewhere(st, a, id);
    ElsewhereIdle(st.rows, a, id);
    if id in st.rows {
      var home := st.rows[id].instance;
      var l := ListOf(a, home);
      assert IsListing(st.rows, home, l) && InInstance(st.rows, id, home);
      LoweredRefines(st, a, id, home, l, Index(l, id));
    } else {
      IdleEverywhere(st.rows, a, id, Lowering(id));
      IdleRefines(st, a, Lowering(id));
    }
  }

  lemma LoweredRefines(st: State, a: Lists, id: nat, home: int, l: seq<nat>, i: nat)
    requires Represents(st, a) && InInstance(st.rows, id, home) && l == ListOf(a, home) && i == Index(l, id) < |l|
    requires Lowering(id)([]) == []
    requires forall other :: !InInstance(st.rows, id, other) ==> Lowering(id)(ListOf(a, other)) == ListOf(a, other)
    ensures Represents(if i + 1 < |l| then st.(rows := Swap(st.rows, id, l[i + 1])) else st, OnEach(a, Lowering(id)))
  {
    LowersAt(l, id);
    if i + 1 < |l| {
      SwapRefines(st, a, home, i, Lowering(id));
    } else {
      IdleEverywhere(st.rows, a, id, Lowering(id));
      IdleRefines(st, a, Lowering(id));
    }
  }

  lemma StepRefines(instances: set<int>, st: State, op: Op, st': State, a: Lists)
    requires Represents(st, a) && Next(instances, st, op, st')
    ensures Represents(st', SimpleStep(instances, a, op))
  {
    match op
    case Create(instance, name) => CreateRefines(instances, st, instance, name, st', a);
    case Patch(id, name) => if id in st.rows { PatchRefines(st, id, name, a); }
    case Delete(id) => DeleteRefines(st, id, a);
    case Move(id, Up) => MoveUpRefines(instances, st, id, st', a);
    case Move(id, Down) => MoveDownRefines(instances, st, id, st', a);
    case Move(_, OtherDirection(_)) =>
  }

  /** A run of the handlers from the empty store. */
  ghost predicate IsRun(instances: set<int>, states: seq<State>, ops: seq<Op>) {
    && |states| == |ops| + 1 && states[0] == State(map[], 1)
    && forall k :: 0 <= k < |ops| ==> Next(instances, states[k], ops[k], states[k + 1])
  }

  /** Over any run, sorting each instance's rules by order index gives the list that plain
      append, remove and neighbour swaps give; order indices stay positive and distinct. */
  lemma {:induction false} RunRefines(instances: set<int>, states: seq<State>, ops: seq<Op>, n: nat)
    requires IsRun(instances, states, ops) && n <= |ops|
    ensures Represents(states[n], SimpleRun(instances, ops[..n]))
  {
    if n == 0 {
      assert ops[..0] == [];
    } else {
      RunRefines(instances, states, ops, n - 1);
      assert ops[..n][..n - 1] == ops[..n - 1];
      StepRefines(instances, states[n - 1], ops[n - 1], states[n], SimpleRun(instances, ops[..n - 1]));
    }
  }

  // ---- What moving and creating mean on the lists ------------------------------

  lemma DistinctOrders(st: State, a: Lists, x: nat, y: nat)
    requires Represents(st, a) && x in st.rows && y in st.rows && x != y
    requires st.rows[x].instance == st.rows[y].instance
    ensures st.rows[x].order != st.rows[y].order && st.rows[x].order > 0
  {
    var l := ListOf(a, st.rows[x].instance);
    assert IsListing(st.rows, st.rows[x].instance, l);
    assert InInstance(st.rows, x, st.rows[x].instance) && InInstance(st.rows, y, st.rows[x].instance);
    var i :| 0 <= i < |l| && l[i] == x;
    var j :| 0 <= j < |l| && l[j] == y;
  }

  lemma IndexIs(l: seq<nat>, id: nat, i: nat)
    requires i < |l| && l[i] == id && id !in l[..i]
    ensures Index(l, id) == i
  {
  }

  lemma TradeKeepsOthers(l: seq<nat>, i: nat, id: nat)
    requires i + 1 < |l| && l[i] != l[i + 1] && (id == l[i] || id == l[i + 1]) && id !in l[..i]
    ensures Remove(Trade(l, i), id) == Remove(l, id)
  {
    var m := Trade(l, i);
    assert id !in m[..i] by { assert m[..i] == l[..i]; }
    IndexIs(l, id, if id == l[i] then i else i + 1);
    IndexIs(m, id, if id == l[i] then i + 1 else i);
    RemoveAt(l, id);
    RemoveAt(m, id);
  }

  /** A move never changes the relative order of the other rules. */
  lemma MoveKeepsOthers(l: seq<nat>, id: nat)
    requires forall i, j :: 0 <= i < j < |l| ==> l[i] != l[j]
    ensures Remove(Raise(l, id), id) == Remove(l, id)
    ensures Remove(Lower(l, id), id) == Remove(l, id)
  {
    var i := Index(l, id);
    if 0 < i < |l| { TradeKeepsOthers(l, i - 1, id); }
    if i + 1 < |l| { TradeKeepsOthers(l, i, id); }
  }

  /** Moving up and then down restores the list, unless the rule was the first of several. */
  lemma UpThenDownIff(l: seq<nat>, id: nat)
    requires forall i, j :: 0 <= i < j < |l| ==> l[i] != l[j]
    requires id in l
    ensures Lower(Raise(l, id), id) == l <==> Index(l, id) > 0 || |l| == 1
  {
    var i := Index(l, id);
    if i > 0 {
      var m := Raise(l, id);
      assert m[..i - 1] == l[..i - 1];
      IndexIs(m, id, i - 1);
    } else if |l| > 1 {
      assert Lower(l, id)[0] != l[0];
    }
  }

  lemma SwapTwice(rows: Table, a: nat, b: nat)
    requires a in rows && b in rows && a != b
    ensures Swap(Swap(rows, a, b), b, a) == rows
  {
  }

  /** On the rows themselves: the very same table comes back. */
  lemma UpThenDownRestores(instances: set<int>, st: State, id: nat, up: State, down: State, l: seq<nat>)
    requires id in st.rows && IsListing(st.rows, st.rows[id].instance, l)
    requires Next(instances, st, Move(id, Up), up) && Next(instances, up, Move(id, Down), down)
    requires exists x :: IsAbove(st.rows, id, x)
    ensures down == st
  {
    var home := st.rows[id].instance;
    AboveIsPrevious(st.rows, id, home, l);
    MoveUpStep(instances, st, id, up, l);
    var i := Index(l, id);
    ListingDistinct(st.rows, home, l, i - 1, i);
    SwapTrades(st.rows, home, l, i - 1);
    RaisedIndex(l, id, i);
    MoveDownStep(instances, up, id, down, Trade(l, i - 1));
    SwapTwice(st.rows, l[i - 1], id);
  }

  lemma RaisedIndex(l: seq<nat>, id: nat, i: nat)
    requires 0 < i == Index(l, id) < |l| && l[i - 1] != id
    ensures Index(Trade(l, i - 1), id) == i - 1
  {
    var l' := Trade(l, i - 1);
    assert l'[..i - 1] == l[..i - 1];
    forall k | 0 <= k < i - 1 ensures l'[k] != id { assert l[..i][k] != id; }
    IndexIs(l', id, i - 1);
  }

  /** A move keeps that sequence, and with it the multiset of order indices. */
  lemma MoveUpConservesOrders(instances: set<int>, st: State, id: nat, st': State, l: seq<nat>)
    requires id in st.rows && IsListing(st.rows, st.rows[id].instance, l)
    requires Next(instances, st, Move(id, Up), st')
    ensures IsListing(st'.rows, st.rows[id].instance, Raise(l, id))
    ensures Orders(st'.rows, Raise(l, id)) == Orders(st.rows, l)
  {
    MoveUpStep(instances, st, id, st', l);
    if Index(l, id) > 0 {
      SwapTrades(st.rows, st.rows[id].instance, l, Index(l, id) - 1);
      SwapKeepsOrders(st.rows, st.rows[id].instance, l, Index(l, id) - 1);
    }
  }

  lemma MoveDownConservesOrders(instances: set<int>, st: State, id: nat, st': State, l: seq<nat>)
    requires id in st.rows && IsListing(st.rows, st.rows[id].instance, l)
    requires Next(instances, st, Move(id, Down), st')
    ensures IsListing(st'.rows, st.rows[id].instance, Lower(l, id))
    ensures Orders(st'.rows, Lower(l, id)) == Orders(st.rows, l)
  {
    MoveDownStep(instances, st, id, st', l);
    if Index(l, id) + 1 < |l| {
      SwapTrades(st.rows, st.rows[id].instance, l, Index(l, id));
      SwapKeepsOrders(st.rows, st.rows[id].instance, l, Index(l, id));
    }
  }
}
