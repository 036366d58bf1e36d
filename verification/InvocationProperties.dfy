/**
  The two orders of using a tool agree, selections are conserved, and what
  order and lost references can and cannot change.
*/
module InvocationProperties {
  import opened Results
  import opened Invocation

  // -- lists -----------------------------------------------------------------

  ghost predicate Distinct(items: seq<Item>) {
    forall i, j :: 0 <= i < j < |items| ==> items[i] != items[j]
  }

  ghost predicate AllLive(context: Context, items: seq<Item>) {
    forall i :: 0 <= i < |items| ==> context.resolves(items[i])
  }

  lemma {:induction false} LiveMembers(context: Context, items: seq<Item>)
    ensures forall x :: x in Live(context, items) <==> x in items && context.resolves(x)
    ensures forall x :: x in Gone(context, items) <==> x in items && !context.resolves(x)
  {
    if items != [] {
      LiveMembers(context, items[1..]);
    }
  }

  lemma {:induction false} LiveSplits(context: Context, items: seq<Item>)
    ensures multiset(items) == multiset(Live(context, items)) + multiset(Gone(context, items))
  {
    if items != [] {
      LiveSplits(context, items[1..]);
      assert items == [items[0]] + items[1..];
    }
  }

  lemma {:induction false} LiveKeepsDistinct(context: Context, items: seq<Item>)
    requires Distinct(items)
    ensures Distinct(Live(context, items))
  {
    if items != [] {
      LiveKeepsDistinct(context, items[1..]);
      LiveMembers(context, items[1..]);
      assert forall k :: 0 <= k < |Live(context, items[1..])| ==> Live(context, items[1..])[k] in items[1..];
      forall k | 1 <= k < |items| ensures items[k] != items[0] {
      }
      assert items[0] !in items[1..];
    }
  }

  lemma {:induction false} AllLiveStay(context: Context, items: seq<Item>)
    requires AllLive(context, items)
    ensures Live(context, items) == items && Gone(context, items) == []
  {
    if items != [] {
      AllLiveStay(context, items[1..]);
    }
  }

  lemma {:induction false} LivePermutes(context: Context, items: seq<Item>, others: seq<Item>)
    requires multiset(items) == multiset(others)
    ensures multiset(Live(context, items)) == multiset(Live(context, others))
  {
    forall x ensures multiset(Live(context, items))[x] == multiset(Live(context, others))[x] {
      LiveCounts(context, items, x);
      LiveCounts(context, others, x);
    }
  }

  lemma {:induction false} LiveCounts(context: Context, items: seq<Item>, x: Item)
    ensures multiset(Live(context, items))[x] == if context.resolves(x) then multiset(items)[x] else 0
  {
    if items != [] {
      LiveCounts(context, items[1..], x);
      assert items == [items[0]] + items[1..];
    }
  }

  // -- bindings --------------------------------------------------------------

  /** A slot is the first entry for its role, wherever it is found. */
  lemma SlotIs(bindings: Bindings, role: RoleId, k: nat)
    requires k <= |bindings.bound|
    requires k < |bindings.bound| ==> bindings.bound[k].role == role
    requires forall i :: 0 <= i < k ==> bindings.bound[i].role != role
    ensures bindings.Slot(role) == k
  {
    var s := bindings.Slot(role);
    assert s < |bindings.bound| ==> bindings.bound[s].role == role;
    assert k < |bindings.bound| ==> bindings.bound[k].role == role;
  }

  /** Two bindings with the same roles in the same places look roles up in
      the same places. */
  lemma SameSlots(bindings: Bindings, after: Bindings, role: RoleId)
    requires |after.bound| == |bindings.bound|
    requires forall i :: 0 <= i < |after.bound| ==> after.bound[i].role == bindings.bound[i].role
    ensures after.Slot(role) == bindings.Slot(role)
  {
    SlotIs(after, role, bindings.Slot(role));
  }

  lemma PushGets(bindings: Bindings, role: RoleId, item: Item)
    ensures bindings.Push(role, item).Get(role) == bindings.Get(role) + [item]
    ensures forall other :: other != role ==> bindings.Push(role, item).Get(other) == bindings.Get(other)
  {
    var after := bindings.Push(role, item);
    SlotIs(after, role, bindings.Slot(role));
    forall other | other != role ensures after.Get(other) == bindings.Get(other) {
      var k := bindings.Slot(other);
      SlotIs(after, other, if k < |bindings.bound| then k else |after.bound|);
    }
  }

  lemma RemoveGets(bindings: Bindings, role: RoleId, item: Item)
    ensures bindings.Remove(role, item).Get(role) == Without(bindings.Get(role), item)
    ensures forall other :: other != role ==> bindings.Remove(role, item).Get(other) == bindings.Get(other)
  {
    var after := bindings.Remove(role, item);
    SameSlots(bindings, after, role);
    forall other | other != role ensures after.Get(other) == bindings.Get(other) {
      SameSlots(bindings, after, other);
    }
  }

  lemma RetainGets(bindings: Bindings, context: Context, role: RoleId)
    ensures bindings.RetainResolvable(context).Get(role) == Live(context, bindings.Get(role))
  {
    SameSlots(bindings, bindings.RetainResolvable(context), role);
  }

  // -- tool first and selection first ----------------------------------------

  function OfferAll(tool: Armed, context: Context, items: seq<Item>): Armed {
    if items == [] then tool
    else OfferAll(tool, context, items[..|items| - 1]).Offer(context, items[|items| - 1]).0
  }

  function FreshTool(schema: Schema, revision: nat): Armed {
    Armed(schema, NO_BINDINGS, NO_DIAGNOSTICS, revision)
  }

  /** A lone role takes a pick exactly when it has room for one. */
  lemma LoneRoleTakes(role: Role, bindings: Bindings, diagnostics: Diagnostics, revision: nat)
    requires role.cardinality.WellOrdered()
    ensures Armed([role], bindings, diagnostics, revision).Taking().Some? ==>
              Armed([role], bindings, diagnostics, revision).Taking() == Some(role)
    ensures bindings.Count(role.id) <= MaxOf(role.cardinality, bindings.Count(role.id)) ==>
              (Armed([role], bindings, diagnostics, revision).Taking().Some? <==>
               role.cardinality.AcceptsMore(bindings.Count(role.id)))
  {
    assert FirstUnsatisfied([role][1..], bindings).None?;
    assert LastWithRoom([role][..0], bindings).None?;
  }

  /** The most a role takes; `otherwise` when there is no limit. */
  function MaxOf(cardinality: Cardinality, otherwise: nat): nat {
    match cardinality
    case Exactly(n) => n
    case Between(_, high) => high
    case AtLeast(_) => otherwise
  }

  /** The tool has seen the first `n` items exactly as the resolver has. */
  ghost predicate InStep(tool: Armed, role: Role, h: Harvest, items: seq<Item>, n: nat)
    requires n <= |items| == |h.taken|
  {
    && tool.schema == [role]
    && tool.bindings == h.bindings
    && tool.diagnostics.rejected == h.rejected
    && tool.bindings.Count(role.id) <= MaxOf(role.cardinality, tool.bindings.Count(role.id))
    && (forall x :: x in h.bindings.Get(role.id) ==> x in items[..n])
    && (forall k :: 0 <= k < |h.rejected| ==> h.rejected[k].item in items[..n])
    && (forall k :: n <= k < |items| ==> !h.taken[k])
  }

  lemma StayInStep(context: Context, role: Role, tool: Armed, h: Harvest, items: seq<Item>, n: nat)
    requires role.cardinality.WellOrdered() && Distinct(items)
    requires |h.taken| == |items| && n < |items|
    requires InStep(tool, role, h, items, n)
    ensures InStep(tool.Offer(context, items[n]).0, role, Consider(context, role, h, n, items[n]), items, n + 1)
  {
    var item := items[n];
    LoneRoleTakes(role, tool.bindings, tool.diagnostics, tool.resolvedAt);
    assert item !in items[..n];
    assert items[..n + 1] == items[..n] + [item];
    assert !IsRejected(h.rejected, item);
    PushGets(h.bindings, role.id, item);
  }

  lemma StartInStep(context: Context, role: Role, items: seq<Item>, revision: nat)
    ensures InStep(FreshTool([role], revision), role, HarvestAll(context, [role], items, 0), items, 0)
  {
  }

  lemma OfferedNext(tool: Armed, context: Context, items: seq<Item>, n: nat, before: Armed)
    requires n < |items| && before == OfferAll(tool, context, items[..n])
    ensures OfferAll(tool, context, items[..n + 1]) == before.Offer(context, items[n]).0
  {
    assert items[..n + 1][..n] == items[..n];
  }

  lemma {:induction false} KeepInStep(context: Context, role: Role, items: seq<Item>, revision: nat, n: nat)
    requires role.cardinality.WellOrdered() && Distinct(items) && n <= |items|
    ensures var start := HarvestAll(context, [role], items, 0);
            InStep(OfferAll(FreshTool([role], revision), context, items[..n]), role,
                   ConsiderFirst(context, role, items, start, n), items, n)
  {
    var start := HarvestAll(context, [role], items, 0);
    if n == 0 {
      StartInStep(context, role, items, revision);
    } else {
      KeepInStep(context, role, items, revision, n - 1);
      var tool := OfferAll(FreshTool([role], revision), context, items[..n - 1]);
      var h := ConsiderFirst(context, role, items, start, n - 1);
      StayInStep(context, role, tool, h, items, n - 1);
      OfferedNext(FreshTool([role], revision), context, items, n - 1, tool);
    }
  }

  /** For one harvested role and distinct live items, offering them one by one
      to an armed tool gives the resolver's rejections, and its bindings and
      its readiness when nothing is rejected. */
  lemma ToolFirstIsSelectionFirst(context: Context, role: Role, items: seq<Item>, revision: nat)
    requires role.source == Symmetric && role.cardinality.WellOrdered()
    requires Distinct(items) && AllLive(context, items)
    ensures var tool := OfferAll(FreshTool([role], revision), context, items);
            var resolution := ResolveSchema(context, [role], items);
            && tool.diagnostics.rejected == resolution.diagnostics.rejected
            && (resolution.InvalidSelection? <==> tool.diagnostics.rejected != [])
            && (!resolution.InvalidSelection? ==> resolution.bindings == tool.bindings)
            && (resolution.Complete? <==> tool.diagnostics.rejected == [] && tool.WaitingFor().None?)
  {
    AllLiveStay(context, items);
    KeepInStep(context, role, items, revision, |items|);
    assert items[..|items|] == items;
    var h := HarvestAll(context, [role], items, 1);
    assert h == ConsiderFirst(context, role, items, HarvestAll(context, [role], items, 0), |items|);
  }

  // -- where the two orders part ---------------------------------------------

  const TAKE_ANYTHING: (Context, Bindings, Item) -> Eligibility := (_, _, _) => Accept

  function SomeEdges(n: nat): (r: seq<Item>)
    ensures |r| == n && forall i :: 0 <= i < n ==> r[i] == Edge(0, EntityRef(0, i))
  {
    seq(n, i requires 0 <= i < n => Edge(0, EntityRef(0, i)))
  }

  lemma NeverFull(role: Role, tool: Armed, context: Context, item: Item)
    requires role.cardinality.Between? && role.cardinality.low > role.cardinality.high
    requires role.accepts == TAKE_ANYTHING && tool.schema == [role] && item !in tool.bindings.Get(role.id)
    ensures tool.Offer(context, item).0 == tool.(bindings := tool.bindings.Push(role.id, item))
  {
    assert !role.cardinality.SatisfiedBy(tool.bindings.Count(role.id));
    assert tool.Taking() == Some(role);
    assert role.accepts(context, tool.bindings, item) == Accept;
  }

  lemma OneMoreEdge(n: nat)
    requires n > 0
    ensures SomeEdges(n)[..n - 1] == SomeEdges(n - 1)
    ensures SomeEdges(n - 1) + [SomeEdges(n)[n - 1]] == SomeEdges(n)
    ensures SomeEdges(n)[n - 1] !in SomeEdges(n - 1)
  {
  }

  lemma {:induction false} InsatiableTool(role: Role, context: Context, n: nat)
    requires role.cardinality.Between? && role.cardinality.low > role.cardinality.high
    requires role.accepts == TAKE_ANYTHING
    ensures OfferAll(FreshTool([role], 0), context, SomeEdges(n)).bindings.Get(role.id) == SomeEdges(n)
    ensures OfferAll(FreshTool([role], 0), context, SomeEdges(n)).schema == [role]
  {
    if n > 0 {
      var last := SomeEdges(n)[n - 1];
      InsatiableTool(role, context, n - 1);
      OneMoreEdge(n);
      var before := OfferAll(FreshTool([role], 0), context, SomeEdges(n - 1));
      NeverFull(role, before, context, last);
      PushGets(before.bindings, role.id, last);
      OfferedLast(FreshTool([role], 0), context, SomeEdges(n), before);
    }
  }

  lemma OfferedLast(tool: Armed, context: Context, items: seq<Item>, before: Armed)
    requires items != [] && before == OfferAll(tool, context, items[..|items| - 1])
    ensures OfferAll(tool, context, items) == before.Offer(context, items[|items| - 1]).0
  {
  }

  lemma ConsiderStaysWithin(context: Context, role: Role, h: Harvest, index: nat, item: Item)
    requires index < |h.taken|
    requires h.bindings.Count(role.id) <= MaxOf(role.cardinality, h.bindings.Count(role.id))
    ensures var after := Consider(context, role, h, index, item);
            after.bindings.Count(role.id) <= MaxOf(role.cardinality, after.bindings.Count(role.id))
  {
    PushGets(h.bindings, role.id, item);
  }

  /** What every single consideration keeps, a pass over the items keeps. */
  lemma {:induction false} ConsiderFirstKeeps(context: Context, role: Role, live: seq<Item>, h: Harvest, n: nat,
                                              keeps: Harvest -> bool)
    requires |h.taken| == |live| && n <= |live| && keeps(h)
    requires forall k: nat, g: Harvest {:trigger Consider(context, role, g, k, live[k])} ::
               k < |live| == |g.taken| && keeps(g) ==> keeps(Consider(context, role, g, k, live[k]))
    ensures keeps(ConsiderFirst(context, role, live, h, n))
  {
    if n > 0 {
      ConsiderFirstKeeps(context, role, live, h, n - 1, keeps);
    }
  }

  lemma RunStaysWithin(context: Context, role: Role, items: seq<Item>, start: Harvest, n: nat)
    requires n <= |items| == |start.taken|
    requires start.bindings.Count(role.id) <= MaxOf(role.cardinality, start.bindings.Count(role.id))
    ensures var h := ConsiderFirst(context, role, items, start, n);
            h.bindings.Count(role.id) <= MaxOf(role.cardinality, h.bindings.Count(role.id))
  {
    var keeps := (g: Harvest) => g.bindings.Count(role.id) <= MaxOf(role.cardinality, g.bindings.Count(role.id));
    forall k: nat, g: Harvest | k < |items| == |g.taken| && keeps(g)
      ensures keeps(Consider(context, role, g, k, items[k]))
    {
      ConsiderStaysWithin(context, role, g, k, items[k]);
    }
    ConsiderFirstKeeps(context, role, items, start, n, keeps);
  }

  lemma HarvestStaysWithin(context: Context, role: Role, items: seq<Item>, n: nat)
    requires n <= |items|
    ensures var h := ConsiderFirst(context, role, items, HarvestAll(context, [role], items, 0), n);
            h.bindings.Count(role.id) <= MaxOf(role.cardinality, h.bindings.Count(role.id))
  {
    RunStaysWithin(context, role, items, HarvestAll(context, [role], items, 0), n);
  }

  /** `WellOrdered` is exactly what the agreement needs: a role that asks for
      more than it takes keeps collecting when armed and stops when harvested. */
  lemma AgreementNeedsWellOrdered(id: RoleId, prompt: string, low: nat, high: nat, context: Context)
    requires low > high && forall item :: context.resolves(item)
    ensures var role := Role(id, prompt, Between(low, high), Symmetric, TAKE_ANYTHING);
            var items := SomeEdges(high + 1);
            && Distinct(items) && AllLive(context, items)
            && OfferAll(FreshTool([role], 0), context, items).bindings !=
               HarvestAll(context, [role], Live(context, items), 1).bindings
  {
    var role := Role(id, prompt, Between(low, high), Symmetric, TAKE_ANYTHING);
    var items := SomeEdges(high + 1);
    InsatiableTool(role, context, high + 1);
    AllLiveStay(context, items);
    HarvestStaysWithin(context, role, items, |items|);
    assert HarvestAll(context, [role], items, 1) ==
           ConsiderFirst(context, role, items, HarvestAll(context, [role], items, 0), |items|);
  }

  const TAKE_FACES: (Context, Bindings, Item) -> Eligibility :=
    (_, _, item: Item) => if item.Face? then Accept else WrongKind
  const TAKE_EDGES: (Context, Bindings, Item) -> Eligibility :=
    (_, _, item: Item) => if item.Edge? then Accept else WrongKind

  const FACE_THEN_EDGE: Schema := [
    Role("a", "", Exactly(1), Symmetric, TAKE_FACES),
    Role("b", "", Exactly(1), Symmetric, TAKE_EDGES)]

  lemma ConsiderTwo(context: Context, role: Role, live: seq<Item>, h: Harvest)
    requires |live| == |h.taken| == 2
    ensures ConsiderFirst(context, role, live, h, 2) ==
            Consider(context, role, Consider(context, role, h, 0, live[0]), 1, live[1])
  {
    assert ConsiderFirst(context, role, live, h, 1) ==
           Consider(context, role, ConsiderFirst(context, role, live, h, 0), 0, live[0]);
  }

  lemma TwoRolesHarvest(context: Context, face: Item, edge: Item)
    requires face.Face? && edge.Edge?
    ensures HarvestAll(context, FACE_THEN_EDGE, [edge, face], 2) ==
            Harvest(NO_BINDINGS.Push("a", face).Push("b", edge), [], [], [true, true])
  {
    var items, a, b := [edge, face], FACE_THEN_EDGE[0], FACE_THEN_EDGE[1];
    var start := HarvestAll(context, FACE_THEN_EDGE, items, 0);
    ConsiderTwo(context, a, items, start);
    var afterA := HarvestAll(context, FACE_THEN_EDGE, items, 1);
    assert a.accepts(context, start.bindings, edge) == WrongKind;
    assert afterA == Harvest(NO_BINDINGS.Push("a", face), [], [], [false, true]);
    assert a.id[0] != b.id[0];
    PushGets(NO_BINDINGS, "a", face);
    assert afterA.bindings.Count("b") == 0;
    ConsiderTwo(context, b, items, afterA);
  }

  /** With two roles the orders differ: an edge offered while a face is being
      waited for is dropped, but harvested when selected beforehand. */
  lemma TwoRolesCanDrift(context: Context, face: Item, edge: Item)
    requires face.Face? && edge.Edge? && context.resolves(face) && context.resolves(edge)
    ensures ResolveSchema(context, FACE_THEN_EDGE, [edge, face]).Complete?
    ensures OfferAll(FreshTool(FACE_THEN_EDGE, 0), context, [edge, face]).WaitingFor().Some?
  {
    var items, a, b := [edge, face], FACE_THEN_EDGE[0], FACE_THEN_EDGE[1];
    AllLiveStay(context, items);
    TwoRolesHarvest(context, face, edge);
    assert a.id[0] != b.id[0];
    PushGets(NO_BINDINGS, "a", face);
    PushGets(NO_BINDINGS.Push("a", face), "b", edge);
    var both := NO_BINDINGS.Push("a", face).Push("b", edge);
    assert FACE_THEN_EDGE[1..] == [b] && [b][1..] == [];
    assert FirstUnsatisfied([b], both).None?;
    var tool := FreshTool(FACE_THEN_EDGE, 0);
    assert items[..1] == [edge] && [edge][..0] == [];
    assert a.accepts(context, NO_BINDINGS, edge) == WrongKind;
    assert OfferAll(tool, context, [edge]) == tool;
    var after := tool.Offer(context, face).0;
    assert after.bindings == NO_BINDINGS.Push("a", face);
    assert !b.cardinality.SatisfiedBy(after.bindings.Count("b"));
    assert FirstUnsatisfied([b], after.bindings) == Some(b);
    assert after.bindings.Get("a") == [face];
    assert OfferAll(tool, context, items) == after;
  }

  /** A lone role that is full ignores every pick, even a second click on what
      it holds: only a role still taking picks can be toggled. */
  lemma FullRoleCannotBeToggled(context: Context, role: Role, tool: Armed, item: Item)
    requires tool.schema == [role]
    ensures role.cardinality.SatisfiedBy(tool.bindings.Count(role.id)) &&
            !role.cardinality.AcceptsMore(tool.bindings.Count(role.id)) ==>
              tool.Offer(context, item) == (tool, false)
    ensures item in tool.bindings.Get(role.id) ==>
              (tool.Offer(context, item).1 <==>
               !role.cardinality.SatisfiedBy(tool.bindings.Count(role.id)) ||
               role.cardinality.AcceptsMore(tool.bindings.Count(role.id)))
  {
    assert FirstUnsatisfied([role][1..], tool.bindings).None?;
    assert LastWithRoom([role][..0], tool.bindings).None?;
  }
}
