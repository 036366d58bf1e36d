/**
  What becomes of a selection: every item is accounted for, an edge finish
  depends on the live edges alone, and a face role on the first live face.
*/
module InvocationSelections {
  import opened Invocation
  import opened InvocationProperties

  // -- conservation ----------------------------------------------------------

  function BoundItems(bound: seq<Bound>): seq<Item> {
    if bound == [] then [] else BoundItems(bound[..|bound| - 1]) + bound[|bound| - 1].items
  }

  function RejectedItems(rejected: seq<Rejection>): (r: seq<Item>)
    ensures |r| == |rejected| && forall i :: 0 <= i < |r| ==> r[i] == rejected[i].item
  {
    seq(|rejected|, i requires 0 <= i < |rejected| => rejected[i].item)
  }

  function TakenItems(live: seq<Item>, taken: seq<bool>): seq<Item>
    requires |taken| == |live|
  {
    if live == [] then []
    else
      var n := |live| - 1;
      TakenItems(live[..n], taken[..n]) + (if taken[n] then [live[n]] else [])
  }

  ghost predicate AllSymmetric(schema: Schema) {
    forall i :: 0 <= i < |schema| ==> schema[i].source == Symmetric
  }

  ghost predicate DistinctRoles(schema: Schema) {
    forall i, j :: 0 <= i < j < |schema| ==> schema[i].id != schema[j].id
  }

  lemma {:induction false} PushBinds(bound: seq<Bound>, k: nat, item: Item)
    requires k < |bound|
    ensures multiset(BoundItems(bound[k := Bound(bound[k].role, bound[k].items + [item])])) ==
            multiset(BoundItems(bound)) + multiset{item}
  {
    var n := |bound| - 1;
    var after := bound[k := Bound(bound[k].role, bound[k].items + [item])];
    if k == n {
      assert after[..n] == bound[..n];
    } else {
      PushBinds(bound[..n], k, item);
      assert after[..n] == bound[..n][k := Bound(bound[k].role, bound[k].items + [item])];
    }
  }

  lemma PushAdds(bindings: Bindings, role: RoleId, item: Item)
    ensures multiset(BoundItems(bindings.Push(role, item).bound)) ==
            multiset(BoundItems(bindings.bound)) + multiset{item}
  {
    var k := bindings.Slot(role);
    if k < |bindings.bound| {
      PushBinds(bindings.bound, k, item);
    } else {
      assert bindings.Push(role, item).bound[..k] == bindings.bound;
    }
  }

  lemma TakenLast(live: seq<Item>, taken: seq<bool>, init: seq<Item>, before: seq<bool>)
    requires |taken| == |live| && live != [] && init == live[..|live| - 1] && before == taken[..|live| - 1]
    ensures multiset(TakenItems(live, taken)) ==
            multiset(TakenItems(init, before)) + (if taken[|live| - 1] then multiset{live[|live| - 1]} else multiset{})
  {
  }

  lemma UntakenLast(live: seq<Item>, taken: seq<bool>, init: seq<Item>, before: seq<bool>)
    requires |taken| == |live| && live != [] && init == live[..|live| - 1] && before == taken[..|live| - 1]
    ensures multiset(Untaken(live, taken)) ==
            multiset(Untaken(init, before)) + (if taken[|live| - 1] then multiset{} else multiset{live[|live| - 1]})
  {
  }

  lemma OthersBefore(live: seq<Item>, taken: seq<bool>, after: seq<bool>, k: nat, before: seq<bool>, later: seq<bool>)
    requires |after| == |taken| == |live| && k < |live| - 1 && !taken[k] && after[k]
    requires forall i :: 0 <= i < |live| && i != k ==> after[i] == taken[i]
    requires before == taken[..|live| - 1] && later == after[..|live| - 1]
    ensures !before[k] && later[k] && after[|live| - 1] == taken[|live| - 1]
    ensures forall i :: 0 <= i < |live| - 1 && i != k ==> later[i] == before[i]
  {
  }

  lemma OneMoreBelow(a: multiset<Item>, t: multiset<Item>, below: multiset<Item>, before: multiset<Item>,
                     x: multiset<Item>, last: multiset<Item>)
    requires a == below + last && t == before + last && below == before + x
    ensures a == t + x
  {
  }

  lemma {:induction false} TakingMore(live: seq<Item>, taken: seq<bool>, after: seq<bool>, k: nat)
    requires |after| == |taken| == |live| && k < |live| && !taken[k] && after[k]
    requires forall i :: 0 <= i < |live| && i != k ==> after[i] == taken[i]
    ensures multiset(TakenItems(live, after)) == multiset(TakenItems(live, taken)) + multiset{live[k]}
  {
    var n := |live| - 1;
    var init, before, later := live[..n], taken[..n], after[..n];
    TakenLast(live, taken, init, before);
    TakenLast(live, after, init, later);
    if k == n {
      assert later == before;
    } else {
      OthersBefore(live, taken, after, k, before, later);
      TakingMore(init, before, later, k);
      OneMoreBelow(multiset(TakenItems(live, after)), multiset(TakenItems(live, taken)),
                   multiset(TakenItems(init, later)), multiset(TakenItems(init, before)),
                   multiset{live[k]}, if taken[n] then multiset{live[n]} else multiset{});
    }
  }

  lemma TakingOne(live: seq<Item>, taken: seq<bool>, k: nat)
    requires |taken| == |live| && k < |live| && !taken[k]
    ensures multiset(TakenItems(live, taken[k := true])) == multiset(TakenItems(live, taken)) + multiset{live[k]}
  {
    TakingMore(live, taken, taken[k := true], k);
  }

  lemma LastItem(live: seq<Item>, init: seq<Item>)
    requires live != [] && init == live[..|live| - 1]
    ensures multiset(live) == multiset(init) + multiset{live[|live| - 1]}
  {
    assert live == init + [live[|live| - 1]];
  }

  lemma SplitsWithLast(all: multiset<Item>, t: multiset<Item>, u: multiset<Item>, init: multiset<Item>,
                       before: multiset<Item>, rest: multiset<Item>, last: multiset<Item>, taken: bool)
    requires all == init + last && init == before + rest
    requires t == before + (if taken then last else multiset{}) && u == rest + (if taken then multiset{} else last)
    ensures all == t + u
  {
  }

  lemma {:induction false} TakenOrNot(live: seq<Item>, taken: seq<bool>)
    requires |taken| == |live|
    ensures multiset(live) == multiset(TakenItems(live, taken)) + multiset(Untaken(live, taken))
  {
    if live != [] {
      var n := |live| - 1;
      var init, before := live[..n], taken[..n];
      TakenOrNot(init, before);
      TakenLast(live, taken, init, before);
      UntakenLast(live, taken, init, before);
      LastItem(live, init);
      SplitsWithLast(multiset(live), multiset(TakenItems(live, taken)), multiset(Untaken(live, taken)),
                     multiset(init), multiset(TakenItems(init, before)), multiset(Untaken(init, before)),
                     multiset{live[n]}, taken[n]);
    }
  }

  lemma {:induction false} TakenAt(live: seq<Item>, taken: seq<bool>, x: Item) returns (i: nat)
    requires |taken| == |live| && x in TakenItems(live, taken)
    ensures i < |live| && live[i] == x && taken[i]
  {
    var n := |live| - 1;
    if taken[n] && live[n] == x {
      i := n;
    } else {
      i := TakenAt(live[..n], taken[..n], x);
    }
  }

  /** What is settled is exactly what is bound, rejected or found stale. */
  ghost predicate Accounted(live: seq<Item>, h: Harvest)
    requires |h.taken| == |live|
  {
    multiset(TakenItems(live, h.taken)) ==
    multiset(BoundItems(h.bindings.bound)) + multiset(RejectedItems(h.rejected)) + multiset(h.stale)
  }

  lemma UnsettledIsNotRejected(live: seq<Item>, h: Harvest, index: nat)
    requires |h.taken| == |live| && index < |live| && Distinct(live) && Accounted(live, h) && !h.taken[index]
    ensures !IsRejected(h.rejected, live[index])
  {
    var x := live[index];
    if IsRejected(h.rejected, x) {
      var k :| 0 <= k < |h.rejected| && h.rejected[k].item == x;
      assert RejectedItems(h.rejected)[k] == x;
      assert x in multiset(RejectedItems(h.rejected));
      assert x in multiset(TakenItems(live, h.taken));
      var i := TakenAt(live, h.taken, x);
    }
  }

  lemma SettledBinding(role: Role, live: seq<Item>, h: Harvest, index: nat)
    requires |h.taken| == |live| && index < |live| && Accounted(live, h) && !h.taken[index]
    ensures Accounted(live, h.(bindings := h.bindings.Push(role.id, live[index]), taken := h.taken[index := true]))
  {
    TakingOne(live, h.taken, index);
    PushAdds(h.bindings, role.id, live[index]);
  }

  lemma RejectedOneMore(rejected: seq<Rejection>, r: Rejection)
    ensures multiset(RejectedItems(rejected + [r])) == multiset(RejectedItems(rejected)) + multiset{r.item}
  {
    assert RejectedItems(rejected + [r]) == RejectedItems(rejected) + [r.item];
  }

  lemma SettledRejection(live: seq<Item>, h: Harvest, index: nat, why: string)
    requires |h.taken| == |live| && index < |live| && Accounted(live, h) && !h.taken[index]
    requires !IsRejected(h.rejected, live[index])
    ensures Accounted(live, Reject(h, index, live[index], why))
  {
    TakingOne(live, h.taken, index);
    RejectedOneMore(h.rejected, Rejection(live[index], why));
  }

  lemma SettledStale(live: seq<Item>, h: Harvest, index: nat)
    requires |h.taken| == |live| && index < |live| && Accounted(live, h) && !h.taken[index]
    ensures Accounted(live, h.(stale := h.stale + [live[index]], taken := h.taken[index := true]))
  {
    TakingOne(live, h.taken, index);
  }

  lemma SettledAccounts(role: Role, live: seq<Item>, h: Harvest, index: nat, verdict: Eligibility)
    requires |h.taken| == |live| && index < |live| && Distinct(live) && Accounted(live, h) && !h.taken[index]
    ensures Accounted(live, Settled(role, h, index, live[index], verdict))
  {
    match verdict
    case Accept => SettledBinding(role, live, h, index);
    case Incompatible(why) =>
      UnsettledIsNotRejected(live, h, index);
      SettledRejection(live, h, index, why);
    case Immutable(why) =>
      UnsettledIsNotRejected(live, h, index);
      SettledRejection(live, h, index, why);
    case Stale => SettledStale(live, h, index);
    case WrongKind =>
  }

  lemma ConsiderAccounts(context: Context, role: Role, live: seq<Item>, h: Harvest, index: nat)
    requires |h.taken| == |live| && index < |live| && Distinct(live)
    requires Accounted(live, h)
    ensures Accounted(live, Consider(context, role, h, index, live[index]))
  {
    if !h.taken[index] {
      SettledAccounts(role, live, h, index, role.accepts(context, h.bindings, live[index]));
    }
  }

  lemma ConsiderFirstAccounts(context: Context, role: Role, live: seq<Item>, h: Harvest, n: nat)
    requires |h.taken| == |live| && n <= |live| && Distinct(live)
    requires Accounted(live, h)
    ensures Accounted(live, ConsiderFirst(context, role, live, h, n))
  {
    var keeps := (g: Harvest) => |g.taken| == |live| && Accounted(live, g);
    forall k: nat, g: Harvest | k < |live| == |g.taken| && keeps(g)
      ensures keeps(Consider(context, role, g, k, live[k]))
    {
      ConsiderAccounts(context, role, live, g, k);
    }
    ConsiderFirstKeeps(context, role, live, h, n, keeps);
  }

  lemma {:induction false} NothingTaken(live: seq<Item>)
    ensures TakenItems(live, seq(|live|, _ => false)) == []
  {
    if live != [] {
      var n := |live| - 1;
      NothingTaken(live[..n]);
      assert seq(|live|, _ => false)[..n] == seq(n, _ => false);
    }
  }

  lemma StartAccounts(live: seq<Item>)
    ensures Accounted(live, Harvest(NO_BINDINGS, [], [], seq(|live|, _ => false)))
  {
    NothingTaken(live);
  }

  lemma {:induction false} HarvestAccounts(context: Context, schema: Schema, live: seq<Item>, n: nat)
    requires n <= |schema| && AllSymmetric(schema) && Distinct(live)
    ensures Accounted(live, HarvestAll(context, schema, live, n))
  {
    if n == 0 {
      StartAccounts(live);
    } else {
      HarvestAccounts(context, schema, live, n - 1);
      ConsiderFirstAccounts(context, schema[n - 1], live, HarvestAll(context, schema, live, n - 1), |live|);
    }
  }

  /** Considering an item touches one role, and only while it has room. */
  ghost predicate AddsWithin(role: Role, before: Bindings, after: Bindings) {
    && (forall other :: other != role.id ==> after.Get(other) == before.Get(other))
    && (before.Count(role.id) <= MaxOf(role.cardinality, before.Count(role.id)) ==>
        after.Count(role.id) <= MaxOf(role.cardinality, after.Count(role.id)))
  }

  lemma ConsiderWithin(context: Context, role: Role, start: Bindings, h: Harvest, index: nat, item: Item)
    requires index < |h.taken|
    requires AddsWithin(role, start, h.bindings)
    ensures AddsWithin(role, start, Consider(context, role, h, index, item).bindings)
  {
    PushGets(h.bindings, role.id, item);
    var after := Consider(context, role, h, index, item).bindings;
    forall other | other != role.id ensures after.Get(other) == start.Get(other) {
      assert h.bindings.Get(other) == start.Get(other);
    }
  }

  lemma AddsNothing(role: Role, bindings: Bindings)
    ensures AddsWithin(role, bindings, bindings)
  {
  }

  lemma ConsiderFirstWithin(context: Context, role: Role, live: seq<Item>, h: Harvest, n: nat)
    requires |h.taken| == |live| && n <= |live|
    ensures AddsWithin(role, h.bindings, ConsiderFirst(context, role, live, h, n).bindings)
  {
    var keeps := (g: Harvest) => AddsWithin(role, h.bindings, g.bindings);
    AddsNothing(role, h.bindings);
    forall k: nat, g: Harvest | k < |live| == |g.taken| && keeps(g)
      ensures keeps(Consider(context, role, g, k, live[k]))
    {
      ConsiderWithin(context, role, h.bindings, g, k, live[k]);
    }
    ConsiderFirstKeeps(context, role, live, h, n, keeps);
  }

  /** Roles harvested so far are within their maximum; the rest hold nothing. */
  ghost predicate RoleWithin(role: Role, bindings: Bindings, harvested: bool) {
    bindings.Count(role.id) <= if harvested then MaxOf(role.cardinality, bindings.Count(role.id)) else 0
  }

  lemma {:induction false} HarvestWithin(context: Context, schema: Schema, live: seq<Item>, n: nat, i: nat)
    requires n <= |schema| && i < |schema| && AllSymmetric(schema) && DistinctRoles(schema)
    ensures RoleWithin(schema[i], HarvestAll(context, schema, live, n).bindings, i < n)
  {
    if n > 0 {
      var before := HarvestAll(context, schema, live, n - 1);
      HarvestWithin(context, schema, live, n - 1, i);
      ConsiderFirstWithin(context, schema[n - 1], live, before, |live|);
      HarvestStep(schema, before.bindings, HarvestAll(context, schema, live, n).bindings, n, i);
    }
  }

  lemma HarvestStep(schema: Schema, before: Bindings, after: Bindings, n: nat, i: nat)
    requires 0 < n <= |schema| && i < |schema| && DistinctRoles(schema)
    requires AddsWithin(schema[n - 1], before, after)
    requires RoleWithin(schema[i], before, i < n - 1)
    ensures RoleWithin(schema[i], after, i < n)
  {
    if i != n - 1 {
      assert after.Get(schema[i].id) == before.Get(schema[i].id);
    }
  }

  lemma Pieces(all: multiset<Item>, live: multiset<Item>, gone: multiset<Item>, taken: multiset<Item>,
               untaken: multiset<Item>, bound: multiset<Item>, rejected: multiset<Item>, stale: multiset<Item>)
    requires all == live + gone && live == taken + untaken && taken == bound + rejected + stale
    ensures all == bound + rejected + (gone + stale) + untaken
  {
  }

  /** Where every item of a selection is once its live ones are harvested. */
  lemma LiveConserved(context: Context, selection: seq<Item>, live: seq<Item>, h: Harvest)
    requires live == Live(context, selection) && |h.taken| == |live| && Accounted(live, h)
    ensures multiset(selection) ==
            multiset(BoundItems(h.bindings.bound)) + multiset(RejectedItems(h.rejected)) +
            multiset(Gone(context, selection) + h.stale) + multiset(Untaken(live, h.taken))
  {
    LiveSplits(context, selection);
    TakenOrNot(live, h.taken);
    Pieces(multiset(selection), multiset(live), multiset(Gone(context, selection)),
           multiset(TakenItems(live, h.taken)), multiset(Untaken(live, h.taken)),
           multiset(BoundItems(h.bindings.bound)), multiset(RejectedItems(h.rejected)), multiset(h.stale));
  }

  lemma RolesWithin(context: Context, schema: Schema, live: seq<Item>)
    requires AllSymmetric(schema) && DistinctRoles(schema)
    ensures var bindings := HarvestAll(context, schema, live, |schema|).bindings;
            forall i :: 0 <= i < |schema| ==> RoleWithin(schema[i], bindings, true)
  {
    forall i | 0 <= i < |schema|
      ensures RoleWithin(schema[i], HarvestAll(context, schema, live, |schema|).bindings, true)
    {
      HarvestWithin(context, schema, live, |schema|, i);
    }
  }

  /** For harvested roles with distinct ids and a selection without repeats,
      every selected item is in exactly one of bound, rejected, stale and
      extraneous, bound to one role only, and no role is over its maximum. */
  lemma SelectionConserved(context: Context, schema: Schema, selection: seq<Item>)
    requires AllSymmetric(schema) && DistinctRoles(schema) && Distinct(selection)
    ensures var bindings := HarvestAll(context, schema, Live(context, selection), |schema|).bindings;
            var resolution := ResolveSchema(context, schema, selection);
            && (!resolution.InvalidSelection? ==> resolution.bindings == bindings)
            && multiset(selection) ==
               multiset(BoundItems(bindings.bound)) + multiset(RejectedItems(resolution.diagnostics.rejected)) +
               multiset(resolution.diagnostics.stale) + multiset(resolution.diagnostics.extraneous)
            && (forall x :: x in multiset(selection) ==> multiset(selection)[x] == 1)
            && (forall i :: 0 <= i < |schema| ==> RoleWithin(schema[i], bindings, true))
  {
    var live := Live(context, selection);
    LiveKeepsDistinct(context, selection);
    HarvestAccounts(context, schema, live, |schema|);
    LiveConserved(context, selection, live, HarvestAll(context, schema, live, |schema|));
    RolesWithin(context, schema, live);
    DistinctOnce(selection);
  }

  lemma {:induction false} DistinctOnce(items: seq<Item>)
    requires Distinct(items)
    ensures forall x :: x in multiset(items) ==> multiset(items)[x] == 1
  {
    if items != [] {
      var n := |items| - 1;
      DistinctOnce(items[..n]);
      assert items == items[..n] + [items[n]];
      assert items[n] !in items[..n];
    }
  }

  // -- edge finish -----------------------------------------------------------

  function Edges(items: seq<Item>): seq<Item> {
    if items == [] then []
    else Edges(items[..|items| - 1]) + (if items[|items| - 1].Edge? then [items[|items| - 1]] else [])
  }

  function LiveEdges(context: Context, selection: seq<Item>): seq<Item> {
    Edges(Live(context, selection))
  }

  /** All on one body that may be edited. */
  ghost predicate OneEditableBody(context: Context, items: seq<Item>) {
    forall i :: 0 <= i < |items| ==> context.editable(items[i].body) && items[i].body == items[0].body
  }

  function BoundAs(role: RoleId, items: seq<Item>): Bindings {
    if items == [] then NO_BINDINGS else Bindings([Bound(role, items)])
  }

  lemma BoundAsGets(role: RoleId, items: seq<Item>)
    ensures BoundAs(role, items).Get(role) == items
  {
  }

  lemma PushOntoRole(role: RoleId, items: seq<Item>, item: Item)
    ensures BoundAs(role, items).Push(role, item) == BoundAs(role, items + [item])
  {
    var bound := BoundAs(role, items).bound;
    if items == [] {
      assert items + [item] == [item];
      assert bound + [Bound(role, [item])] == [Bound(role, items + [item])];
    } else {
      assert bound[0 := Bound(role, items + [item])] == [Bound(role, items + [item])];
    }
  }

  ghost predicate EdgesSoFar(context: Context, live: seq<Item>, h: Harvest, n: nat)
    requires n <= |live| == |h.taken|
  {
    var edges := Edges(live[..n]);
    && (h.rejected == [] <==> OneEditableBody(context, edges))
    && (h.rejected == [] ==> h.bindings == BoundAs(EDGES_TO_FINISH, edges))
    && (forall k :: n <= k < |live| ==> !h.taken[k])
  }

  lemma {:induction false} EdgesMembers(items: seq<Item>)
    ensures forall i :: 0 <= i < |Edges(items)| ==> Edges(items)[i].Edge? && Edges(items)[i] in items
    ensures forall x :: x in items && x.Edge? ==> x in Edges(items)
  {
    if items != [] {
      EdgesMembers(items[..|items| - 1]);
      assert items == items[..|items| - 1] + [items[|items| - 1]];
    }
  }

  lemma OneBodyGrows(context: Context, edges: seq<Item>, edge: Item)
    ensures OneEditableBody(context, edges + [edge]) <==>
            OneEditableBody(context, edges) && context.editable(edge.body) &&
            (edges != [] ==> edge.body == edges[0].body)
  {
    var next := edges + [edge];
    assert forall i :: 0 <= i < |edges| ==> next[i] == edges[i];
    assert next[|edges|] == edge;
  }

  lemma EdgeAccepted(context: Context, edges: seq<Item>, edge: Item)
    requires edge.Edge? && OneEditableBody(context, edges)
    ensures EDGE_ROLE.accepts(context, BoundAs(EDGES_TO_FINISH, edges), edge).Accept? <==>
            OneEditableBody(context, edges + [edge])
  {
    BoundAsGets(EDGES_TO_FINISH, edges);
    OneBodyGrows(context, edges, edge);
  }

  /** What an edge role does with an item it has not settled. */
  lemma EdgeRoleConsiders(context: Context, h: Harvest, n: nat, item: Item)
    requires n < |h.taken| && !h.taken[n]
    ensures var after := Consider(context, EDGE_ROLE, h, n, item);
            var eligibility := EDGE_ROLE.accepts(context, h.bindings, item);
            && (forall k :: n < k < |h.taken| ==> after.taken[k] == h.taken[k])
            && (!item.Edge? ==> after == h)
            && (eligibility.Accept? ==>
                after.rejected == h.rejected && after.bindings == h.bindings.Push(EDGES_TO_FINISH, item))
            && (item.Edge? && !eligibility.Accept? ==> after.rejected != [])
            && (h.rejected != [] ==> after.rejected != [])
  {
    assert EDGE_ROLE.accepts(context, h.bindings, item) == AcceptsFinishEdge(context, h.bindings, item);
    assert EDGE_ROLE.cardinality == AtLeast(1) && EDGE_ROLE.id == EDGES_TO_FINISH;
    if IsRejected(h.rejected, item) {
      assert h.rejected != [];
    }
  }

  lemma EdgeConsidered(context: Context, live: seq<Item>, h: Harvest, n: nat)
    requires n < |live| == |h.taken|
    requires EdgesSoFar(context, live, h, n)
    ensures EdgesSoFar(context, live, Consider(context, EDGE_ROLE, h, n, live[n]), n + 1)
  {
    var edges := Edges(live[..n]);
    assert live[..n + 1][..n] == live[..n];
    EdgeRoleConsiders(context, h, n, live[n]);
    if live[n].Edge? {
      assert Edges(live[..n + 1]) == edges + [live[n]];
      OneBodyGrows(context, edges, live[n]);
      PushOntoRole(EDGES_TO_FINISH, edges, live[n]);
      if OneEditableBody(context, edges) {
        EdgeAccepted(context, edges, live[n]);
      }
    } else {
      assert Edges(live[..n + 1]) == edges;
    }
  }

  lemma {:induction false} EdgesHarvested(context: Context, live: seq<Item>, start: Harvest, n: nat)
    requires n <= |live| == |start.taken| && EdgesSoFar(context, live, start, 0)
    ensures EdgesSoFar(context, live, ConsiderFirst(context, EDGE_ROLE, live, start, n), n)
  {
    if n > 0 {
      EdgesHarvested(context, live, start, n - 1);
      EdgeConsidered(context, live, ConsiderFirst(context, EDGE_ROLE, live, start, n - 1), n - 1);
    }
  }

  /** A lone role concludes by its own count. */
  lemma LoneRoleConcludes(role: Role, bindings: Bindings, diagnostics: Diagnostics)
    ensures Conclude([role], bindings, diagnostics) ==
            if diagnostics.rejected != [] then InvalidSelection(diagnostics)
            else if role.cardinality.SatisfiedBy(bindings.Count(role.id)) then Complete(bindings, diagnostics)
            else NeedsOperands(role.id, role.prompt, bindings, diagnostics)
  {
    assert FirstUnsatisfied([role][1..], bindings).None?;
  }

  lemma LoneRoleResolution(context: Context, role: Role, selection: seq<Item>)
    requires role.source == Symmetric
    ensures var live := Live(context, selection);
            var h := ConsiderFirst(context, role, live, HarvestAll(context, [role], live, 0), |live|);
            var resolution := ResolveSchema(context, [role], selection);
            && (resolution.InvalidSelection? <==> h.rejected != [])
            && (resolution.Complete? <==> h.rejected == [] && role.cardinality.SatisfiedBy(h.bindings.Count(role.id)))
            && (!resolution.InvalidSelection? ==> resolution.bindings == h.bindings)
  {
    var live := Live(context, selection);
    var h := HarvestAll(context, [role], live, 1);
    assert h == ConsiderFirst(context, role, live, HarvestAll(context, [role], live, 0), |live|);
    LoneRoleConcludes(role, h.bindings,
                      Diagnostics(Untaken(live, h.taken), h.rejected, Gone(context, selection) + h.stale));
  }

  /** An edge finish completes exactly when something live is an edge and all
      live edges are on one editable body; it then binds those edges in order.
      With no live edge it asks; otherwise it refuses. */
  lemma EdgeFinishResolution(context: Context, selection: seq<Item>)
    ensures var edges := LiveEdges(context, selection);
            var resolution := ResolveSchema(context, EDGE_FINISH, selection);
            && (resolution.Complete? <==> edges != [] && OneEditableBody(context, edges))
            && (resolution.NeedsOperands? <==> edges == [])
            && (resolution.InvalidSelection? <==> edges != [] && !OneEditableBody(context, edges))
            && (!resolution.InvalidSelection? ==> resolution.bindings == BoundAs(EDGES_TO_FINISH, edges))
  {
    var live := Live(context, selection);
    EdgesHarvested(context, live, HarvestAll(context, EDGE_FINISH, live, 0), |live|);
    assert live[..|live|] == live;
    LoneRoleResolution(context, EDGE_ROLE, selection);
    BoundAsGets(EDGES_TO_FINISH, Edges(live));
    assert EDGE_ROLE.cardinality == AtLeast(1);
  }

  lemma {:induction false} EdgesCount(items: seq<Item>, x: Item)
    ensures multiset(Edges(items))[x] == if x.Edge? then multiset(items)[x] else 0
  {
    if items != [] {
      EdgesCount(items[..|items| - 1], x);
      assert items == items[..|items| - 1] + [items[|items| - 1]];
    }
  }

  ghost predicate SameKind(a: Resolution, b: Resolution) {
    && (a.Complete? <==> b.Complete?)
    && (a.NeedsOperands? <==> b.NeedsOperands?)
    && (a.InvalidSelection? <==> b.InvalidSelection?)
  }

  lemma OneBodyPermutes(context: Context, items: seq<Item>, others: seq<Item>)
    requires multiset(items) == multiset(others)
    requires OneEditableBody(context, items)
    ensures OneEditableBody(context, others)
  {
    forall i | 0 <= i < |others| ensures context.editable(others[i].body) && others[i].body == others[0].body {
      assert others[i] in multiset(items) && others[0] in multiset(items);
      assert others[i] in items && others[0] in items;
    }
  }

  /** The order of a selection changes neither the outcome of an edge finish
      nor which edges it binds. */
  lemma EdgeFinishIgnoresOrder(context: Context, selection: seq<Item>, other: seq<Item>)
    requires multiset(selection) == multiset(other)
    ensures var a := ResolveSchema(context, EDGE_FINISH, selection);
            var b := ResolveSchema(context, EDGE_FINISH, other);
            && SameKind(a, b)
            && (a.Complete? ==> multiset(a.bindings.Get(EDGES_TO_FINISH)) == multiset(b.bindings.Get(EDGES_TO_FINISH)))
  {
    var edges, others := LiveEdges(context, selection), LiveEdges(context, other);
    LivePermutes(context, selection, other);
    forall x ensures multiset(edges)[x] == multiset(others)[x] {
      EdgesCount(Live(context, selection), x);
      EdgesCount(Live(context, other), x);
    }
    assert multiset(edges) == multiset(others);
    assert |edges| == |multiset(edges)| && |others| == |multiset(others)|;
    EdgeFinishResolution(context, selection);
    EdgeFinishResolution(context, other);
    if OneEditableBody(context, edges) {
      OneBodyPermutes(context, edges, others);
    }
    if OneEditableBody(context, others) {
      OneBodyPermutes(context, others, edges);
    }
  }

  // -- a planar face ---------------------------------------------------------

  function Faces(items: seq<Item>): seq<Item> {
    if items == [] then [] else if items[0].Face? then [items[0]] + Faces(items[1..]) else Faces(items[1..])
  }

  function LiveFaces(context: Context, selection: seq<Item>): seq<Item> {
    Faces(Live(context, selection))
  }

  predicate Usable(context: Context, face: Item) {
    context.editable(face.body) && context.planar(face)
  }

  ghost predicate FacesSoFar(context: Context, live: seq<Item>, h: Harvest, n: nat)
    requires n <= |live| == |h.taken|
  {
    var faces := Faces(live[..n]);
    && (h.rejected == [] <==> faces == [] || Usable(context, faces[0]))
    && (h.rejected == [] ==> h.bindings == BoundAs(TARGET_FACE, if faces == [] then [] else [faces[0]]))
    && (forall k :: n <= k < |live| ==> !h.taken[k])
  }

  lemma {:induction false} FacesAppend(items: seq<Item>, item: Item)
    ensures Faces(items + [item]) == Faces(items) + (if item.Face? then [item] else [])
  {
    if items != [] {
      FacesAppend(items[1..], item);
      assert (items + [item])[1..] == items[1..] + [item];
    }
  }

  lemma FaceConsidered(context: Context, live: seq<Item>, h: Harvest, n: nat)
    requires n < |live| == |h.taken|
    requires FacesSoFar(context, live, h, n)
    ensures FacesSoFar(context, live, Consider(context, FACE_ROLE, h, n, live[n]), n + 1)
  {
    var faces := Faces(live[..n]);
    assert live[..n + 1] == live[..n] + [live[n]];
    FacesAppend(live[..n], live[n]);
    PushOntoRole(TARGET_FACE, [], live[n]);
    BoundAsGets(TARGET_FACE, if faces == [] then [] else [faces[0]]);
    assert FACE_ROLE.accepts(context, h.bindings, live[n]) == AcceptsPlanarFace(context, h.bindings, live[n]);
    assert FACE_ROLE.cardinality == Exactly(1);
  }

  lemma {:induction false} FacesHarvested(context: Context, live: seq<Item>, start: Harvest, n: nat)
    requires n <= |live| == |start.taken| && FacesSoFar(context, live, start, 0)
    ensures FacesSoFar(context, live, ConsiderFirst(context, FACE_ROLE, live, start, n), n)
  {
    if n > 0 {
      FacesHarvested(context, live, start, n - 1);
      FaceConsidered(context, live, ConsiderFirst(context, FACE_ROLE, live, start, n - 1), n - 1);
    }
  }

  /** A planar-face feature is decided by the first live face alone. */
  lemma PlanarFaceResolution(context: Context, selection: seq<Item>)
    ensures var faces := LiveFaces(context, selection);
            var resolution := ResolveSchema(context, PLANAR_FACE_FEATURE, selection);
            && (resolution.Complete? <==> faces != [] && Usable(context, faces[0]))
            && (resolution.NeedsOperands? <==> faces == [])
            && (resolution.InvalidSelection? <==> faces != [] && !Usable(context, faces[0]))
            && (resolution.Complete? ==> resolution.bindings == BoundAs(TARGET_FACE, [faces[0]]))
  {
    var live := Live(context, selection);
    FacesHarvested(context, live, HarvestAll(context, PLANAR_FACE_FEATURE, live, 0), |live|);
    assert live[..|live|] == live;
    LoneRoleResolution(context, FACE_ROLE, selection);
    BoundAsGets(TARGET_FACE, if Faces(live) == [] then [] else [Faces(live)[0]]);
    assert FACE_ROLE.cardinality == Exactly(1);
  }

  ghost predicate SameFace(context: Context, selection: seq<Item>, other: seq<Item>) {
    var a, b := ResolveSchema(context, PLANAR_FACE_FEATURE, selection),
                ResolveSchema(context, PLANAR_FACE_FEATURE, other);
    SameKind(a, b) && (a.Complete? ==> a.bindings == b.bindings)
  }

  lemma {:induction false} FacesMembers(items: seq<Item>)
    ensures forall x :: x in Faces(items) <==> x in items && x.Face?
  {
    if items != [] {
      FacesMembers(items[1..]);
      assert items == [items[0]] + items[1..];
    }
  }

  lemma LiveFacesMembers(context: Context, selection: seq<Item>)
    ensures forall x :: x in LiveFaces(context, selection) <==> x in selection && context.resolves(x) && x.Face?
  {
    LiveMembers(context, selection);
    FacesMembers(Live(context, selection));
  }

  /** The same picks with one of them first. */
  function Leading(items: seq<Item>, k: nat): (r: seq<Item>)
    requires k < |items|
  {
    [items[k]] + (items[..k] + items[k + 1..])
  }

  lemma LeadingPermutes(context: Context, items: seq<Item>, k: nat)
    requires k < |items| && items[k].Face? && context.resolves(items[k])
    ensures multiset(Leading(items, k)) == multiset(items)
    ensures LiveFaces(context, Leading(items, k)) != [] && LiveFaces(context, Leading(items, k))[0] == items[k]
  {
    assert items == items[..k] + [items[k]] + items[k + 1..];
    assert Leading(items, k)[1..] == items[..k] + items[k + 1..];
  }

  lemma LeadingResolution(context: Context, selection: seq<Item>, f: Item) returns (other: seq<Item>)
    requires f in LiveFaces(context, selection)
    ensures multiset(other) == multiset(selection)
    ensures var r := ResolveSchema(context, PLANAR_FACE_FEATURE, other);
            if Usable(context, f) then r.Complete? && r.bindings == BoundAs(TARGET_FACE, [f]) else r.InvalidSelection?
  {
    LiveFacesMembers(context, selection);
    var i :| 0 <= i < |selection| && selection[i] == f;
    other := Leading(selection, i);
    LeadingPermutes(context, selection, i);
    PlanarFaceResolution(context, other);
  }

  lemma OrderDecides(context: Context, selection: seq<Item>, f: Item, g: Item)
    requires f in LiveFaces(context, selection) && g in LiveFaces(context, selection)
    requires f != g && (Usable(context, f) || Usable(context, g))
    ensures exists other :: multiset(other) == multiset(selection) && !SameFace(context, selection, other)
  {
    var first := LeadingResolution(context, selection, f);
    var second := LeadingResolution(context, selection, g);
    BoundAsGets(TARGET_FACE, [f]);
    BoundAsGets(TARGET_FACE, [g]);
    assert [f][0] != [g][0];
    assert !(SameFace(context, selection, first) && SameFace(context, selection, second));
  }

  /** The order of a selection never matters to a planar-face feature. */
  ghost predicate OrderIndifferent(context: Context, selection: seq<Item>) {
    forall other :: multiset(other) == multiset(selection) ==> SameFace(context, selection, other)
  }

  /** No two of its live faces differ, unless neither can be used. */
  ghost predicate OneUsableFace(context: Context, selection: seq<Item>) {
    forall f, g :: f in LiveFaces(context, selection) && g in LiveFaces(context, selection) ==>
      f == g || (!Usable(context, f) && !Usable(context, g))
  }

  /** The order matters exactly when two live faces differ and one of them can
      be used. */
  lemma FaceOrderMatters(context: Context, selection: seq<Item>)
    ensures OrderIndifferent(context, selection) <==> OneUsableFace(context, selection)
  {
    if OneUsableFace(context, selection) {
      forall other | multiset(other) == multiset(selection) ensures SameFace(context, selection, other) {
        UniformFacesAgree(context, selection, other);
      }
    } else {
      var f, g :| f in LiveFaces(context, selection) && g in LiveFaces(context, selection)
        && f != g && (Usable(context, f) || Usable(context, g));
      OrderDecides(context, selection, f, g);
    }
  }

  lemma UniformFacesAgree(context: Context, selection: seq<Item>, other: seq<Item>)
    requires multiset(selection) == multiset(other) && OneUsableFace(context, selection)
    ensures SameFace(context, selection, other)
  {
    LiveFacesMembers(context, selection);
    LiveFacesMembers(context, other);
    PlanarFaceResolution(context, selection);
    PlanarFaceResolution(context, other);
    var faces, others := LiveFaces(context, selection), LiveFaces(context, other);
    forall x ensures x in faces <==> x in others {
      assert x in selection <==> x in multiset(selection);
      assert x in other <==> x in multiset(other);
    }
    if faces != [] {
      assert faces[0] in others;
    }
    if others != [] {
      assert others[0] in faces;
    }
  }
}
