/**
  What an armed tool keeps while picks come and the document moves on.
*/
module InvocationRuns {
  import opened Results
  import opened Invocation
  import opened InvocationProperties
  import opened InvocationSelections

  /** A pick, or the document at another revision. */
  datatype Move = Pick(context: Context, item: Item) | DocumentMoved(context: Context, revision: nat)

  function Play(tool: Armed, move: Move): Armed {
    match move
    case Pick(context, item) => tool.Offer(context, item).0
    case DocumentMoved(context, revision) => tool.Revalidate(context, revision)
  }

  function PlayAll(tool: Armed, moves: seq<Move>): Armed {
    if moves == [] then tool else Play(PlayAll(tool, moves[..|moves| - 1]), moves[|moves| - 1])
  }

  // -- lists -----------------------------------------------------------------

  lemma {:induction false} WithoutMembers(items: seq<Item>, item: Item)
    ensures forall x :: x in Without(items, item) <==> x in items && x != item
  {
    if items != [] {
      WithoutMembers(items[1..], item);
      assert items == [items[0]] + items[1..];
    }
  }

  lemma {:induction false} WithoutKeepsDistinct(items: seq<Item>, item: Item)
    requires Distinct(items)
    ensures Distinct(Without(items, item))
  {
    if items != [] {
      WithoutKeepsDistinct(items[1..], item);
      WithoutMembers(items[1..], item);
      assert items[0] !in items[1..];
      assert forall k :: 0 <= k < |Without(items[1..], item)| ==> Without(items[1..], item)[k] in items[1..];
    }
  }

  lemma {:induction false} WithoutStranger(items: seq<Item>, item: Item)
    requires item !in items
    ensures Without(items, item) == items
    ensures Without(items + [item], item) == items
  {
    if items == [] {
      assert ([] + [item])[1..] == [];
    } else {
      WithoutStranger(items[1..], item);
      assert (items + [item])[1..] == items[1..] + [item];
    }
  }

  // -- one pick --------------------------------------------------------------

  /** Too few items are bound to this role. */
  predicate Short(role: Role, bindings: Bindings) {
    !role.cardinality.SatisfiedBy(|bindings.Get(role.id)|)
  }

  /** One more item could be bound to this role. */
  predicate Roomy(role: Role, bindings: Bindings) {
    role.cardinality.AcceptsMore(|bindings.Get(role.id)|)
  }

  /** Role `i` is the first that is short, or, with none short, the last that
      is roomy. */
  ghost predicate InTurn(schema: Schema, bindings: Bindings, i: nat) {
    && i < |schema|
    && if exists k :: 0 <= k < |schema| && Short(schema[k], bindings)
       then Short(schema[i], bindings) && forall k :: 0 <= k < i ==> !Short(schema[k], bindings)
       else Roomy(schema[i], bindings) && forall k :: i < k < |schema| ==> !Roomy(schema[k], bindings)
  }

  lemma {:induction false} FirstShort(schema: Schema, bindings: Bindings)
    ensures var r := FirstUnsatisfied(schema, bindings);
            && (r.None? <==> forall k :: 0 <= k < |schema| ==> !Short(schema[k], bindings))
            && (r.Some? ==> exists i :: 0 <= i < |schema| && FirstShortAt(schema, bindings, i) && r.value == schema[i])
  {
    if schema != [] {
      FirstShort(schema[1..], bindings);
      if Short(schema[0], bindings) {
        assert FirstShortAt(schema, bindings, 0);
      } else if FirstUnsatisfied(schema[1..], bindings).Some? {
        var i :| 0 <= i < |schema| - 1 && FirstShortAt(schema[1..], bindings, i) &&
                 FirstUnsatisfied(schema[1..], bindings).value == schema[1..][i];
        FirstShortLater(schema, bindings, i);
      } else {
        forall k | 0 <= k < |schema| ensures !Short(schema[k], bindings) {
          assert k > 0 ==> schema[1..][k - 1] == schema[k];
        }
      }
    }
  }

  lemma FirstShortLater(schema: Schema, bindings: Bindings, i: nat)
    requires schema != [] && !Short(schema[0], bindings) && FirstShortAt(schema[1..], bindings, i)
    ensures FirstShortAt(schema, bindings, i + 1)
  {
    forall k | 0 <= k < i + 1 ensures !Short(schema[k], bindings) {
      assert k > 0 ==> schema[1..][k - 1] == schema[k];
    }
  }

  ghost predicate FirstShortAt(schema: Schema, bindings: Bindings, i: nat) {
    i < |schema| && Short(schema[i], bindings) && forall k :: 0 <= k < i ==> !Short(schema[k], bindings)
  }

  ghost predicate LastRoomyAt(schema: Schema, bindings: Bindings, i: nat) {
    i < |schema| && Roomy(schema[i], bindings) && forall k :: i < k < |schema| ==> !Roomy(schema[k], bindings)
  }

  lemma LastRoomyEarlier(schema: Schema, bindings: Bindings, i: nat)
    requires schema != [] && !Roomy(schema[|schema| - 1], bindings)
    requires LastRoomyAt(schema[..|schema| - 1], bindings, i)
    ensures LastRoomyAt(schema, bindings, i) && schema[i] == schema[..|schema| - 1][i]
  {
  }

  lemma NoneRoomy(schema: Schema, init: Schema, bindings: Bindings)
    requires schema != [] && init == schema[..|schema| - 1] && !Roomy(schema[|schema| - 1], bindings)
    requires forall k :: 0 <= k < |init| ==> !Roomy(init[k], bindings)
    ensures forall k :: 0 <= k < |schema| ==> !Roomy(schema[k], bindings)
  {
    forall k | 0 <= k < |schema| ensures !Roomy(schema[k], bindings) {
      assert k < |init| ==> init[k] == schema[k];
    }
  }

  lemma {:induction false} LastRoomy(schema: Schema, bindings: Bindings)
    ensures var r := LastWithRoom(schema, bindings);
            && (r.None? <==> forall k :: 0 <= k < |schema| ==> !Roomy(schema[k], bindings))
            && (r.Some? ==> exists i :: 0 <= i < |schema| && LastRoomyAt(schema, bindings, i) && r.value == schema[i])
  {
    if schema != [] {
      var init, n := schema[..|schema| - 1], |schema| - 1;
      if Roomy(schema[n], bindings) {
        assert LastRoomyAt(schema, bindings, n);
      } else {
        LastRoomy(init, bindings);
        if LastWithRoom(init, bindings).Some? {
          var i :| 0 <= i < n && LastRoomyAt(init, bindings, i) && LastWithRoom(init, bindings).value == init[i];
          LastRoomyEarlier(schema, bindings, i);
        } else {
          NoneRoomy(schema, init, bindings);
        }
      }
    }
  }

  /** The role that takes the next pick, if there is one. */
  lemma TakesInTurn(tool: Armed) returns (i: nat)
    ensures tool.Taking().Some? ==> InTurn(tool.schema, tool.bindings, i) && tool.Taking().value == tool.schema[i]
    ensures tool.Taking().None? ==>
              forall k :: 0 <= k < |tool.schema| ==>
                !Short(tool.schema[k], tool.bindings) && !Roomy(tool.schema[k], tool.bindings)
  {
    i := 0;
    FirstShort(tool.schema, tool.bindings);
    LastRoomy(tool.schema, tool.bindings);
    if tool.WaitingFor().Some? {
      i :| 0 <= i < |tool.schema| && FirstShortAt(tool.schema, tool.bindings, i) &&
           tool.WaitingFor().value == tool.schema[i];
    } else if tool.Taking().Some? {
      i :| 0 <= i < |tool.schema| && LastRoomyAt(tool.schema, tool.bindings, i) &&
           tool.Taking().value == tool.schema[i];
    }
  }

  /** What a role's items come to when it is offered one. */
  function ItemsAfter(items: seq<Item>, item: Item, verdict: Eligibility): seq<Item> {
    if item in items then Without(items, item) else if verdict.Accept? then items + [item] else items
  }

  /** Why a pick is refused, if it is. */
  function Reasons(items: seq<Item>, item: Item, verdict: Eligibility): seq<Rejection> {
    if item in items then []
    else
      match verdict
      case Incompatible(why) => [Rejection(item, why)]
      case Immutable(why) => [Rejection(item, why)]
      case _ => []
  }

  /** The role takes the item as its verdict says, and no other role is
      touched. */
  ghost predicate Takes(tool: Armed, role: Role, item: Item, verdict: Eligibility, after: Armed, told: bool) {
    var items := tool.bindings.Get(role.id);
    && after.schema == tool.schema && after.resolvedAt == tool.resolvedAt
    && after.bindings.Get(role.id) == ItemsAfter(items, item, verdict)
    && (forall id :: id != role.id ==> after.bindings.Get(id) == tool.bindings.Get(id))
    && after.diagnostics.rejected == tool.diagnostics.rejected + Reasons(items, item, verdict)
    && after.diagnostics.stale == tool.diagnostics.stale
    && (told <==> after.bindings.Get(role.id) != items)
  }

  lemma TakesOff(tool: Armed, role: Role, item: Item, verdict: Eligibility)
    requires item in tool.bindings.Get(role.id)
    ensures Takes(tool, role, item, verdict, tool.(bindings := tool.bindings.Remove(role.id, item)), true)
  {
    RemoveGets(tool.bindings, role.id, item);
    WithoutMembers(tool.bindings.Get(role.id), item);
    assert tool.diagnostics.rejected + [] == tool.diagnostics.rejected;
  }

  lemma TakesOn(tool: Armed, role: Role, item: Item)
    requires item !in tool.bindings.Get(role.id)
    ensures Takes(tool, role, item, Accept, tool.(bindings := tool.bindings.Push(role.id, item)), true)
  {
    PushGets(tool.bindings, role.id, item);
    assert tool.diagnostics.rejected + [] == tool.diagnostics.rejected;
  }

  lemma TakesNothing(tool: Armed, role: Role, item: Item, verdict: Eligibility)
    requires item !in tool.bindings.Get(role.id) && (verdict.WrongKind? || verdict.Stale?)
    ensures Takes(tool, role, item, verdict, tool, false)
  {
    assert tool.diagnostics.rejected + [] == tool.diagnostics.rejected;
  }

  /** A pick goes to the role in turn: an item it holds comes off, one it
      accepts is added, one it refuses is noted with the reason, and any other
      is ignored. No other role is touched, and the answer says whether
      anything was bound or came off. */
  lemma PickMeans(tool: Armed, context: Context, item: Item) returns (i: nat)
    ensures var after, told := tool.Offer(context, item).0, tool.Offer(context, item).1;
            if tool.Taking().None? then after == tool && !told
            else InTurn(tool.schema, tool.bindings, i) &&
                 Takes(tool, tool.schema[i], item, tool.schema[i].accepts(context, tool.bindings, item), after, told)
  {
    i := TakesInTurn(tool);
    if tool.Taking().Some? {
      var role := tool.schema[i];
      var verdict := role.accepts(context, tool.bindings, item);
      if item in tool.bindings.Get(role.id) {
        TakesOff(tool, role, item, verdict);
      } else if verdict.Accept? {
        TakesOn(tool, role, item);
      } else if verdict.WrongKind? || verdict.Stale? {
        TakesNothing(tool, role, item, verdict);
      }
    }
  }

  /** A resolution that asks, asks for the first role that is short, with its
      prompt; it is complete when none is short and nothing was refused. */
  lemma AsksForTheFirstShort(context: Context, schema: Schema, selection: seq<Item>)
    ensures var r := ResolveSchema(context, schema, selection);
            && (r.NeedsOperands? ==>
                  && r.diagnostics.rejected == []
                  && exists i :: 0 <= i < |schema| && FirstShortAt(schema, r.bindings, i) &&
                                 r.role == schema[i].id && r.prompt == schema[i].prompt)
            && (r.Complete? ==>
                  r.diagnostics.rejected == [] && forall k :: 0 <= k < |schema| ==> !Short(schema[k], r.bindings))
            && (r.InvalidSelection? ==> r.diagnostics.rejected != [])
  {
    FirstShort(schema, HarvestAll(context, schema, Live(context, selection), |schema|).bindings);
  }

  // -- revalidation ----------------------------------------------------------

  lemma RetainLast(context: Context, bound: seq<Bound>, n: nat)
    requires n == |bound| - 1
    ensures multiset(BoundItems(bound)) == multiset(BoundItems(bound[..n])) + multiset(bound[n].items)
    ensures multiset(BoundItems(Bindings(bound).RetainResolvable(context).bound)) ==
            multiset(BoundItems(Bindings(bound[..n]).RetainResolvable(context).bound)) +
            multiset(Live(context, bound[n].items))
    ensures multiset(LostItems(context, bound)) ==
            multiset(LostItems(context, bound[..n])) + multiset(Gone(context, bound[n].items))
  {
    assert Bindings(bound).RetainResolvable(context).bound[..n] ==
           Bindings(bound[..n]).RetainResolvable(context).bound;
  }

  lemma Interleave(all: multiset<Item>, lost: multiset<Item>, kept: multiset<Item>, live: multiset<Item>,
                   gone: multiset<Item>)
    requires all == kept + lost
    ensures all + (live + gone) == (kept + live) + (lost + gone)
  {
  }

  lemma {:induction false} RetainSplits(context: Context, bound: seq<Bound>)
    ensures multiset(BoundItems(bound)) ==
            multiset(BoundItems(Bindings(bound).RetainResolvable(context).bound)) +
            multiset(LostItems(context, bound))
  {
    if bound != [] {
      var n := |bound| - 1;
      RetainSplits(context, bound[..n]);
      LiveSplits(context, bound[n].items);
      RetainLast(context, bound, n);
      Interleave(multiset(BoundItems(bound[..n])), multiset(LostItems(context, bound[..n])),
                 multiset(BoundItems(Bindings(bound[..n]).RetainResolvable(context).bound)),
                 multiset(Live(context, bound[n].items)), multiset(Gone(context, bound[n].items)));
    }
  }

  /** What retaining loses, gathered from the back. */
  function LostItems(context: Context, bound: seq<Bound>): seq<Item> {
    if bound == [] then []
    else LostItems(context, bound[..|bound| - 1]) + Gone(context, bound[|bound| - 1].items)
  }

  lemma {:induction false} LostFromAppends(context: Context, bound: seq<Bound>, entry: Bound)
    ensures Bindings.LostFrom(context, bound + [entry]) ==
            Bindings.LostFrom(context, bound) + Gone(context, entry.items)
  {
    if bound == [] {
      assert ([] + [entry])[1..] == [];
    } else {
      LostFromAppends(context, bound[1..], entry);
      assert (bound + [entry])[1..] == bound[1..] + [entry];
    }
  }

  lemma {:induction false} LostEitherWay(context: Context, bound: seq<Bound>)
    ensures Bindings.LostFrom(context, bound) == LostItems(context, bound)
    ensures forall x :: x in LostItems(context, bound) ==> !context.resolves(x)
  {
    if bound != [] {
      var n := |bound| - 1;
      LostEitherWay(context, bound[..n]);
      LostFromAppends(context, bound[..n], bound[n]);
      LiveMembers(context, bound[n].items);
      assert bound == bound[..n] + [bound[n]];
    }
  }

  /** At a new revision a tool keeps exactly the bindings that resolve, in
      order, and the ones that do not all move to the stale list; at the same
      revision it does nothing. */
  lemma RevalidateMovesTheLost(tool: Armed, context: Context, revision: nat)
    ensures revision == tool.resolvedAt ==> tool.Revalidate(context, revision) == tool
    ensures revision != tool.resolvedAt ==>
              var after := tool.Revalidate(context, revision);
              && (forall role :: after.bindings.Get(role) == Live(context, tool.bindings.Get(role)))
              && tool.diagnostics.stale <= after.diagnostics.stale
              && (forall x :: x in after.diagnostics.stale[|tool.diagnostics.stale|..] ==> !context.resolves(x))
              && multiset(BoundItems(tool.bindings.bound)) ==
                 multiset(BoundItems(after.bindings.bound)) +
                 multiset(after.diagnostics.stale[|tool.diagnostics.stale|..])
  {
    forall role ensures tool.bindings.RetainResolvable(context).Get(role) == Live(context, tool.bindings.Get(role)) {
      RetainGets(tool.bindings, context, role);
    }
    RetainSplits(context, tool.bindings.bound);
    LostEitherWay(context, tool.bindings.bound);
    var lost := tool.bindings.Lost(context);
    assert (tool.diagnostics.stale + lost)[|tool.diagnostics.stale|..] == lost;
  }

  // -- an armed edge finish --------------------------------------------------

  ghost predicate OneBody(items: seq<Item>) {
    forall i :: 0 <= i < |items| ==> items[i].Edge? && items[i].body == items[0].body
  }

  ghost predicate HoldsOneBodysEdges(tool: Armed) {
    && tool.schema == EDGE_FINISH
    && Distinct(tool.bindings.Get(EDGES_TO_FINISH))
    && OneBody(tool.bindings.Get(EDGES_TO_FINISH))
  }

  lemma EdgeToolTakes(tool: Armed)
    requires tool.schema == EDGE_FINISH
    ensures tool.Taking() == Some(EDGE_ROLE)
  {
    assert EDGE_FINISH == [EDGE_ROLE] && EDGE_ROLE.cardinality == AtLeast(1);
    LoneRoleTakes(EDGE_ROLE, tool.bindings, tool.diagnostics, tool.resolvedAt);
  }

  lemma {:induction false} SubsetKeepsOneBody(items: seq<Item>, fewer: seq<Item>)
    requires OneBody(items) && forall x :: x in fewer ==> x in items
    ensures OneBody(fewer)
  {
    forall i | 0 <= i < |fewer| ensures fewer[i].Edge? && fewer[i].body == fewer[0].body {
      assert fewer[i] in items && fewer[0] in items;
    }
  }

  lemma WithoutKeepsEdges(edges: seq<Item>, item: Item)
    requires Distinct(edges) && OneBody(edges)
    ensures Distinct(Without(edges, item)) && OneBody(Without(edges, item))
  {
    WithoutKeepsDistinct(edges, item);
    WithoutMembers(edges, item);
    SubsetKeepsOneBody(edges, Without(edges, item));
  }

  lemma EdgePick(tool: Armed, context: Context, item: Item)
    requires tool.schema == EDGE_FINISH
    ensures var after, edges := tool.Offer(context, item).0, tool.bindings.Get(EDGES_TO_FINISH);
            && after.schema == tool.schema
            && after.bindings ==
               if item in edges then tool.bindings.Remove(EDGES_TO_FINISH, item)
               else if AcceptsFinishEdge(context, tool.bindings, item).Accept?
               then tool.bindings.Push(EDGES_TO_FINISH, item)
               else tool.bindings
  {
    EdgeToolTakes(tool);
    assert EDGE_ROLE.id == EDGES_TO_FINISH;
    assert EDGE_ROLE.accepts(context, tool.bindings, item) == AcceptsFinishEdge(context, tool.bindings, item);
  }

  lemma AcceptedEdgeKeeps(context: Context, bindings: Bindings, edges: seq<Item>, item: Item)
    requires edges == bindings.Get(EDGES_TO_FINISH) && Distinct(edges) && OneBody(edges) && item !in edges
    requires AcceptsFinishEdge(context, bindings, item).Accept?
    ensures Distinct(edges + [item]) && OneBody(edges + [item])
  {
  }

  lemma PickKeeps(tool: Armed, context: Context, item: Item)
    requires HoldsOneBodysEdges(tool)
    ensures HoldsOneBodysEdges(tool.Offer(context, item).0)
  {
    var edges := tool.bindings.Get(EDGES_TO_FINISH);
    EdgePick(tool, context, item);
    if item in edges {
      RemoveGets(tool.bindings, EDGES_TO_FINISH, item);
      WithoutKeepsEdges(edges, item);
    } else if AcceptsFinishEdge(context, tool.bindings, item).Accept? {
      PushGets(tool.bindings, EDGES_TO_FINISH, item);
      AcceptedEdgeKeeps(context, tool.bindings, edges, item);
    }
  }

  lemma MovedKeeps(tool: Armed, context: Context, revision: nat)
    requires HoldsOneBodysEdges(tool)
    ensures HoldsOneBodysEdges(tool.Revalidate(context, revision))
  {
    var edges := tool.bindings.Get(EDGES_TO_FINISH);
    RetainGets(tool.bindings, context, EDGES_TO_FINISH);
    LiveKeepsDistinct(context, edges);
    LiveMembers(context, edges);
    SubsetKeepsOneBody(edges, Live(context, edges));
  }

  lemma {:induction false} RunKeeps(tool: Armed, moves: seq<Move>)
    requires HoldsOneBodysEdges(tool)
    ensures HoldsOneBodysEdges(PlayAll(tool, moves))
  {
    if moves != [] {
      RunKeeps(tool, moves[..|moves| - 1]);
      var before := PlayAll(tool, moves[..|moves| - 1]);
      match moves[|moves| - 1] {
        case Pick(context, item) => PickKeeps(before, context, item);
        case DocumentMoved(context, revision) => MovedKeeps(before, context, revision);
      }
    }
  }

  lemma {:induction false} EdgesKeepDistinct(items: seq<Item>)
    requires Distinct(items)
    ensures Distinct(Edges(items))
  {
    if items != [] {
      var n := |items| - 1;
      EdgesKeepDistinct(items[..n]);
      EdgesMembers(items[..n]);
      assert items[n] !in items[..n];
    }
  }

  /** Whatever a finish armed from a selection of distinct items is then put
      through, by whatever documents, its edges stay distinct and on one
      body. */
  lemma ArmedFinishStaysOnOneBody(context: Context, selection: seq<Item>, revision: nat, moves: seq<Move>)
    requires Distinct(selection) && !ResolveSchema(context, EDGE_FINISH, selection).InvalidSelection?
    ensures var resolution := ResolveSchema(context, EDGE_FINISH, selection);
            HoldsOneBodysEdges(
              PlayAll(Armed(EDGE_FINISH, resolution.bindings, resolution.diagnostics, revision), moves))
  {
    var resolution := ResolveSchema(context, EDGE_FINISH, selection);
    var edges := LiveEdges(context, selection);
    EdgeFinishResolution(context, selection);
    BoundAsGets(EDGES_TO_FINISH, edges);
    LiveKeepsDistinct(context, selection);
    EdgesKeepDistinct(Live(context, selection));
    EdgesMembers(Live(context, selection));
    RunKeeps(Armed(EDGE_FINISH, resolution.bindings, resolution.diagnostics, revision), moves);
  }

  /** Clicking an edge that binds and then clicking it again changes nothing. */
  lemma PickTwiceRestores(tool: Armed, context: Context, item: Item)
    requires tool.schema == EDGE_FINISH && item !in tool.bindings.Get(EDGES_TO_FINISH)
    requires tool.Accepts(context, item)
    ensures var once := tool.Offer(context, item);
            var twice := once.0.Offer(context, item);
            && once.1 && twice.1
            && (forall role :: twice.0.bindings.Get(role) == tool.bindings.Get(role))
            && twice.0 == tool.(bindings := twice.0.bindings)
  {
    EdgeToolTakes(tool);
    PushGets(tool.bindings, EDGES_TO_FINISH, item);
    var once := tool.Offer(context, item).0;
    EdgeToolTakes(once);
    assert EDGE_ROLE.id == EDGES_TO_FINISH;
    RemoveGets(once.bindings, EDGES_TO_FINISH, item);
    WithoutStranger(tool.bindings.Get(EDGES_TO_FINISH), item);
  }

  // -- a Boolean's two roles -------------------------------------------------

  ghost predicate NoBodyTwice(tool: Armed) {
    && tool.schema == BODY_BOOLEAN
    && tool.bindings.Count(BOOLEAN_TARGET) <= 1
    && (forall x :: x in tool.bindings.Get(BOOLEAN_TARGET) ==> x !in tool.bindings.Get(BOOLEAN_TOOLS))
  }

  lemma BooleanTakes(tool: Armed)
    requires tool.schema == BODY_BOOLEAN && tool.bindings.Count(BOOLEAN_TARGET) <= 1
    ensures tool.Taking() == Some(if tool.bindings.Count(BOOLEAN_TARGET) == 0 then TARGET_ROLE else TOOLS_ROLE)
  {
    var b := tool.bindings;
    assert BODY_BOOLEAN[1..] == [TOOLS_ROLE] && [TOOLS_ROLE][1..] == [] && BODY_BOOLEAN[..1] == [TARGET_ROLE];
    assert TARGET_ROLE.cardinality == Exactly(1) && TARGET_ROLE.id == BOOLEAN_TARGET;
    assert TOOLS_ROLE.cardinality == AtLeast(1) && TOOLS_ROLE.id == BOOLEAN_TOOLS;
    assert FirstUnsatisfied([], b).None?;
    assert FirstUnsatisfied([TOOLS_ROLE], b) == if b.Count(BOOLEAN_TOOLS) == 0 then Some(TOOLS_ROLE) else None;
  }

  /** The target is missing and the pick is an editable body already held as a
      tool. */
  predicate PicksAToolAsTarget(tool: Armed, context: Context, item: Item) {
    && tool.bindings.Count(BOOLEAN_TARGET) == 0
    && item in tool.bindings.Get(BOOLEAN_TOOLS)
    && item.Body? && context.editable(item.body)
  }

  lemma PickAsTarget(tool: Armed, context: Context, item: Item)
    requires NoBodyTwice(tool) && tool.bindings.Count(BOOLEAN_TARGET) == 0
    ensures var after := tool.Offer(context, item).0;
            && after.schema == BODY_BOOLEAN
            && after.bindings ==
                 if item.Body? && context.editable(item.body) then tool.bindings.Push(BOOLEAN_TARGET, item)
                 else tool.bindings
  {
    BooleanTakes(tool);
    assert TARGET_ROLE.id == BOOLEAN_TARGET;
    assert TARGET_ROLE.accepts(context, tool.bindings, item) == AcceptsEditableBody(context, tool.bindings, item);
  }

  lemma PickAsTool(tool: Armed, context: Context, item: Item)
    requires NoBodyTwice(tool) && tool.bindings.Count(BOOLEAN_TARGET) == 1
    ensures var after := tool.Offer(context, item).0;
            && after.schema == BODY_BOOLEAN
            && after.bindings ==
                 if item in tool.bindings.Get(BOOLEAN_TOOLS) then tool.bindings.Remove(BOOLEAN_TOOLS, item)
                 else if item.Body? && item !in tool.bindings.Get(BOOLEAN_TARGET) && context.editable(item.body) then
                   tool.bindings.Push(BOOLEAN_TOOLS, item)
                 else tool.bindings
  {
    BooleanTakes(tool);
    assert TOOLS_ROLE.id == BOOLEAN_TOOLS;
    assert TOOLS_ROLE.accepts(context, tool.bindings, item) == AcceptsBooleanTool(context, tool.bindings, item);
  }

  /** A pick puts one body in both roles exactly when it picks a tool as the
      target. */
  lemma BooleanOverlapsExactly(tool: Armed, context: Context, item: Item)
    requires NoBodyTwice(tool)
    ensures NoBodyTwice(tool.Offer(context, item).0) <==> !PicksAToolAsTarget(tool, context, item)
  {
    assert BOOLEAN_TARGET[1] != BOOLEAN_TOOLS[1];
    if tool.bindings.Count(BOOLEAN_TARGET) == 0 {
      PickAsTarget(tool, context, item);
      PushGets(tool.bindings, BOOLEAN_TARGET, item);
      assert item in tool.bindings.Push(BOOLEAN_TARGET, item).Get(BOOLEAN_TARGET);
    } else {
      PickAsTool(tool, context, item);
      PushGets(tool.bindings, BOOLEAN_TOOLS, item);
      RemoveGets(tool.bindings, BOOLEAN_TOOLS, item);
      WithoutMembers(tool.bindings.Get(BOOLEAN_TOOLS), item);
    }
  }

  lemma {:induction false} LiveIsShorter(context: Context, items: seq<Item>)
    ensures |Live(context, items)| <= |items|
  {
    if items != [] {
      LiveIsShorter(context, items[1..]);
    }
  }

  /** Moving on never puts a body in both roles. */
  lemma BooleanMovedKeeps(tool: Armed, context: Context, revision: nat)
    requires NoBodyTwice(tool)
    ensures NoBodyTwice(tool.Revalidate(context, revision))
  {
    RetainGets(tool.bindings, context, BOOLEAN_TARGET);
    RetainGets(tool.bindings, context, BOOLEAN_TOOLS);
    LiveMembers(context, tool.bindings.Get(BOOLEAN_TARGET));
    LiveMembers(context, tool.bindings.Get(BOOLEAN_TOOLS));
    LiveIsShorter(context, tool.bindings.Get(BOOLEAN_TARGET));
  }

  /** No pick of the run picks a tool as the target. */
  ghost predicate NoToolPicked(tool: Armed, moves: seq<Move>) {
    forall n :: 0 <= n < |moves| && moves[n].Pick? ==>
      !PicksAToolAsTarget(PlayAll(tool, moves[..n]), moves[n].context, moves[n].item)
  }

  /** No body is ever in both roles. */
  ghost predicate StaysApart(tool: Armed, moves: seq<Move>) {
    forall n :: 0 <= n <= |moves| ==> NoBodyTwice(PlayAll(tool, moves[..n]))
  }

  lemma PlayNext(tool: Armed, moves: seq<Move>, n: nat)
    requires n < |moves|
    ensures PlayAll(tool, moves[..n + 1]) == Play(PlayAll(tool, moves[..n]), moves[n])
  {
    assert moves[..n + 1][..n] == moves[..n];
  }

  lemma MoveKeepsApart(tool: Armed, move: Move)
    requires NoBodyTwice(tool)
    ensures NoBodyTwice(Play(tool, move)) <==> !(move.Pick? && PicksAToolAsTarget(tool, move.context, move.item))
  {
    match move
    case Pick(context, item) => BooleanOverlapsExactly(tool, context, item);
    case DocumentMoved(context, revision) => BooleanMovedKeeps(tool, context, revision);
  }

  lemma {:induction false} ApartSoFar(tool: Armed, moves: seq<Move>, n: nat)
    requires NoBodyTwice(tool) && NoToolPicked(tool, moves) && n <= |moves|
    ensures NoBodyTwice(PlayAll(tool, moves[..n]))
  {
    if n > 0 {
      ApartSoFar(tool, moves, n - 1);
      PlayNext(tool, moves, n - 1);
      MoveKeepsApart(PlayAll(tool, moves[..n - 1]), moves[n - 1]);
    }
  }

  /** Through any picks and moves of the document, target and tools stay apart
      exactly when no pick picks a tool as the target. */
  lemma BooleanRunStaysApartExactly(tool: Armed, moves: seq<Move>)
    requires NoBodyTwice(tool)
    ensures StaysApart(tool, moves) <==> NoToolPicked(tool, moves)
  {
    if NoToolPicked(tool, moves) {
      forall n | 0 <= n <= |moves| ensures NoBodyTwice(PlayAll(tool, moves[..n])) {
        ApartSoFar(tool, moves, n);
      }
    }
    if StaysApart(tool, moves) {
      forall n | 0 <= n < |moves| && moves[n].Pick?
        ensures !PicksAToolAsTarget(PlayAll(tool, moves[..n]), moves[n].context, moves[n].item)
      {
        assert NoBodyTwice(PlayAll(tool, moves[..n])) && NoBodyTwice(PlayAll(tool, moves[..n + 1]));
        PlayNext(tool, moves, n);
        MoveKeepsApart(PlayAll(tool, moves[..n]), moves[n]);
      }
    }
  }

  lemma OfferBinds(tool: Armed, context: Context, item: Item)
    requires NoBodyTwice(tool) && item.Body? && context.editable(item.body)
    requires item !in tool.bindings.Get(BOOLEAN_TARGET)
    requires tool.bindings.Count(BOOLEAN_TARGET) == 1 ==> item !in tool.bindings.Get(BOOLEAN_TOOLS)
    ensures tool.Offer(context, item).0 ==
            tool.(bindings := tool.bindings.Push(
                    if tool.bindings.Count(BOOLEAN_TARGET) == 0 then BOOLEAN_TARGET else BOOLEAN_TOOLS, item))
  {
    BooleanTakes(tool);
    assert TARGET_ROLE.id == BOOLEAN_TARGET && TOOLS_ROLE.id == BOOLEAN_TOOLS;
    assert TARGET_ROLE.accepts(context, tool.bindings, item) == AcceptsEditableBody(context, tool.bindings, item);
    assert TOOLS_ROLE.accepts(context, tool.bindings, item) == AcceptsBooleanTool(context, tool.bindings, item);
  }

  lemma PicksTarget(tool: Armed, context: Context, item: Item, after: Armed)
    requires NoBodyTwice(tool) && item.Body? && context.editable(item.body)
    requires tool.bindings.Get(BOOLEAN_TARGET) == [] && after == tool.Offer(context, item).0
    ensures after.schema == BODY_BOOLEAN && after.resolvedAt == tool.resolvedAt
    ensures after.bindings.Get(BOOLEAN_TARGET) == [item]
    ensures after.bindings.Get(BOOLEAN_TOOLS) == tool.bindings.Get(BOOLEAN_TOOLS)
  {
    OfferBinds(tool, context, item);
    PushGets(tool.bindings, BOOLEAN_TARGET, item);
    assert BOOLEAN_TARGET[1] != BOOLEAN_TOOLS[1];
  }

  lemma PicksTool(tool: Armed, context: Context, item: Item, after: Armed)
    requires NoBodyTwice(tool) && item.Body? && context.editable(item.body)
    requires |tool.bindings.Get(BOOLEAN_TARGET)| == 1 && tool.bindings.Get(BOOLEAN_TOOLS) == []
    requires item !in tool.bindings.Get(BOOLEAN_TARGET) && after == tool.Offer(context, item).0
    ensures after.schema == BODY_BOOLEAN && after.resolvedAt == tool.resolvedAt
    ensures after.bindings.Get(BOOLEAN_TARGET) == tool.bindings.Get(BOOLEAN_TARGET)
    ensures after.bindings.Get(BOOLEAN_TOOLS) == [item]
  {
    OfferBinds(tool, context, item);
    PushGets(tool.bindings, BOOLEAN_TOOLS, item);
    assert BOOLEAN_TARGET[1] != BOOLEAN_TOOLS[1];
  }

  lemma LosesTarget(tool: Armed, later: Context, revision: nat, target: Item, other: Item, after: Armed)
    requires tool.schema == BODY_BOOLEAN && tool.resolvedAt != revision && after == tool.Revalidate(later, revision)
    requires tool.bindings.Get(BOOLEAN_TARGET) == [target] && tool.bindings.Get(BOOLEAN_TOOLS) == [other]
    requires !later.resolves(target) && later.resolves(other)
    ensures after.schema == BODY_BOOLEAN
    ensures after.bindings.Get(BOOLEAN_TARGET) == [] && after.bindings.Get(BOOLEAN_TOOLS) == [other]
  {
    RetainGets(tool.bindings, later, BOOLEAN_TARGET);
    RetainGets(tool.bindings, later, BOOLEAN_TOOLS);
    assert Live(later, [target]) == [] && Live(later, [other]) == [other];
  }

  lemma PlayOneMore(tool: Armed, moves: seq<Move>, next: Move)
    ensures PlayAll(tool, moves + [next]) == Play(PlayAll(tool, moves), next)
  {
    assert (moves + [next])[..|moves|] == moves;
  }

  lemma PlayFour(tool: Armed, a: Move, b: Move, c: Move, d: Move)
    ensures PlayAll(tool, [a, b, c, d]) == Play(Play(Play(Play(tool, a), b), c), d)
  {
    PlayOneMore(tool, [], a);
    PlayOneMore(tool, [] + [a], b);
    PlayOneMore(tool, [] + [a] + [b], c);
    PlayOneMore(tool, [] + [a] + [b] + [c], d);
    assert [] + [a] + [b] + [c] + [d] == [a, b, c, d];
  }

  /** The overlap is reachable: pick a target, pick a tool, lose the target to
      a rebuild, and pick the tool again. */
  lemma LostTargetLetsAToolBeTarget(context: Context, later: Context, target: Item, other: Item)
    requires target.Body? && other.Body? && target != other
    requires context.editable(target.body) && context.editable(other.body) && later.editable(other.body)
    requires !later.resolves(target) && later.resolves(other)
    ensures var tool := PlayAll(FreshTool(BODY_BOOLEAN, 0),
                                [Pick(context, target), Pick(context, other), DocumentMoved(later, 1),
                                 Pick(later, other)]);
            tool.bindings.Get(BOOLEAN_TARGET) == [other] && tool.bindings.Get(BOOLEAN_TOOLS) == [other]
  {
    var t0 := FreshTool(BODY_BOOLEAN, 0);
    PlayFour(t0, Pick(context, target), Pick(context, other), DocumentMoved(later, 1), Pick(later, other));
    var t1 := Play(t0, Pick(context, target));
    PicksTarget(t0, context, target, t1);
    var t2 := Play(t1, Pick(context, other));
    PicksTool(t1, context, other, t2);
    var t3 := Play(t2, DocumentMoved(later, 1));
    LosesTarget(t2, later, 1, target, other, t3);
    PicksTarget(t3, later, other, Play(t3, Pick(later, other)));
  }
}
