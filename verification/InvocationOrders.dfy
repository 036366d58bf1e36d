/**
  When picking one by one and selecting beforehand come to the same, for one
  role of any source and for several harvested roles.
*/
module InvocationOrders {
  import opened Invocation
  import opened InvocationProperties

  /** The tool holds, role by role, what the resolver bound, and has refused
      what the resolver refused. */
  ghost predicate Agree(schema: Schema, tool: Armed, h: Harvest) {
    && (forall i :: 0 <= i < |schema| ==> tool.bindings.Get(schema[i].id) == h.bindings.Get(schema[i].id))
    && multiset(tool.diagnostics.rejected) == multiset(h.rejected)
  }

  /** Picking the items one by one into an empty tool agrees with selecting
      them beforehand. */
  ghost predicate OrdersAgree(context: Context, schema: Schema, items: seq<Item>) {
    Agree(schema, OfferAll(FreshTool(schema, 0), context, items), HarvestAll(context, schema, items, |schema|))
  }

  lemma {:induction false} SameCountsSameWait(schema: Schema, left: Bindings, right: Bindings)
    requires forall i :: 0 <= i < |schema| ==> left.Count(schema[i].id) == right.Count(schema[i].id)
    ensures FirstUnsatisfied(schema, left) == FirstUnsatisfied(schema, right)
  {
    if schema != [] {
      SameCountsSameWait(schema[1..], left, right);
    }
  }

  lemma {:induction false} SameCountsSameRoom(schema: Schema, left: Bindings, right: Bindings)
    requires forall i :: 0 <= i < |schema| ==> left.Count(schema[i].id) == right.Count(schema[i].id)
    ensures LastWithRoom(schema, left) == LastWithRoom(schema, right)
  {
    if schema != [] {
      SameCountsSameRoom(schema[..|schema| - 1], left, right);
    }
  }

  /** What agreement shows: the same refusals, and without any the same
      bindings and the same readiness. */
  lemma AgreementShows(context: Context, schema: Schema, items: seq<Item>, tool: Armed)
    requires AllLive(context, items) && tool.schema == schema
    requires Agree(schema, tool, HarvestAll(context, schema, items, |schema|))
    ensures var resolution := ResolveSchema(context, schema, items);
            && (resolution.InvalidSelection? <==> tool.diagnostics.rejected != [])
            && (resolution.Complete? <==> tool.diagnostics.rejected == [] && tool.WaitingFor().None?)
            && (!resolution.InvalidSelection? ==>
                  forall i :: 0 <= i < |schema| ==>
                    resolution.bindings.Get(schema[i].id) == tool.bindings.Get(schema[i].id))
  {
    var h := HarvestAll(context, schema, items, |schema|);
    AllLiveStay(context, items);
    SameCountsSameWait(schema, tool.bindings, h.bindings);
    assert |multiset(h.rejected)| == |h.rejected|;
    assert |multiset(tool.diagnostics.rejected)| == |tool.diagnostics.rejected|;
  }

  lemma KeepsNext(context: Context, tool: Armed, items: seq<Item>, n: nat, before: Armed, keeps: (nat, Armed) -> bool)
    requires 0 < n <= |items| && before == OfferAll(tool, context, items[..n - 1]) && keeps(n - 1, before)
    requires keeps(n - 1, before) ==> keeps(n, before.Offer(context, items[n - 1]).0)
    ensures keeps(n, OfferAll(tool, context, items[..n]))
  {
    OfferedNext(tool, context, items, n - 1, before);
  }

  lemma KeptByOffer(context: Context, items: seq<Item>, from: nat, n: nat, before: Armed, keeps: (nat, Armed) -> bool)
    requires from < n <= |items|
    requires forall m: nat, t: Armed {:trigger t.Offer(context, items[m])} ::
               from <= m < n && keeps(m, t) ==> keeps(m + 1, t.Offer(context, items[m]).0)
    ensures keeps(n - 1, before) ==> keeps(n, before.Offer(context, items[n - 1]).0)
  {
  }

  /** What every offer keeps, picking keeps. */
  lemma {:induction false} PickingKeeps(context: Context, tool: Armed, items: seq<Item>, from: nat, n: nat,
                                        keeps: (nat, Armed) -> bool)
    requires from <= n <= |items| && keeps(from, OfferAll(tool, context, items[..from]))
    requires forall m: nat, t: Armed {:trigger t.Offer(context, items[m])} ::
               from <= m < n && keeps(m, t) ==> keeps(m + 1, t.Offer(context, items[m]).0)
    ensures keeps(n, OfferAll(tool, context, items[..n]))
  {
    if from < n {
      var before := OfferAll(tool, context, items[..n - 1]);
      PickingKeeps(context, tool, items, from, n - 1, keeps);
      KeptByOffer(context, items, from, n, before, keeps);
      KeepsNext(context, tool, items, n, before, keeps);
    }
  }

  // -- one role's own account ------------------------------------------------

  /** What one role would hold and refuse if every item were offered to it. */
  datatype Tally = Tally(bindings: Bindings, refused: seq<Rejection>)

  const NOTHING := Tally(NO_BINDINGS, [])

  predicate Heeded(verdict: Eligibility) {
    verdict.Accept? || verdict.Incompatible? || verdict.Immutable?
  }

  predicate HasRoom(role: Role, bindings: Bindings) {
    role.cardinality.AcceptsMore(bindings.Count(role.id))
  }

  /** The role would bind or refuse this item next. */
  predicate Wants(context: Context, role: Role, t: Tally, item: Item) {
    HasRoom(role, t.bindings) && Heeded(role.accepts(context, t.bindings, item))
  }

  function TallyOne(context: Context, role: Role, t: Tally, item: Item): Tally {
    if !HasRoom(role, t.bindings) then t
    else
      match role.accepts(context, t.bindings, item)
      case Accept => t.(bindings := t.bindings.Push(role.id, item))
      case Incompatible(why) => t.(refused := t.refused + [Rejection(item, why)])
      case Immutable(why) => t.(refused := t.refused + [Rejection(item, why)])
      case _ => t
  }

  /** An account carried on over more items. */
  function TallyFrom(context: Context, role: Role, t: Tally, items: seq<Item>): Tally {
    if items == [] then t
    else TallyOne(context, role, TallyFrom(context, role, t, items[..|items| - 1]), items[|items| - 1])
  }

  function Tallied(context: Context, role: Role, items: seq<Item>): Tally {
    TallyFrom(context, role, NOTHING, items)
  }

  lemma TallyNext(context: Context, role: Role, items: seq<Item>, n: nat)
    requires n < |items|
    ensures Tallied(context, role, items[..n + 1]) ==
            TallyOne(context, role, Tallied(context, role, items[..n]), items[n])
  {
    assert items[..n + 1][..n] == items[..n];
  }

  lemma TallyLast(context: Context, role: Role, t: Tally, init: seq<Item>, last: Item)
    ensures TallyFrom(context, role, t, init + [last]) ==
            TallyOne(context, role, TallyFrom(context, role, t, init), last)
  {
    var items := init + [last];
    assert items[..|items| - 1] == init;
  }

  lemma TallyAppendsOne(context: Context, role: Role, t: Tally, items: seq<Item>, init: seq<Item>, last: Item,
                        before: Tally)
    requires before == TallyFrom(context, role, t, items)
    requires TallyFrom(context, role, t, items + init) == TallyFrom(context, role, before, init)
    ensures TallyFrom(context, role, t, items + (init + [last])) == TallyFrom(context, role, before, init + [last])
  {
    assert items + (init + [last]) == (items + init) + [last];
    TallyLast(context, role, t, items + init, last);
    TallyLast(context, role, before, init, last);
  }

  lemma {:induction false} TallyAppends(context: Context, role: Role, t: Tally, items: seq<Item>, more: seq<Item>)
    ensures TallyFrom(context, role, t, items + more) ==
            TallyFrom(context, role, TallyFrom(context, role, t, items), more)
  {
    if more == [] {
      assert items + more == items;
    } else {
      var init, last := more[..|more| - 1], more[|more| - 1];
      TallyAppends(context, role, t, items, init);
      TallyAppendsOne(context, role, t, items, init, last, TallyFrom(context, role, t, items));
      assert init + [last] == more;
    }
  }

  /** An account holds and refuses only what it was offered, each once, within
      the role's maximum, and binds nothing under another role. */
  ghost predicate Orderly(role: Role, t: Tally, items: seq<Item>) {
    && (forall x :: x in t.bindings.Get(role.id) ==> x in items)
    && (forall k :: 0 <= k < |t.refused| ==> t.refused[k].item in items)
    && t.bindings.Count(role.id) <= MaxOf(role.cardinality, t.bindings.Count(role.id))
    && (t.bindings.Get(role.id) == [] ==> t.bindings == NO_BINDINGS)
  }

  lemma OrderlyNext(context: Context, role: Role, t: Tally, items: seq<Item>, item: Item)
    requires Orderly(role, t, items)
    ensures Orderly(role, TallyOne(context, role, t, item), items + [item])
  {
    PushGets(t.bindings, role.id, item);
  }

  lemma {:induction false} TallyIsOrderly(context: Context, role: Role, items: seq<Item>)
    ensures Orderly(role, Tallied(context, role, items), items)
  {
    if items != [] {
      var init := items[..|items| - 1];
      TallyIsOrderly(context, role, init);
      OrderlyNext(context, role, Tallied(context, role, init), init, items[|items| - 1]);
      assert items == init + [items[|items| - 1]];
    }
  }

  /** A wanted item enlarges the account; any other leaves it. */
  function Size(role: Role, t: Tally): nat {
    t.bindings.Count(role.id) + |t.refused|
  }

  lemma WantedEnlarges(context: Context, role: Role, t: Tally, item: Item)
    ensures var after := TallyOne(context, role, t, item);
            if Wants(context, role, t, item) then Size(role, after) == Size(role, t) + 1 else after == t
  {
    PushGets(t.bindings, role.id, item);
  }

  // -- one role, any source --------------------------------------------------

  /** The role would bind and refuse nothing of these. */
  ghost predicate Ignored(context: Context, role: Role, bindings: Bindings, items: seq<Item>) {
    HasRoom(role, bindings) ==> forall x :: x in items ==> !Heeded(role.accepts(context, bindings, x))
  }

  /** What more items do to an account: it never shrinks, and stays the same
      exactly when they are all ignored. */
  ghost predicate Grows(context: Context, role: Role, t: Tally, items: seq<Item>, after: Tally) {
    && Size(role, after) >= Size(role, t)
    && (Ignored(context, role, t.bindings, items) ==> after == t)
    && (Size(role, after) == Size(role, t) ==> after == t && Ignored(context, role, t.bindings, items))
  }

  lemma GrowsNext(context: Context, role: Role, t: Tally, init: seq<Item>, last: Item, before: Tally, after: Tally)
    requires Grows(context, role, t, init, before) && after == TallyOne(context, role, before, last)
    ensures Grows(context, role, t, init + [last], after)
  {
    WantedEnlarges(context, role, before, last);
  }

  lemma {:induction false} SizeGrows(context: Context, role: Role, t: Tally, items: seq<Item>)
    ensures Grows(context, role, t, items, TallyFrom(context, role, t, items))
  {
    if items != [] {
      var init, last := items[..|items| - 1], items[|items| - 1];
      SizeGrows(context, role, t, init);
      GrowsNext(context, role, t, init, last, TallyFrom(context, role, t, init), TallyFrom(context, role, t, items));
      assert items == init + [last];
    }
  }

  lemma LoneOffer(context: Context, role: Role, tool: Armed, t: Tally, items: seq<Item>, item: Item)
    requires role.cardinality.WellOrdered() && tool.schema == [role]
    requires tool.bindings == t.bindings && tool.diagnostics.rejected == t.refused
    requires Orderly(role, t, items) && item !in items
    ensures var after, next := tool.Offer(context, item).0, TallyOne(context, role, t, item);
            after.schema == [role] && after.bindings == next.bindings && after.diagnostics.rejected == next.refused
  {
    LoneRoleTakes(role, tool.bindings, tool.diagnostics, tool.resolvedAt);
  }

  /** A tool with one role keeps that role's account. */
  lemma {:induction false} LoneToolTallies(context: Context, role: Role, items: seq<Item>)
    requires role.cardinality.WellOrdered() && Distinct(items)
    ensures var tool, t := OfferAll(FreshTool([role], 0), context, items), Tallied(context, role, items);
            tool.schema == [role] && tool.bindings == t.bindings && tool.diagnostics.rejected == t.refused
  {
    if items != [] {
      var init, last := items[..|items| - 1], items[|items| - 1];
      LoneToolTallies(context, role, init);
      TallyIsOrderly(context, role, init);
      assert last !in init;
      LoneOffer(context, role, OfferAll(FreshTool([role], 0), context, init), Tallied(context, role, init), init, last);
    }
  }

  /** The resolver would bind the active body to an empty role. */
  predicate ActiveServes(context: Context, role: Role) {
    context.active.Some? && role.accepts(context, NO_BINDINGS, Body(context.active.value)).Accept?
  }

  /** The first item the role heeds is the active body, and it heeds nothing
      after it. */
  ghost predicate PicksTheActive(context: Context, role: Role, items: seq<Item>)
    requires context.active.Some?
  {
    var active := Body(context.active.value);
    HasRoom(role, NO_BINDINGS) && exists k: nat :: PickedAt(context, role, items, active, k)
  }

  ghost predicate PickedAt(context: Context, role: Role, items: seq<Item>, item: Item, k: nat) {
    && k < |items| && items[k] == item
    && Ignored(context, role, NO_BINDINGS, items[..k])
    && Ignored(context, role, NO_BINDINGS.Push(role.id, item), items[k + 1..])
  }

  /** When the two orders of using one role agree: always for a harvested
      role; for the others, when the picks come to what the resolver takes
      from the document, the active body or nothing. */
  ghost predicate LoneRoleCondition(context: Context, role: Role, items: seq<Item>) {
    match role.source
    case Symmetric => true
    case ExplicitOnly => Ignored(context, role, NO_BINDINGS, items)
    case ActiveOrExplicit =>
      if ActiveServes(context, role) then PicksTheActive(context, role, items)
      else Ignored(context, role, NO_BINDINGS, items)
  }

  lemma {:induction false} FirstWanted(context: Context, role: Role, items: seq<Item>) returns (k: nat)
    requires Size(role, Tallied(context, role, items)) > 0
    ensures k < |items| && Wants(context, role, NOTHING, items[k])
    ensures Ignored(context, role, NO_BINDINGS, items[..k]) && Tallied(context, role, items[..k]) == NOTHING
  {
    var last := |items| - 1;
    if Size(role, Tallied(context, role, items[..last])) > 0 {
      k := FirstWanted(context, role, items[..last]);
      assert items[..last][..k] == items[..k];
    } else {
      k := last;
      SizeGrows(context, role, NOTHING, items[..last]);
      WantedEnlarges(context, role, NOTHING, items[last]);
    }
  }

  /** An account of all the items goes on from the account up to one of them. */
  lemma TallyAround(context: Context, role: Role, items: seq<Item>, k: nat)
    requires k < |items|
    ensures Tallied(context, role, items) ==
            TallyFrom(context, role, TallyOne(context, role, Tallied(context, role, items[..k]), items[k]),
                      items[k + 1..])
  {
    TallyNext(context, role, items, k);
    assert items == items[..k + 1] + items[k + 1..];
    TallyAppends(context, role, NOTHING, items[..k + 1], items[k + 1..]);
  }

  lemma HoldsNothing(context: Context, role: Role, items: seq<Item>)
    ensures Tallied(context, role, items) == NOTHING <==> Ignored(context, role, NO_BINDINGS, items)
    ensures Tallied(context, role, items) == NOTHING <==> Size(role, Tallied(context, role, items)) == 0
  {
    SizeGrows(context, role, NOTHING, items);
  }

  lemma HoldsTheActive(context: Context, role: Role, items: seq<Item>)
    requires ActiveServes(context, role)
    ensures var t, active := Tallied(context, role, items), Body(context.active.value);
            (t.bindings.Get(role.id) == [active] && t.refused == []) <==> PicksTheActive(context, role, items)
  {
    var t, active := Tallied(context, role, items), Body(context.active.value);
    PushGets(NO_BINDINGS, role.id, active);
    if t.bindings.Get(role.id) == [active] && t.refused == [] {
      var k := FirstWanted(context, role, items);
      var one := TallyOne(context, role, NOTHING, items[k]);
      TallyAround(context, role, items, k);
      WantedEnlarges(context, role, NOTHING, items[k]);
      SizeGrows(context, role, one, items[k + 1..]);
      PushGets(NO_BINDINGS, role.id, items[k]);
      assert t == one;
      assert PickedAt(context, role, items, active, k);
    }
    if PicksTheActive(context, role, items) {
      var k: nat :| PickedAt(context, role, items, active, k);
      SizeGrows(context, role, NOTHING, items[..k]);
      TallyAround(context, role, items, k);
      SizeGrows(context, role, TallyOne(context, role, NOTHING, active), items[k + 1..]);
    }
  }

  lemma NoRefusals(refused: seq<Rejection>)
    ensures multiset(refused) == multiset([]) <==> refused == []
  {
    assert |multiset(refused)| == |refused|;
  }

  /** Agreement of a lone role, by its account and the harvest. */
  ghost predicate SameAsHarvest(role: Role, t: Tally, h: Harvest) {
    t.bindings.Get(role.id) == h.bindings.Get(role.id) && multiset(t.refused) == multiset(h.rejected)
  }

  lemma AgreesAlone(role: Role, schema: Schema, tool: Armed, h: Harvest)
    requires schema == [role]
    ensures Agree(schema, tool, h) <==> SameAsHarvest(role, Tally(tool.bindings, tool.diagnostics.rejected), h)
  {
    assert schema[0] == role;
  }

  lemma LoneAgreementIs(context: Context, role: Role, items: seq<Item>, t: Tally, h: Harvest)
    requires role.cardinality.WellOrdered() && Distinct(items)
    requires t == Tallied(context, role, items) && h == HarvestAll(context, [role], items, 1)
    ensures OrdersAgree(context, [role], items) <==> SameAsHarvest(role, t, h)
  {
    LoneToolTallies(context, role, items);
    AgreesAlone(role, [role], OfferAll(FreshTool([role], 0), context, items), h);
  }

  lemma HarvestedAgrees(context: Context, role: Role, items: seq<Item>)
    requires role.cardinality.WellOrdered() && Distinct(items) && role.source == Symmetric
    ensures OrdersAgree(context, [role], items)
  {
    KeepInStep(context, role, items, 0, |items|);
    assert items[..|items|] == items;
  }

  lemma LoneHarvest(context: Context, role: Role, items: seq<Item>, h: Harvest)
    requires role.source != Symmetric && h == HarvestAll(context, [role], items, 1)
    ensures h.rejected == []
    ensures h.bindings.Get(role.id) ==
            if role.source == ActiveOrExplicit && ActiveServes(context, role) then [Body(context.active.value)] else []
  {
    assert h == HarvestRole(context, role, items, HarvestAll(context, [role], items, 0));
    if context.active.Some? {
      PushGets(NO_BINDINGS, role.id, Body(context.active.value));
    }
  }

  lemma NothingHeld(context: Context, role: Role, items: seq<Item>, t: Tally)
    requires t == Tallied(context, role, items)
    ensures (t.bindings.Get(role.id) == [] && t.refused == []) <==> Ignored(context, role, NO_BINDINGS, items)
  {
    HoldsNothing(context, role, items);
  }

  lemma UnharvestedAgrees(context: Context, role: Role, items: seq<Item>, t: Tally, h: Harvest)
    requires role.source != Symmetric
    requires t == Tallied(context, role, items) && h == HarvestAll(context, [role], items, 1)
    ensures SameAsHarvest(role, t, h) <==> LoneRoleCondition(context, role, items)
  {
    LoneHarvest(context, role, items, h);
    NoRefusals(t.refused);
    if role.source == ActiveOrExplicit && ActiveServes(context, role) {
      HoldsTheActive(context, role, items);
    } else {
      NothingHeld(context, role, items, t);
    }
  }

  /** For one role of any source, picking and selecting agree exactly under
      the condition on its source, the active body and the items. */
  lemma LoneRoleAgreesExactly(context: Context, role: Role, items: seq<Item>)
    requires role.cardinality.WellOrdered() && Distinct(items)
    ensures OrdersAgree(context, [role], items) <==> LoneRoleCondition(context, role, items)
  {
    if role.source == Symmetric {
      HarvestedAgrees(context, role, items);
    } else {
      var t, h := Tallied(context, role, items), HarvestAll(context, [role], items, 1);
      LoneAgreementIs(context, role, items, t, h);
      UnharvestedAgrees(context, role, items, t, h);
    }
  }
}
