/**
  Picking and selecting, tool by tool: which of the workbench's own appetites
  come to the same either way, and when the others do.
*/
module InvocationSources {
  import opened Results
  import opened Invocation
  import opened InvocationProperties
  import opened InvocationOrders
  import opened InvocationRuns

  /** The whole bodies among the items. */
  function Bodies(items: seq<Item>): seq<Item> {
    if items == [] then []
    else
      var last := items[|items| - 1];
      Bodies(items[..|items| - 1]) + (if last.Body? then [last] else [])
  }

  lemma {:induction false} BodiesMembers(items: seq<Item>)
    ensures forall x :: x in Bodies(items) <==> x in items && x.Body?
  {
    if items != [] {
      BodiesMembers(items[..|items| - 1]);
      assert items == items[..|items| - 1] + [items[|items| - 1]];
    }
  }

  lemma BodiesNext(items: seq<Item>, item: Item)
    ensures Bodies(items + [item]) == Bodies(items) + (if item.Body? then [item] else [])
  {
    assert (items + [item])[..|items|] == items;
  }

  // -- appetites that always agree -------------------------------------------

  /** The harvested appetites agree on every list of picks, and the sketch
      profile has nothing to take from either. */
  lemma HarvestedSchemasAgree(context: Context, items: seq<Item>)
    requires Distinct(items)
    ensures OrdersAgree(context, EDGE_FINISH, items)
    ensures OrdersAgree(context, PLANAR_FACE_FEATURE, items)
    ensures OrdersAgree(context, FACE_PUSH_PULL, items)
    ensures OrdersAgree(context, SKETCH_RELATION, items)
    ensures OrdersAgree(context, SKETCH_EXTRUSION, items)
  {
    LoneRoleAgreesExactly(context, EDGE_ROLE, items);
    LoneRoleAgreesExactly(context, FACE_ROLE, items);
    LoneRoleAgreesExactly(context, PUSH_PULL_ROLE, items);
    LoneRoleAgreesExactly(context, RELATION_ROLE, items);
    LoneRoleAgreesExactly(context, PROFILE_ROLE, items);
  }

  // -- one whole body --------------------------------------------------------

  /** The document has an active body that may be edited. */
  predicate ActiveIsEditable(context: Context) {
    context.active.Some? && context.editable(context.active.value)
  }

  lemma {:induction false} FirstBody(items: seq<Item>) returns (k: nat)
    requires Bodies(items) != []
    ensures k < |items| && items[k] == Bodies(items)[0] && items[k].Body? && Bodies(items[..k]) == []
  {
    var last := |items| - 1;
    if Bodies(items[..last]) == [] {
      k := last;
    } else {
      k := FirstBody(items[..last]);
      assert items[..last][..k] == items[..k];
    }
  }

  lemma BodyRoleHeeds(context: Context, bindings: Bindings, items: seq<Item>)
    ensures Ignored(context, BODY_ROLE, bindings, items) <==> bindings.Count(TARGET_BODY) >= 1 || Bodies(items) == []
  {
    BodiesMembers(items);
    assert BODY_ROLE.cardinality == Exactly(1) && BODY_ROLE.id == TARGET_BODY;
    forall x ensures Heeded(BODY_ROLE.accepts(context, bindings, x)) <==> x.Body? {
    }
    if Bodies(items) != [] {
      assert Bodies(items)[0] in items;
    }
  }

  lemma WholeBodyCondition(context: Context, items: seq<Item>)
    ensures LoneRoleCondition(context, BODY_ROLE, items) <==>
            if Bodies(items) == [] then !ActiveIsEditable(context)
            else ActiveIsEditable(context) && Bodies(items)[0] == Body(context.active.value)
  {
    BodyRoleHeeds(context, NO_BINDINGS, items);
    if ActiveIsEditable(context) {
      var active := Body(context.active.value);
      PushGets(NO_BINDINGS, TARGET_BODY, active);
      if Bodies(items) != [] && Bodies(items)[0] == active {
        var k := FirstBody(items);
        BodyRoleHeeds(context, NO_BINDINGS, items[..k]);
        BodyRoleHeeds(context, NO_BINDINGS.Push(TARGET_BODY, active), items[k + 1..]);
        assert PickedAt(context, BODY_ROLE, items, active, k);
      }
      if PicksTheActive(context, BODY_ROLE, items) {
        var k: nat :| PickedAt(context, BODY_ROLE, items, active, k);
        BodyRoleHeeds(context, NO_BINDINGS, items[..k]);
        BodiesLead(items, k);
      }
    }
  }

  lemma {:induction false} BodiesLead(items: seq<Item>, k: nat)
    requires k < |items| && items[k].Body? && Bodies(items[..k]) == []
    ensures Bodies(items) != [] && Bodies(items)[0] == items[k]
  {
    var last := |items| - 1;
    if k < last {
      assert items[..last][..k] == items[..k];
      BodiesLead(items[..last], k);
    }
  }

  /** A whole-body tool takes the active body or nothing from the document, so
      picking agrees exactly when the first body picked is the active one, or
      none is picked and none is active to edit. */
  lemma WholeBodyAgreesExactly(context: Context, items: seq<Item>)
    requires Distinct(items)
    ensures OrdersAgree(context, WHOLE_BODY_FEATURE, items) <==>
            if Bodies(items) == [] then !ActiveIsEditable(context)
            else ActiveIsEditable(context) && Bodies(items)[0] == Body(context.active.value)
  {
    LoneRoleAgreesExactly(context, BODY_ROLE, items);
    WholeBodyCondition(context, items);
  }

  lemma SelectedBodyIsLeft(context: Context, items: seq<Item>)
    requires context.active.None? && AllLive(context, items)
    ensures ResolveSchema(context, WHOLE_BODY_FEATURE, items).NeedsOperands?
  {
    AllLiveStay(context, items);
    var start := HarvestAll(context, WHOLE_BODY_FEATURE, items, 0);
    assert HarvestAll(context, WHOLE_BODY_FEATURE, items, 1) == HarvestRole(context, BODY_ROLE, items, start) == start;
    assert !BODY_ROLE.cardinality.SatisfiedBy(NO_BINDINGS.Count(TARGET_BODY));
  }

  lemma EmptyBodyToolTakes(context: Context, item: Item)
    requires item.Body? && context.editable(item.body)
    ensures var tool := FreshTool(WHOLE_BODY_FEATURE, 0);
            tool.Offer(context, item).0 == tool.(bindings := NO_BINDINGS.Push(TARGET_BODY, item))
  {
    var tool := FreshTool(WHOLE_BODY_FEATURE, 0);
    assert !BODY_ROLE.cardinality.SatisfiedBy(NO_BINDINGS.Count(TARGET_BODY));
    assert tool.Taking() == Some(BODY_ROLE);
    assert BODY_ROLE.accepts(context, NO_BINDINGS, item) == Accept;
  }

  lemma OneBodyIsEnough(item: Item)
    ensures FirstUnsatisfied(WHOLE_BODY_FEATURE, NO_BINDINGS.Push(TARGET_BODY, item)).None?
  {
    var bound := NO_BINDINGS.Push(TARGET_BODY, item);
    PushGets(NO_BINDINGS, TARGET_BODY, item);
    assert WHOLE_BODY_FEATURE[1..] == [] && FirstUnsatisfied([], bound) == None;
    assert BODY_ROLE.cardinality.SatisfiedBy(bound.Count(TARGET_BODY));
  }

  /** With no active body a selected one is passed over, though the same body
      picked makes the tool ready. */
  lemma SelectedBodyIsPassedOver(context: Context, body: BodyKey, item: Item)
    requires item == Body(body) && context.active.None? && context.editable(body) && context.resolves(item)
    ensures ResolveSchema(context, WHOLE_BODY_FEATURE, [item]).NeedsOperands?
    ensures OfferAll(FreshTool(WHOLE_BODY_FEATURE, 0), context, [item]).WaitingFor().None?
  {
    SelectedBodyIsLeft(context, [item]);
    EmptyBodyToolTakes(context, item);
    OneBodyIsEnough(item);
    assert [item][..0] == [];
  }

  // -- a target and its tools ------------------------------------------------

  /** A Boolean tool after these picks: every body picked is the target, a
      tool or refused, and the first editable one is the target. */
  ghost predicate Accounts(context: Context, tool: Armed, items: seq<Item>) {
    var target, tools := tool.bindings.Get(BOOLEAN_TARGET), tool.bindings.Get(BOOLEAN_TOOLS);
    && tool.schema == BODY_BOOLEAN
    && |target| <= 1
    && |target| + |tools| + |tool.diagnostics.rejected| == |Bodies(items)|
    && (forall x :: x in target || x in tools ==> x in Bodies(items))
    && (|Bodies(items)| == 1 && context.editable(Bodies(items)[0].body) ==> target == Bodies(items))
  }

  lemma BooleanOffers(context: Context, tool: Armed, items: seq<Item>, item: Item)
    requires Accounts(context, tool, items) && item !in items
    ensures var target := tool.bindings.Get(BOOLEAN_TARGET);
            var after := tool.Offer(context, item).0;
            if !item.Body? then after == tool
            else if !context.editable(item.body) then
              after == tool.(diagnostics := Refuse(tool.diagnostics, item, IMMUTABLE))
            else
              after == tool.(bindings :=
                tool.bindings.Push(if target == [] then BOOLEAN_TARGET else BOOLEAN_TOOLS, item))
  {
    BooleanTakes(tool);
    BodiesMembers(items);
    assert TARGET_ROLE.id == BOOLEAN_TARGET && TOOLS_ROLE.id == BOOLEAN_TOOLS;
    assert TARGET_ROLE.accepts(context, tool.bindings, item) == AcceptsEditableBody(context, tool.bindings, item);
    assert TOOLS_ROLE.accepts(context, tool.bindings, item) == AcceptsBooleanTool(context, tool.bindings, item);
  }

  lemma AccountsNext(context: Context, tool: Armed, items: seq<Item>, item: Item)
    requires Accounts(context, tool, items) && item !in items
    ensures Accounts(context, tool.Offer(context, item).0, items + [item])
  {
    BooleanOffers(context, tool, items, item);
    BodiesNext(items, item);
    assert BOOLEAN_TARGET[1] != BOOLEAN_TOOLS[1];
    PushGets(tool.bindings, BOOLEAN_TARGET, item);
    PushGets(tool.bindings, BOOLEAN_TOOLS, item);
  }

  lemma BooleanAccounts(context: Context, items: seq<Item>)
    requires Distinct(items)
    ensures Accounts(context, OfferAll(FreshTool(BODY_BOOLEAN, 0), context, items), items)
  {
    var tool := FreshTool(BODY_BOOLEAN, 0);
    var keeps := (n: nat, t: Armed) => n <= |items| && Accounts(context, t, items[..n]);
    assert OfferAll(tool, context, items[..0]) == tool;
    forall n: nat, t: Armed | n < |items| && keeps(n, t) ensures keeps(n + 1, t.Offer(context, items[n]).0) {
      assert items[n] !in items[..n] && items[..n + 1] == items[..n] + [items[n]];
      AccountsNext(context, t, items[..n], items[n]);
    }
    PickingKeeps(context, tool, items, 0, |items|, keeps);
    assert items[..|items|] == items;
  }

  lemma BooleanHarvest(context: Context, items: seq<Item>)
    ensures var h := HarvestAll(context, BODY_BOOLEAN, items, 2);
            && h.rejected == [] && h.bindings.Get(BOOLEAN_TOOLS) == []
            && h.bindings.Get(BOOLEAN_TARGET) == if ActiveIsEditable(context) then [Body(context.active.value)] else []
  {
    var start := HarvestAll(context, BODY_BOOLEAN, items, 0);
    assert HarvestAll(context, BODY_BOOLEAN, items, 1) == HarvestRole(context, TARGET_ROLE, items, start);
    assert HarvestAll(context, BODY_BOOLEAN, items, 2) == HarvestAll(context, BODY_BOOLEAN, items, 1);
    assert BOOLEAN_TARGET[1] != BOOLEAN_TOOLS[1];
    if ActiveIsEditable(context) {
      PushGets(NO_BINDINGS, BOOLEAN_TARGET, Body(context.active.value));
    }
  }

  lemma BooleanAgreesOn(context: Context, tool: Armed, h: Harvest, items: seq<Item>)
    requires Accounts(context, tool, items)
    requires h.rejected == [] && h.bindings.Get(BOOLEAN_TOOLS) == []
    requires h.bindings.Get(BOOLEAN_TARGET) == if ActiveIsEditable(context) then [Body(context.active.value)] else []
    ensures Agree(BODY_BOOLEAN, tool, h) <==>
            Bodies(items) == if ActiveIsEditable(context) then [Body(context.active.value)] else []
  {
    NoRefusals(tool.diagnostics.rejected);
    AgreeOnBoth(tool, h);
    if Agree(BODY_BOOLEAN, tool, h) && ActiveIsEditable(context) {
      assert tool.bindings.Get(BOOLEAN_TARGET)[0] in Bodies(items);
    }
  }

  /** A Boolean is offered the active body as its target and nothing as a tool,
      so picking agrees exactly when the bodies picked are the active one, or
      none if none is active to edit. */
  lemma BooleanAgreesExactly(context: Context, items: seq<Item>)
    requires Distinct(items)
    ensures OrdersAgree(context, BODY_BOOLEAN, items) <==>
            Bodies(items) == if ActiveIsEditable(context) then [Body(context.active.value)] else []
  {
    var tool := OfferAll(FreshTool(BODY_BOOLEAN, 0), context, items);
    BooleanAccounts(context, items);
    BooleanHarvest(context, items);
    BooleanAgreesOn(context, tool, HarvestAll(context, BODY_BOOLEAN, items, 2), items);
  }

  lemma AgreeOnBoth(tool: Armed, h: Harvest)
    ensures Agree(BODY_BOOLEAN, tool, h) <==>
            && tool.bindings.Get(BOOLEAN_TARGET) == h.bindings.Get(BOOLEAN_TARGET)
            && tool.bindings.Get(BOOLEAN_TOOLS) == h.bindings.Get(BOOLEAN_TOOLS)
            && multiset(tool.diagnostics.rejected) == multiset(h.rejected)
  {
    assert BODY_BOOLEAN[0].id == BOOLEAN_TARGET && BODY_BOOLEAN[1].id == BOOLEAN_TOOLS;
  }
}
