/**
  Several harvested roles: picking one by one agrees with selecting beforehand
  exactly when every item comes in its own role's turn.
*/
module InvocationTurns {
  import opened Results
  import opened Invocation
  import opened InvocationProperties
  import opened InvocationOrders
  import opened InvocationRuns

  // -- roles that do not meet ------------------------------------------------

  /** A role judges by what it holds itself. */
  ghost predicate OwnOnly(context: Context, role: Role) {
    forall b: Bindings, c: Bindings, x ::
      b.Get(role.id) == c.Get(role.id) ==> role.accepts(context, b, x) == role.accepts(context, c, x)
  }

  /** An item of the role's kind. */
  ghost predicate Minds(context: Context, role: Role, item: Item) {
    exists b :: !role.accepts(context, b, item).WrongKind?
  }

  /** Harvested roles of distinct ids and disjoint kinds, each judging by
      itself and asking for no more than it takes. */
  ghost predicate Separable(context: Context, schema: Schema) {
    && (forall i :: 0 <= i < |schema| ==>
          schema[i].source == Symmetric && schema[i].cardinality.WellOrdered() && OwnOnly(context, schema[i]))
    && (forall i, j :: 0 <= i < j < |schema| ==> schema[i].id != schema[j].id)
    && (forall i, j, x :: 0 <= i < |schema| && 0 <= j < |schema| && i != j && Minds(context, schema[i], x) ==>
          !Minds(context, schema[j], x))
  }

  // -- turns -----------------------------------------------------------------

  /** What the roles would hold if each were offered all of these items. */
  function Gathered(context: Context, schema: Schema, items: seq<Item>): Bindings {
    Bindings(seq(|schema|, i requires 0 <= i < |schema| =>
      Bound(schema[i].id, Tallied(context, schema[i], items).bindings.Get(schema[i].id))))
  }

  /** The role whose turn it is once these items have been gathered. */
  function Turn(context: Context, schema: Schema, items: seq<Item>): Option<Role> {
    Armed(schema, Gathered(context, schema, items), NO_DIAGNOSTICS, 0).Taking()
  }

  /** Item `n` is wanted by role `i` while it is another's turn. */
  ghost predicate OutOfTurn(context: Context, schema: Schema, items: seq<Item>, n: nat, i: nat) {
    && n < |items| && i < |schema|
    && Wants(context, schema[i], Tallied(context, schema[i], items[..n]), items[n])
    && Turn(context, schema, items[..n]) != Some(schema[i])
  }

  ghost predicate AllInTurn(context: Context, schema: Schema, items: seq<Item>) {
    forall n: nat, i: nat :: !OutOfTurn(context, schema, items, n, i)
  }

  lemma GatheredGets(context: Context, schema: Schema, items: seq<Item>, i: nat)
    requires i < |schema| && forall j, k :: 0 <= j < k < |schema| ==> schema[j].id != schema[k].id
    ensures Gathered(context, schema, items).Get(schema[i].id) ==
            Tallied(context, schema[i], items).bindings.Get(schema[i].id)
  {
    SlotIs(Gathered(context, schema, items), schema[i].id, i);
  }

  lemma {:induction false} LastWithRoomIs(schema: Schema, bindings: Bindings)
    ensures var r := LastWithRoom(schema, bindings);
            r.Some? ==> exists i :: 0 <= i < |schema| && schema[i] == r.value && HasRoom(schema[i], bindings)
  {
    if schema != [] {
      LastWithRoomIs(schema[..|schema| - 1], bindings);
      var r := LastWithRoom(schema[..|schema| - 1], bindings);
      if r.Some? {
        var i :| 0 <= i < |schema| - 1 && schema[..|schema| - 1][i] == r.value &&
                 HasRoom(schema[..|schema| - 1][i], bindings);
        assert schema[i] == r.value && HasRoom(schema[i], bindings);
      }
    }
  }

  ghost predicate ShortAt(schema: Schema, bindings: Bindings, i: nat, r: Role)
    requires i < |schema|
  {
    schema[i] == r && !r.cardinality.SatisfiedBy(bindings.Count(r.id))
  }

  lemma {:induction false} FirstUnsatisfiedIs(schema: Schema, bindings: Bindings)
    ensures var r := FirstUnsatisfied(schema, bindings);
            r.Some? ==> exists i :: 0 <= i < |schema| && ShortAt(schema, bindings, i, r.value)
  {
    if schema != [] {
      if schema[0].cardinality.SatisfiedBy(bindings.Count(schema[0].id)) {
        FirstUnsatisfiedIs(schema[1..], bindings);
        var r := FirstUnsatisfied(schema[1..], bindings);
        if r.Some? {
          var i :| 0 <= i < |schema[1..]| && ShortAt(schema[1..], bindings, i, r.value);
          assert ShortAt(schema, bindings, i + 1, r.value);
        }
      } else {
        assert ShortAt(schema, bindings, 0, schema[0]);
      }
    }
  }

  ghost predicate WithinMaxima(schema: Schema, bindings: Bindings) {
    forall i :: 0 <= i < |schema| ==>
      schema[i].cardinality.WellOrdered()
      && bindings.Count(schema[i].id) <= MaxOf(schema[i].cardinality, bindings.Count(schema[i].id))
  }

  /** The role taking picks is one of the schema's and has room. */
  lemma TakingHasRoom(tool: Armed, r: Role) returns (i: nat)
    requires WithinMaxima(tool.schema, tool.bindings) && tool.Taking() == Some(r)
    ensures i < |tool.schema| && tool.schema[i] == r && HasRoom(r, tool.bindings)
  {
    FirstUnsatisfiedIs(tool.schema, tool.bindings);
    LastWithRoomIs(tool.schema, tool.bindings);
    if tool.WaitingFor().Some? {
      i :| 0 <= i < |tool.schema| && ShortAt(tool.schema, tool.bindings, i, r);
    } else {
      i :| 0 <= i < |tool.schema| && tool.schema[i] == r && HasRoom(tool.schema[i], tool.bindings);
    }
  }

  // -- the tool in turn ------------------------------------------------------

  /** What the first `j` roles would refuse. */
  function Refused(context: Context, schema: Schema, items: seq<Item>, j: nat): multiset<Rejection>
    requires j <= |schema|
  {
    if j == 0 then multiset{}
    else Refused(context, schema, items, j - 1) + multiset(Tallied(context, schema[j - 1], items).refused)
  }

  /** The tool holds each role's account of these items. */
  ghost predicate Kept(context: Context, schema: Schema, tool: Armed, items: seq<Item>) {
    && tool.schema == schema
    && (forall i :: 0 <= i < |schema| ==>
          tool.bindings.Get(schema[i].id) == Tallied(context, schema[i], items).bindings.Get(schema[i].id))
    && multiset(tool.diagnostics.rejected) == Refused(context, schema, items, |schema|)
  }

  lemma TallyAppended(context: Context, role: Role, items: seq<Item>, item: Item)
    ensures Tallied(context, role, items + [item]) == TallyOne(context, role, Tallied(context, role, items), item)
  {
    assert (items + [item])[..|items|] == items;
  }

  /** Only the role that wants an item changes its account. */
  lemma UnwantedLeaves(context: Context, role: Role, items: seq<Item>, item: Item)
    requires !Wants(context, role, Tallied(context, role, items), item)
    ensures Tallied(context, role, items + [item]) == Tallied(context, role, items)
  {
    TallyAppended(context, role, items, item);
    WantedEnlarges(context, role, Tallied(context, role, items), item);
  }

  lemma WantedIsMinded(context: Context, role: Role, t: Tally, item: Item)
    requires Wants(context, role, t, item)
    ensures Minds(context, role, item)
  {
    assert !role.accepts(context, t.bindings, item).WrongKind?;
  }

  lemma OnlyOneWants(context: Context, schema: Schema, items: seq<Item>, item: Item, i: nat, j: nat)
    requires Separable(context, schema) && i < |schema| && j < |schema| && i != j
    requires Wants(context, schema[i], Tallied(context, schema[i], items), item)
    ensures !Wants(context, schema[j], Tallied(context, schema[j], items), item)
    ensures Tallied(context, schema[j], items + [item]) == Tallied(context, schema[j], items)
  {
    WantedIsMinded(context, schema[i], Tallied(context, schema[i], items), item);
    assert !Minds(context, schema[j], item);
    UnwantedLeaves(context, schema[j], items, item);
  }

  lemma {:induction false} RefusedSame(context: Context, schema: Schema, items: seq<Item>, more: seq<Item>, j: nat)
    requires j <= |schema|
    requires forall i :: 0 <= i < j ==>
             Tallied(context, schema[i], more).refused == Tallied(context, schema[i], items).refused
    ensures Refused(context, schema, more, j) == Refused(context, schema, items, j)
  {
    if j > 0 {
      RefusedSame(context, schema, items, more, j - 1);
    }
  }

  lemma RefusedNext(context: Context, schema: Schema, items: seq<Item>, j: nat, refused: seq<Rejection>)
    requires 0 < j <= |schema| && refused == Tallied(context, schema[j - 1], items).refused
    ensures Refused(context, schema, items, j) == Refused(context, schema, items, j - 1) + multiset(refused)
  {
  }

  lemma AddedLast(all: multiset<Rejection>, rest: multiset<Rejection>, now: multiset<Rejection>,
                  one: multiset<Rejection>, extra: multiset<Rejection>)
    requires all == rest + now && now == one + extra
    ensures all == (rest + one) + extra
  {
  }

  lemma AddedEarlier(all: multiset<Rejection>, more: multiset<Rejection>, rest: multiset<Rejection>,
                     one: multiset<Rejection>, extra: multiset<Rejection>)
    requires all == more + one && more == rest + extra
    ensures all == (rest + one) + extra
  {
  }

  lemma Joined(refused: seq<Rejection>, extra: seq<Rejection>)
    ensures multiset(refused + extra) == multiset(refused) + multiset(extra)
  {
  }

  lemma {:induction false} RefusedByOne(context: Context, schema: Schema, items: seq<Item>, more: seq<Item>, j: nat,
                                        i: nat, extra: seq<Rejection>)
    requires i < j <= |schema|
    requires forall k :: 0 <= k < j && k != i ==>
               Tallied(context, schema[k], more).refused == Tallied(context, schema[k], items).refused
    requires Tallied(context, schema[i], more).refused == Tallied(context, schema[i], items).refused + extra
    ensures Refused(context, schema, more, j) == Refused(context, schema, items, j) + multiset(extra)
  {
    var refused, now := Tallied(context, schema[j - 1], items).refused, Tallied(context, schema[j - 1], more).refused;
    RefusedNext(context, schema, items, j, refused);
    RefusedNext(context, schema, more, j, now);
    var all, rest := Refused(context, schema, more, j), Refused(context, schema, items, j - 1);
    if i == j - 1 {
      RefusedSame(context, schema, items, more, j - 1);
      Joined(refused, extra);
      AddedLast(all, rest, multiset(now), multiset(refused), multiset(extra));
    } else {
      RefusedByOne(context, schema, items, more, j - 1, i, extra);
      AddedEarlier(all, Refused(context, schema, more, j - 1), rest, multiset(refused), multiset(extra));
    }
  }

  lemma KeptIsOrderly(context: Context, schema: Schema, tool: Armed, items: seq<Item>)
    requires Separable(context, schema) && Kept(context, schema, tool, items)
    ensures WithinMaxima(schema, tool.bindings)
    ensures forall i, x :: 0 <= i < |schema| && x in tool.bindings.Get(schema[i].id) ==> x in items
  {
    forall i | 0 <= i < |schema| ensures Orderly(schema[i], Tallied(context, schema[i], items), items) {
      TallyIsOrderly(context, schema[i], items);
    }
  }

  lemma KeptTakesTurns(context: Context, schema: Schema, tool: Armed, items: seq<Item>)
    requires Separable(context, schema) && Kept(context, schema, tool, items)
    ensures tool.Taking() == Turn(context, schema, items)
  {
    forall i | 0 <= i < |schema|
      ensures Gathered(context, schema, items).Get(schema[i].id) == tool.bindings.Get(schema[i].id)
    {
      GatheredGets(context, schema, items, i);
    }
    SameCountsSameWait(schema, tool.bindings, Gathered(context, schema, items));
    SameCountsSameRoom(schema, tool.bindings, Gathered(context, schema, items));
  }

  lemma KeptWithin(context: Context, schema: Schema, tool: Armed, items: seq<Item>)
    requires Separable(context, schema) && Kept(context, schema, tool, items)
    ensures WithinMaxima(schema, tool.bindings)
    ensures forall i, x :: 0 <= i < |schema| && x in tool.bindings.Get(schema[i].id) ==> x in items
    ensures tool.Taking() == Turn(context, schema, items)
  {
    KeptIsOrderly(context, schema, tool, items);
    KeptTakesTurns(context, schema, tool, items);
  }

  lemma OfferWanted(context: Context, schema: Schema, tool: Armed, items: seq<Item>, item: Item, i: nat)
    requires Separable(context, schema) && Kept(context, schema, tool, items) && item !in items && i < |schema|
    requires Wants(context, schema[i], Tallied(context, schema[i], items), item)
    requires Turn(context, schema, items) == Some(schema[i])
    ensures Kept(context, schema, tool.Offer(context, item).0, items + [item])
  {
    var role, t, more := schema[i], Tallied(context, schema[i], items), items + [item];
    var after := tool.Offer(context, item).0;
    KeptWithin(context, schema, tool, items);
    TallyAppended(context, role, items, item);
    forall j | 0 <= j < |schema| && j != i
      ensures Tallied(context, schema[j], more) == Tallied(context, schema[j], items) && schema[j].id != role.id
    {
      OnlyOneWants(context, schema, items, item, i, j);
    }
    assert role.accepts(context, tool.bindings, item) == role.accepts(context, t.bindings, item);
    PushGets(tool.bindings, role.id, item);
    PushGets(t.bindings, role.id, item);
    match role.accepts(context, t.bindings, item) {
      case Accept =>
        RefusedSame(context, schema, items, more, |schema|);
      case Incompatible(why) =>
        RefusedByOne(context, schema, items, more, |schema|, i, [Rejection(item, why)]);
      case Immutable(why) =>
        RefusedByOne(context, schema, items, more, |schema|, i, [Rejection(item, why)]);
      case _ =>
    }
  }

  lemma OfferUnwanted(context: Context, schema: Schema, tool: Armed, items: seq<Item>, item: Item)
    requires Separable(context, schema) && Kept(context, schema, tool, items) && item !in items
    requires forall i :: 0 <= i < |schema| ==> !Wants(context, schema[i], Tallied(context, schema[i], items), item)
    ensures Kept(context, schema, tool.Offer(context, item).0, items + [item])
  {
    KeptWithin(context, schema, tool, items);
    forall i | 0 <= i < |schema|
      ensures Tallied(context, schema[i], items + [item]) == Tallied(context, schema[i], items)
    {
      UnwantedLeaves(context, schema[i], items, item);
    }
    RefusedSame(context, schema, items, items + [item], |schema|);
    if tool.Taking().Some? {
      var i := TakingHasRoom(tool, tool.Taking().value);
      var t := Tallied(context, schema[i], items);
      assert schema[i].accepts(context, tool.bindings, item) == schema[i].accepts(context, t.bindings, item);
    }
    assert tool.Offer(context, item).0 == tool;
  }

  lemma NothingKept(context: Context, schema: Schema)
    ensures Kept(context, schema, FreshTool(schema, 0), [])
  {
    forall i | 0 <= i < |schema| ensures Tallied(context, schema[i], []) == NOTHING {
    }
    RefusesNothing(context, schema, |schema|);
  }

  lemma {:induction false} RefusesNothing(context: Context, schema: Schema, j: nat)
    requires j <= |schema|
    ensures Refused(context, schema, [], j) == multiset{}
  {
    if j > 0 {
      RefusesNothing(context, schema, j - 1);
    }
  }

  lemma OfferInTurn(context: Context, schema: Schema, tool: Armed, items: seq<Item>, n: nat)
    requires Separable(context, schema) && Distinct(items) && n < |items|
    requires forall i: nat :: !OutOfTurn(context, schema, items, n, i)
    requires Kept(context, schema, tool, items[..n])
    ensures Kept(context, schema, tool.Offer(context, items[n]).0, items[..n + 1])
  {
    var before, item := items[..n], items[n];
    assert item !in before && items[..n + 1] == before + [item];
    if i: nat :| i < |schema| && Wants(context, schema[i], Tallied(context, schema[i], before), item) {
      assert !OutOfTurn(context, schema, items, n, i);
      OfferWanted(context, schema, tool, before, item, i);
    } else {
      OfferUnwanted(context, schema, tool, before, item);
    }
  }

  /** While every item comes in turn, the tool keeps every role's account. */
  lemma InTurnKeeps(context: Context, schema: Schema, items: seq<Item>, n: nat)
    requires Separable(context, schema) && Distinct(items) && n <= |items|
    requires forall m: nat, i: nat :: m < n ==> !OutOfTurn(context, schema, items, m, i)
    ensures Kept(context, schema, OfferAll(FreshTool(schema, 0), context, items[..n]), items[..n])
  {
    var keeps := (m: nat, t: Armed) => m <= |items| && Kept(context, schema, t, items[..m]);
    NothingKept(context, schema);
    assert items[..0] == [];
    forall m: nat, t: Armed {:trigger t.Offer(context, items[m])} | m < n && keeps(m, t)
      ensures keeps(m + 1, t.Offer(context, items[m]).0)
    {
      OfferInTurn(context, schema, t, items, m);
    }
    PickingKeeps(context, FreshTool(schema, 0), items, 0, n, keeps);
  }

  // -- the resolver ----------------------------------------------------------

  /** The first `j` roles hold their own accounts, and the rest nothing. */
  ghost predicate AccountsHeld(context: Context, schema: Schema, items: seq<Item>, h: Harvest, j: nat) {
    forall i :: 0 <= i < |schema| ==>
      h.bindings.Get(schema[i].id) ==
      if i < j then Tallied(context, schema[i], items).bindings.Get(schema[i].id) else []
  }

  /** Nothing settled is of a later role's kind. */
  ghost predicate SettledElsewhere(context: Context, schema: Schema, items: seq<Item>, h: Harvest, j: nat)
    requires |h.taken| == |items|
  {
    && (forall k, i :: 0 <= k < |items| && j <= i < |schema| && h.taken[k] ==> !Minds(context, schema[i], items[k]))
    && (forall k, i :: 0 <= k < |h.rejected| && j <= i < |schema| ==> !Minds(context, schema[i], h.rejected[k].item))
  }

  /** The harvest of the first `j` roles. */
  ghost predicate Harvested(context: Context, schema: Schema, items: seq<Item>, h: Harvest, j: nat)
    requires j <= |schema| && |h.taken| == |items|
  {
    && AccountsHeld(context, schema, items, h, j)
    && multiset(h.rejected) == Refused(context, schema, items, j)
    && SettledElsewhere(context, schema, items, h, j)
  }

  /** Part-way through role `j`'s pass over the items. */
  ghost predicate Passing(context: Context, schema: Schema, items: seq<Item>, start: Harvest, h: Harvest, j: nat,
                          n: nat)
    requires j < |schema| && |h.taken| == |start.taken| == |items| && n <= |items|
  {
    var t := Tallied(context, schema[j], items[..n]);
    && h.bindings.Get(schema[j].id) == t.bindings.Get(schema[j].id)
    && (forall i :: 0 <= i < |schema| && i != j ==>
          h.bindings.Get(schema[i].id) == start.bindings.Get(schema[i].id))
    && h.rejected == start.rejected + t.refused
    && (forall k :: n <= k < |items| ==> h.taken[k] == start.taken[k])
    && (forall k :: 0 <= k < n && h.taken[k] ==> start.taken[k] || Minds(context, schema[j], items[k]))
    && (forall k :: 0 <= k < |t.refused| ==> Minds(context, schema[j], t.refused[k].item))
  }

  lemma UnmindedIsIgnored(context: Context, role: Role, bindings: Bindings, item: Item)
    requires !Minds(context, role, item)
    ensures role.accepts(context, bindings, item).WrongKind?
  {
  }

  lemma PassStays(context: Context, schema: Schema, items: seq<Item>, start: Harvest, h: Harvest, j: nat, n: nat)
    requires j < |schema| && n < |items| && |h.taken| == |start.taken| == |items|
    requires Passing(context, schema, items, start, h, j, n)
    requires Tallied(context, schema[j], items[..n + 1]) == Tallied(context, schema[j], items[..n])
    ensures Passing(context, schema, items, start, h, j, n + 1)
  {
  }

  /** The next item settled: what the pass and the account gain agree. */
  lemma PassGains(context: Context, schema: Schema, items: seq<Item>, start: Harvest, h: Harvest, j: nat, n: nat,
                  after: Harvest, gained: seq<Rejection>)
    requires j < |schema| && n < |items| && |after.taken| == |h.taken| == |start.taken| == |items|
    requires Passing(context, schema, items, start, h, j, n) && Minds(context, schema[j], items[n])
    requires after.taken == h.taken[n := true] && after.rejected == h.rejected + gained
    requires forall k :: 0 <= k < |gained| ==> gained[k].item == items[n]
    requires var t, next := Tallied(context, schema[j], items[..n]), Tallied(context, schema[j], items[..n + 1]);
             next.refused == t.refused + gained
             && after.bindings.Get(schema[j].id) == next.bindings.Get(schema[j].id)
    requires forall i :: 0 <= i < |schema| && i != j ==>
               after.bindings.Get(schema[i].id) == h.bindings.Get(schema[i].id)
    ensures Passing(context, schema, items, start, after, j, n + 1)
  {
  }

  /** An item of the role's kind that is still to be settled gets the verdict
      it gets in the role's own account. */
  lemma PassSettles(context: Context, schema: Schema, items: seq<Item>, start: Harvest, h: Harvest, j: nat, n: nat,
                    after: Harvest)
    requires j < |schema| && n < |items| && |h.taken| == |start.taken| == |items|
    requires forall i :: 0 <= i < |schema| && i != j ==> schema[i].id != schema[j].id
    requires Passing(context, schema, items, start, h, j, n)
    requires !h.taken[n] && !IsRejected(h.rejected, items[n]) && Minds(context, schema[j], items[n])
    requires var t := Tallied(context, schema[j], items[..n]);
             HasRoom(schema[j], t.bindings)
             && !schema[j].accepts(context, t.bindings, items[n]).WrongKind?
             && after == Settled(schema[j], h, n, items[n], schema[j].accepts(context, t.bindings, items[n]))
    ensures Passing(context, schema, items, start, after, j, n + 1)
  {
    var role, item, t := schema[j], items[n], Tallied(context, schema[j], items[..n]);
    TallyNext(context, role, items, n);
    PushGets(h.bindings, role.id, item);
    PushGets(t.bindings, role.id, item);
    assert h.rejected + [] == h.rejected && t.refused + [] == t.refused;
    PassGains(context, schema, items, start, h, j, n, after, after.rejected[|h.rejected|..]);
  }

  lemma NotYetRefused(context: Context, schema: Schema, items: seq<Item>, start: Harvest, h: Harvest, j: nat, n: nat)
    requires Distinct(items) && j < |schema| && n < |items| && |h.taken| == |start.taken| == |items|
    requires Harvested(context, schema, items, start, j) && Passing(context, schema, items, start, h, j, n)
    requires Minds(context, schema[j], items[n])
    ensures !IsRejected(h.rejected, items[n])
  {
    TallyIsOrderly(context, schema[j], items[..n]);
    assert items[n] !in items[..n];
  }

  lemma PassNext(context: Context, schema: Schema, items: seq<Item>, start: Harvest, h: Harvest, j: nat, n: nat)
    requires Separable(context, schema) && Distinct(items) && j < |schema| && n < |items|
    requires |h.taken| == |start.taken| == |items|
    requires Harvested(context, schema, items, start, j) && Passing(context, schema, items, start, h, j, n)
    ensures Passing(context, schema, items, start, Consider(context, schema[j], h, n, items[n]), j, n + 1)
  {
    var role, item, t := schema[j], items[n], Tallied(context, schema[j], items[..n]);
    assert role.accepts(context, h.bindings, item) == role.accepts(context, t.bindings, item);
    TallyNext(context, role, items, n);
    if HasRoom(role, t.bindings) && !role.accepts(context, t.bindings, item).WrongKind? {
      assert Minds(context, role, item);
      NotYetRefused(context, schema, items, start, h, j, n);
      assert !h.taken[n];
      PassSettles(context, schema, items, start, h, j, n, Consider(context, role, h, n, item));
    } else {
      PassStays(context, schema, items, start, h, j, n);
    }
  }

  lemma PassStarts(context: Context, schema: Schema, items: seq<Item>, start: Harvest, j: nat)
    requires j < |schema| && |start.taken| == |items| && Harvested(context, schema, items, start, j)
    ensures Passing(context, schema, items, start, start, j, 0)
  {
    assert Tallied(context, schema[j], items[..0]) == NOTHING;
    assert start.rejected + [] == start.rejected;
  }

  lemma KeptByConsider(context: Context, role: Role, items: seq<Item>, n: nat, before: Harvest,
                       keeps: (nat, Harvest) -> bool)
    requires n < |items| == |before.taken|
    requires forall k: nat, h: Harvest {:trigger Consider(context, role, h, k, items[k])} ::
               k < |items| == |h.taken| && keeps(k, h) ==> keeps(k + 1, Consider(context, role, h, k, items[k]))
    ensures keeps(n, before) ==> keeps(n + 1, Consider(context, role, before, n, items[n]))
  {
  }

  /** What every item keeps, a role's pass keeps. */
  lemma {:induction false} ConsideringKeeps(context: Context, role: Role, items: seq<Item>, start: Harvest, n: nat,
                                            keeps: (nat, Harvest) -> bool)
    requires n <= |items| == |start.taken| && keeps(0, start)
    requires forall k: nat, h: Harvest {:trigger Consider(context, role, h, k, items[k])} ::
               k < |items| == |h.taken| && keeps(k, h) ==> keeps(k + 1, Consider(context, role, h, k, items[k]))
    ensures keeps(n, ConsiderFirst(context, role, items, start, n))
  {
    if n > 0 {
      ConsideringKeeps(context, role, items, start, n - 1, keeps);
      KeptByConsider(context, role, items, n - 1, ConsiderFirst(context, role, items, start, n - 1), keeps);
    }
  }

  ghost predicate PassingAt(context: Context, schema: Schema, items: seq<Item>, start: Harvest, j: nat, k: nat,
                            h: Harvest)
  {
    j < |schema| && |h.taken| == |start.taken| == |items| && k <= |items| &&
    Passing(context, schema, items, start, h, j, k)
  }

  lemma PassingNext(context: Context, schema: Schema, items: seq<Item>, start: Harvest, j: nat, k: nat, h: Harvest)
    requires Separable(context, schema) && Distinct(items) && j < |schema| && k < |items| == |start.taken|
    requires Harvested(context, schema, items, start, j) && PassingAt(context, schema, items, start, j, k, h)
    ensures PassingAt(context, schema, items, start, j, k + 1, Consider(context, schema[j], h, k, items[k]))
  {
    PassNext(context, schema, items, start, h, j, k);
  }

  lemma PassGoesOn(context: Context, schema: Schema, items: seq<Item>, start: Harvest, j: nat, n: nat)
    requires Separable(context, schema) && Distinct(items) && j < |schema| && n <= |items| == |start.taken|
    requires Harvested(context, schema, items, start, j)
    ensures PassingAt(context, schema, items, start, j, n, ConsiderFirst(context, schema[j], items, start, n))
  {
    var keeps := (k: nat, h: Harvest) => PassingAt(context, schema, items, start, j, k, h);
    PassStarts(context, schema, items, start, j);
    forall k: nat, h: Harvest {:trigger Consider(context, schema[j], h, k, items[k])}
      | k < |items| == |h.taken| && keeps(k, h)
      ensures keeps(k + 1, Consider(context, schema[j], h, k, items[k]))
    {
      PassingNext(context, schema, items, start, j, k, h);
    }
    ConsideringKeeps(context, schema[j], items, start, n, keeps);
  }

  lemma PassEndsKinds(context: Context, schema: Schema, items: seq<Item>, start: Harvest, h: Harvest, j: nat, i: nat)
    requires Separable(context, schema) && j < i < |schema| && |h.taken| == |start.taken| == |items|
    requires SettledElsewhere(context, schema, items, start, j) && Passing(context, schema, items, start, h, j, |items|)
    ensures forall k :: 0 <= k < |items| && h.taken[k] ==> !Minds(context, schema[i], items[k])
    ensures forall k :: 0 <= k < |h.rejected| ==> !Minds(context, schema[i], h.rejected[k].item)
  {
    var refused := Tallied(context, schema[j], items[..|items|]).refused;
    forall k | 0 <= k < |h.rejected| ensures !Minds(context, schema[i], h.rejected[k].item) {
      if k < |start.rejected| {
        assert h.rejected[k] == start.rejected[k];
      } else {
        assert h.rejected[k] == refused[k - |start.rejected|];
      }
    }
  }

  lemma PassEnds(context: Context, schema: Schema, items: seq<Item>, start: Harvest, h: Harvest, j: nat)
    requires Separable(context, schema) && j < |schema| && |h.taken| == |start.taken| == |items|
    requires Harvested(context, schema, items, start, j) && Passing(context, schema, items, start, h, j, |items|)
    ensures Harvested(context, schema, items, h, j + 1)
  {
    assert items[..|items|] == items;
    forall i | j < i < |schema|
      ensures forall k :: 0 <= k < |items| && h.taken[k] ==> !Minds(context, schema[i], items[k])
      ensures forall k :: 0 <= k < |h.rejected| ==> !Minds(context, schema[i], h.rejected[k].item)
    {
      PassEndsKinds(context, schema, items, start, h, j, i);
    }
  }

  lemma NothingHarvested(context: Context, schema: Schema, items: seq<Item>)
    ensures Harvested(context, schema, items, HarvestAll(context, schema, items, 0), 0)
  {
  }

  lemma HarvestNext(context: Context, schema: Schema, items: seq<Item>, start: Harvest, j: nat)
    requires Separable(context, schema) && Distinct(items) && j < |schema| && |start.taken| == |items|
    requires Harvested(context, schema, items, start, j)
    ensures Harvested(context, schema, items, HarvestRole(context, schema[j], items, start), j + 1)
  {
    PassGoesOn(context, schema, items, start, j, |items|);
    PassEnds(context, schema, items, start, ConsiderFirst(context, schema[j], items, start, |items|), j);
  }

  ghost predicate HarvestedAt(context: Context, schema: Schema, items: seq<Item>, k: nat, h: Harvest) {
    k <= |schema| && |h.taken| == |items| && Harvested(context, schema, items, h, k)
  }

  lemma HarvestedNext(context: Context, schema: Schema, items: seq<Item>, k: nat, h: Harvest)
    requires Separable(context, schema) && Distinct(items) && k < |schema| && HarvestedAt(context, schema, items, k, h)
    ensures HarvestedAt(context, schema, items, k + 1, HarvestRole(context, schema[k], items, h))
  {
    HarvestNext(context, schema, items, h, k);
  }

  lemma StartsHarvested(context: Context, schema: Schema, items: seq<Item>)
    ensures HarvestedAt(context, schema, items, 0, HarvestAll(context, schema, items, 0))
  {
    NothingHarvested(context, schema, items);
  }

  lemma HarvestedAlways(context: Context, schema: Schema, items: seq<Item>, keeps: (nat, Harvest) -> bool)
    requires Separable(context, schema) && Distinct(items)
    requires forall k: nat, h: Harvest {:trigger keeps(k, h)} ::
               keeps(k, h) <==> HarvestedAt(context, schema, items, k, h)
    ensures forall k: nat, h: Harvest {:trigger HarvestRole(context, schema[k], items, h)} ::
              k < |schema| && |h.taken| == |items| && keeps(k, h) ==>
              keeps(k + 1, HarvestRole(context, schema[k], items, h))
  {
    forall k: nat, h: Harvest {:trigger HarvestRole(context, schema[k], items, h)}
      | k < |schema| && |h.taken| == |items| && keeps(k, h)
      ensures keeps(k + 1, HarvestRole(context, schema[k], items, h))
    {
      HarvestedNext(context, schema, items, k, h);
    }
  }

  /** What every role's pass keeps, harvesting keeps. */
  lemma {:induction false} HarvestingKeeps(context: Context, schema: Schema, items: seq<Item>, j: nat,
                                           keeps: (nat, Harvest) -> bool)
    requires j <= |schema| && keeps(0, HarvestAll(context, schema, items, 0))
    requires forall k: nat, h: Harvest {:trigger HarvestRole(context, schema[k], items, h)} ::
               k < |schema| && |h.taken| == |items| && keeps(k, h) ==>
               keeps(k + 1, HarvestRole(context, schema[k], items, h))
    ensures keeps(j, HarvestAll(context, schema, items, j))
  {
    if j > 0 {
      HarvestingKeeps(context, schema, items, j - 1, keeps);
    }
  }

  /** The resolver holds every role's account of all the items. */
  lemma HarvestIsTallied(context: Context, schema: Schema, items: seq<Item>, j: nat)
    requires Separable(context, schema) && Distinct(items) && j <= |schema|
    ensures HarvestedAt(context, schema, items, j, HarvestAll(context, schema, items, j))
  {
    var keeps := (k: nat, h: Harvest) => HarvestedAt(context, schema, items, k, h);
    StartsHarvested(context, schema, items);
    HarvestedAlways(context, schema, items, keeps);
    HarvestingKeeps(context, schema, items, j, keeps);
  }

  // -- out of turn -----------------------------------------------------------

  /** The tool has nothing to do with this item. */
  ghost predicate Unmet(tool: Armed, schema: Schema, item: Item) {
    && tool.schema == schema
    && (forall i :: 0 <= i < |schema| ==> item !in tool.bindings.Get(schema[i].id))
    && (forall k :: 0 <= k < |tool.diagnostics.rejected| ==> tool.diagnostics.rejected[k].item != item)
  }

  lemma OfferBringsOnly(context: Context, tool: Armed, item: Item, id: RoleId, x: Item)
    requires x in tool.Offer(context, item).0.bindings.Get(id)
    ensures x in tool.bindings.Get(id) || x == item
  {
    if tool.Taking().Some? {
      var r := tool.Taking().value;
      PushGets(tool.bindings, r.id, item);
      RemoveGets(tool.bindings, r.id, item);
      WithoutMembers(tool.bindings.Get(r.id), item);
    }
  }

  lemma OfferRefusesOnly(context: Context, tool: Armed, item: Item)
    ensures var before, after := tool.diagnostics.rejected, tool.Offer(context, item).0.diagnostics.rejected;
            after == before || (after != [] && after[..|after| - 1] == before && after[|after| - 1].item == item)
  {
  }

  lemma OfferKeepsUnmet(context: Context, schema: Schema, tool: Armed, item: Item, other: Item)
    requires Unmet(tool, schema, item) && other != item
    ensures Unmet(tool.Offer(context, other).0, schema, item)
  {
    var after := tool.Offer(context, other).0;
    forall i | 0 <= i < |schema| ensures item !in after.bindings.Get(schema[i].id) {
      if item in after.bindings.Get(schema[i].id) {
        OfferBringsOnly(context, tool, other, schema[i].id, item);
      }
    }
    OfferRefusesOnly(context, tool, other);
  }

  lemma StaysUnmet(context: Context, schema: Schema, items: seq<Item>, n: nat, m: nat)
    requires Distinct(items) && n < m <= |items|
    requires Unmet(OfferAll(FreshTool(schema, 0), context, items[..n + 1]), schema, items[n])
    ensures Unmet(OfferAll(FreshTool(schema, 0), context, items[..m]), schema, items[n])
  {
    var keeps := (k: nat, t: Armed) => Unmet(t, schema, items[n]);
    forall k: nat, t: Armed {:trigger t.Offer(context, items[k])} | n < k < m && keeps(k, t)
      ensures keeps(k + 1, t.Offer(context, items[k]).0)
    {
      OfferKeepsUnmet(context, schema, t, items[n], items[k]);
    }
    PickingKeeps(context, FreshTool(schema, 0), items, n + 1, m, keeps);
  }

  lemma RefusedItems(context: Context, schema: Schema, items: seq<Item>, j: nat, r: Rejection)
    requires j <= |schema| && r in Refused(context, schema, items, j)
    ensures r.item in items
  {
    if j > 0 {
      TallyIsOrderly(context, schema[j - 1], items);
      if r in multiset(Tallied(context, schema[j - 1], items).refused) {
        assert r in Tallied(context, schema[j - 1], items).refused;
      } else {
        RefusedItems(context, schema, items, j - 1, r);
      }
    }
  }

  lemma OutOfTurnIsIgnored(context: Context, schema: Schema, items: seq<Item>, n: nat, i: nat, tool: Armed)
    requires Separable(context, schema) && OutOfTurn(context, schema, items, n, i)
    requires Kept(context, schema, tool, items[..n]) && items[n] !in items[..n]
    ensures tool.Offer(context, items[n]).0 == tool
  {
    KeptWithin(context, schema, tool, items[..n]);
    if tool.Taking().Some? {
      var j := TakingHasRoom(tool, tool.Taking().value);
      WantedIsMinded(context, schema[i], Tallied(context, schema[i], items[..n]), items[n]);
      assert !Minds(context, schema[j], items[n]);
      UnmindedIsIgnored(context, schema[j], tool.bindings, items[n]);
    }
  }

  /** A tool has nothing to do with what it was never offered. */
  lemma UnofferedIsUnmet(context: Context, schema: Schema, tool: Armed, items: seq<Item>, item: Item)
    requires Separable(context, schema) && Kept(context, schema, tool, items) && item !in items
    ensures Unmet(tool, schema, item)
  {
    KeptWithin(context, schema, tool, items);
    forall k | 0 <= k < |tool.diagnostics.rejected| ensures tool.diagnostics.rejected[k].item != item {
      var r := tool.diagnostics.rejected[k];
      assert r in multiset(tool.diagnostics.rejected);
      RefusedItems(context, schema, items, |schema|, r);
    }
  }

  /** An item out of turn is passed over. */
  lemma OutOfTurnIsUnmet(context: Context, schema: Schema, items: seq<Item>, n: nat, i: nat, tool: Armed)
    requires Separable(context, schema) && Distinct(items) && OutOfTurn(context, schema, items, n, i)
    requires tool == OfferAll(FreshTool(schema, 0), context, items[..n])
    requires Kept(context, schema, tool, items[..n])
    ensures Unmet(OfferAll(FreshTool(schema, 0), context, items[..n + 1]), schema, items[n])
  {
    OfferedNext(FreshTool(schema, 0), context, items, n, tool);
    assert items[n] !in items[..n];
    OutOfTurnIsIgnored(context, schema, items, n, i, tool);
    UnofferedIsUnmet(context, schema, tool, items[..n], items[n]);
  }

  /** What an account has bound or refused it goes on holding. */
  ghost predicate Holds(role: Role, t: Tally, item: Item) {
    item in t.bindings.Get(role.id) || exists k :: 0 <= k < |t.refused| && t.refused[k].item == item
  }

  lemma WantedIsHeld(context: Context, role: Role, t: Tally, item: Item)
    requires Wants(context, role, t, item)
    ensures Holds(role, TallyOne(context, role, t, item), item)
  {
    PushGets(t.bindings, role.id, item);
    var after := TallyOne(context, role, t, item);
    if !role.accepts(context, t.bindings, item).Accept? {
      assert after.refused[|t.refused|].item == item;
    }
  }

  lemma HeldNext(context: Context, role: Role, t: Tally, held: Item, item: Item)
    requires Holds(role, t, held)
    ensures Holds(role, TallyOne(context, role, t, item), held)
  {
    PushGets(t.bindings, role.id, item);
    var after := TallyOne(context, role, t, item);
    if k :| 0 <= k < |t.refused| && t.refused[k].item == held {
      assert after.refused[k].item == held;
    }
  }

  /** What every item keeps, an account keeps. */
  lemma {:induction false} TallyingKeeps(context: Context, role: Role, t: Tally, items: seq<Item>, keeps: Tally -> bool)
    requires keeps(t)
    requires forall u: Tally, x: Item {:trigger TallyOne(context, role, u, x)} ::
               keeps(u) ==> keeps(TallyOne(context, role, u, x))
    ensures keeps(TallyFrom(context, role, t, items))
  {
    if items != [] {
      TallyingKeeps(context, role, t, items[..|items| - 1], keeps);
    }
  }

  lemma HeldAlong(context: Context, role: Role, t: Tally, items: seq<Item>, held: Item)
    requires Holds(role, t, held)
    ensures Holds(role, TallyFrom(context, role, t, items), held)
  {
    var keeps := (u: Tally) => Holds(role, u, held);
    forall u: Tally, x: Item {:trigger TallyOne(context, role, u, x)} | keeps(u)
      ensures keeps(TallyOne(context, role, u, x))
    {
      HeldNext(context, role, u, held, x);
    }
    TallyingKeeps(context, role, t, items, keeps);
  }

  lemma HeldOn(context: Context, role: Role, items: seq<Item>, n: nat)
    requires n < |items| && Wants(context, role, Tallied(context, role, items[..n]), items[n])
    ensures Holds(role, Tallied(context, role, items), items[n])
  {
    var before := Tallied(context, role, items[..n]);
    WantedIsHeld(context, role, before, items[n]);
    HeldAlong(context, role, TallyOne(context, role, before, items[n]), items[n + 1..], items[n]);
    TallyAround(context, role, items, n);
  }

  lemma {:induction false} RefusedAmong(context: Context, schema: Schema, items: seq<Item>, j: nat, i: nat,
                                        r: Rejection)
    requires i < j <= |schema| && r in Tallied(context, schema[i], items).refused
    ensures r in Refused(context, schema, items, j)
  {
    if i < j - 1 {
      RefusedAmong(context, schema, items, j - 1, i, r);
    }
  }

  /** A tool that passed over an item one role holds does not agree. */
  lemma UnmetDisagrees(context: Context, schema: Schema, items: seq<Item>, tool: Armed, h: Harvest, i: nat, item: Item)
    requires |h.taken| == |items| && Harvested(context, schema, items, h, |schema|) && i < |schema|
    requires Unmet(tool, schema, item) && Holds(schema[i], Tallied(context, schema[i], items), item)
    ensures !Agree(schema, tool, h)
  {
    var t := Tallied(context, schema[i], items);
    if item !in t.bindings.Get(schema[i].id) {
      var k :| 0 <= k < |t.refused| && t.refused[k].item == item;
      RefusedAmong(context, schema, items, |schema|, i, t.refused[k]);
      assert t.refused[k] in multiset(h.rejected);
      assert t.refused[k] !in tool.diagnostics.rejected;
      assert t.refused[k] !in multiset(tool.diagnostics.rejected);
    }
  }

  lemma {:induction false} FirstOutOfTurn(context: Context, schema: Schema, items: seq<Item>, m: nat)
    returns (n: nat, i: nat)
    requires exists k: nat, r: nat :: k < m && OutOfTurn(context, schema, items, k, r)
    ensures n < m && OutOfTurn(context, schema, items, n, i)
    ensures forall k: nat, r: nat :: k < n ==> !OutOfTurn(context, schema, items, k, r)
  {
    if exists k: nat, r: nat :: k < m - 1 && OutOfTurn(context, schema, items, k, r) {
      n, i := FirstOutOfTurn(context, schema, items, m - 1);
    } else {
      n := m - 1;
      i :| OutOfTurn(context, schema, items, n, i);
    }
  }

  lemma OutOfTurnDisagrees(context: Context, schema: Schema, items: seq<Item>)
    requires Separable(context, schema) && Distinct(items) && !AllInTurn(context, schema, items)
    ensures !OrdersAgree(context, schema, items)
  {
    var n, i := FirstOutOfTurn(context, schema, items, |items|);
    InTurnKeeps(context, schema, items, n);
    OutOfTurnIsUnmet(context, schema, items, n, i, OfferAll(FreshTool(schema, 0), context, items[..n]));
    StaysUnmet(context, schema, items, n, |items|);
    HeldOn(context, schema[i], items, n);
    HarvestIsTallied(context, schema, items, |schema|);
    assert items[..|items|] == items;
    UnmetDisagrees(context, schema, items, OfferAll(FreshTool(schema, 0), context, items),
                   HarvestAll(context, schema, items, |schema|), i, items[n]);
  }

  /** For several harvested roles of disjoint kinds, picking and selecting
      agree exactly when no item is wanted by one role in another's turn. */
  lemma RolesAgreeInTurn(context: Context, schema: Schema, items: seq<Item>)
    requires Separable(context, schema) && Distinct(items)
    ensures OrdersAgree(context, schema, items) <==> AllInTurn(context, schema, items)
  {
    if AllInTurn(context, schema, items) {
      InTurnKeeps(context, schema, items, |items|);
      HarvestIsTallied(context, schema, items, |schema|);
      assert items[..|items|] == items;
    } else {
      OutOfTurnDisagrees(context, schema, items);
    }
  }
}
