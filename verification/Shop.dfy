/** The shopping environment: one episode as a state machine, and the score of a finished episode. */
module Shop {
  import opened Basics

  type Sku = string
  type Cents = int

  /** Weight in tenths of a pound. */
  datatype Product = Product(sku: Sku, price: Cents, ramGb: int, weight: int, batteryHrs: int)

  datatype ConstraintKey = MaxPrice | MinRam | MaxWeight | MinBattery

  type Constraints = map<ConstraintKey, int>

  /** The product meets every active constraint. */
  predicate Satisfies(p: Product, cs: Constraints) {
    && !(MaxPrice in cs && p.price > cs[MaxPrice])
    && !(MinRam in cs && p.ramGb < cs[MinRam])
    && !(MaxWeight in cs && p.weight > cs[MaxWeight])
    && !(MinBattery in cs && p.batteryHrs < cs[MinBattery])
  }

  datatype Goal = Goal(budget: Cents, constraints: Constraints, targetItems: int)

  /** An action as parsed; SKUs are upper-cased, and unparseable criteria are empty. */
  datatype Action =
    | AddToCart(sku: Sku)
    | Remove(sku: Sku)
    | ApplyFilter(criteria: Constraints)
    | Checkout
    | Invalid

  datatype EnvState = EnvState(
    remaining: Cents,
    cart: seq<Sku>,
    filters: Constraints,
    turn: nat,
    done: bool,
    checkedOut: bool)

  type Index = map<Sku, Product>

  /** A product is indexed under its own SKU; of two with one SKU the last stays. */
  function IndexOf(catalog: seq<Product>): (idx: Index)
    ensures forall s :: s in idx ==> idx[s].sku == s && idx[s] in catalog
    ensures forall p :: p in catalog ==> p.sku in idx
  {
    if catalog == [] then map[]
    else
      var n := |catalog| - 1;
      var rest := IndexOf(catalog[..n]);
      assert catalog == catalog[..n] + [catalog[n]];
      rest[catalog[n].sku := catalog[n]]
  }

  function Initial(goal: Goal): EnvState {
    EnvState(goal.budget, [], map[], 0, false, false)
  }

  /** list.remove: the first occurrence goes. */
  function WithoutFirst(cart: seq<Sku>, sku: Sku): seq<Sku>
    requires sku in cart
  {
    if cart[0] == sku then cart[1..] else [cart[0]] + WithoutFirst(cart[1..], sku)
  }

  /** The effect of a turn before the turn limit is looked at, and whether the action was valid. */
  function Acted(idx: Index, s: EnvState, a: Action): (EnvState, bool) {
    match a
    case AddToCart(sku) =>
      if sku !in idx || idx[sku].price > s.remaining then (s, false)
      else (s.(cart := s.cart + [idx[sku].sku], remaining := s.remaining - idx[sku].price), true)
    case Remove(sku) =>
      if sku in s.cart && sku in idx
      then (s.(cart := WithoutFirst(s.cart, sku), remaining := s.remaining + idx[sku].price), true)
      else (s, false)
    case ApplyFilter(criteria) =>
      if criteria == map[] then (s, false) else (s.(filters := s.filters + criteria), true)
    case Checkout => (s.(checkedOut := true, done := true), true)
    case Invalid => (s, false)
  }

  function Next(idx: Index, maxTurns: int, s: EnvState, a: Action): EnvState {
    if s.done then s
    else
      var t := Acted(idx, s.(turn := s.turn + 1), a).0;
      if t.turn >= maxTurns then t.(done := true) else t
  }

  method ListRemove(cart: seq<Sku>, sku: Sku) returns (rest: seq<Sku>)
    requires sku in cart
    ensures rest == WithoutFirst(cart, sku)
  {
    var i := 0;
    while cart[i] != sku
      invariant 0 <= i < |cart| && sku !in cart[..i]
      decreases |cart| - i
    {
      i := i + 1;
      assert cart[..i] == cart[..i - 1] + [cart[i - 1]];
      assert cart == cart[..i] + cart[i..];
    }
    FirstAt(cart, sku, i);
    rest := cart[..i] + cart[i + 1..];
  }

  lemma {:induction false} FirstAt(cart: seq<Sku>, sku: Sku, i: nat)
    requires i < |cart| && cart[i] == sku && sku !in cart[..i]
    ensures WithoutFirst(cart, sku) == cart[..i] + cart[i + 1..]
  {
    if i > 0 {
      assert cart[..i] == [cart[0]] + cart[1..][..i - 1];
      FirstAt(cart[1..], sku, i - 1);
    }
  }

  class ShopEnv {
    const catalog: seq<Product>
    const idx: Index
    const goal: Goal
    const maxTurns: int
    var state: Option<EnvState>

    /** In an episode, what is left plus the cart is the budget. */
    ghost predicate Valid()
      reads this
    {
      && idx == IndexOf(catalog)
      && (state.Some? ==> Balanced(idx, goal, state.value))
    }

    constructor (catalog: seq<Product>, goal: Goal, maxTurns: int)
      ensures Valid()
      ensures this.catalog == catalog && idx == IndexOf(catalog)
      ensures this.goal == goal && this.maxTurns == maxTurns && state == None
    {
      this.catalog := catalog;
      this.idx := IndexOf(catalog);
      this.goal := goal;
      this.maxTurns := maxTurns;
      this.state := None;
    }

    method Reset()
      requires Valid()
      modifies this
      ensures Valid() && state == Some(Initial(goal))
    {
      state := Some(EnvState(goal.budget, [], map[], 0, false, false));
    }

    /** None is the error of a step before reset; otherwise (done, valid). */
    method Step(a: Action) returns (r: Option<(bool, bool)>)
      requires Valid()
      modifies this
      ensures Valid()
      ensures old(state) == None ==> r == None && state == None
      ensures old(state).Some? ==>
                && state == Some(Next(idx, maxTurns, old(state).value, a))
                && r == Some((state.value.done,
                              !old(state).value.done
                              && Acted(idx, old(state).value.(turn := old(state).value.turn + 1), a).1))
    {
      hide CartValue, WithoutFirst, IndexOf;
      if state == None {
        return None;
      }
      var s := state.value;
      if s.done {
        return Some((true, false));
      }
      s := s.(turn := s.turn + 1);
      var valid := true;
      match a {
        case AddToCart(sku) =>
          if sku !in idx {
            valid := false;
          } else if idx[sku].price > s.remaining {
            valid := false;
          } else {
            s := s.(cart := s.cart + [idx[sku].sku], remaining := s.remaining - idx[sku].price);
          }
        case Remove(sku) =>
          if sku in s.cart {
            var rest := ListRemove(s.cart, sku);
            s := s.(cart := rest, remaining := s.remaining + idx[sku].price);
          } else {
            valid := false;
          }
        case ApplyFilter(criteria) =>
          if criteria != map[] {
            s := s.(filters := s.filters + criteria);
          } else {
            valid := false;
          }
        case Checkout =>
          s := s.(checkedOut := true, done := true);
        case Invalid =>
          valid := false;
      }
      if s.turn >= maxTurns {
        s := s.(done := true);
      }
      StepBalanced(idx, goal, maxTurns, state.value, a);
      state := Some(s);
      return Some((s.done, valid));
    }
  }

  // ------------------------------------------------------------ conservation over whole episodes

  function Play(idx: Index, maxTurns: int, s: EnvState, actions: seq<Action>): EnvState
    decreases |actions|
  {
    if actions == [] then s else Play(idx, maxTurns, Next(idx, maxTurns, s, actions[0]), actions[1..])
  }

  /** The catalog prices of all cart entries, repeats counted. */
  function CartValue(idx: Index, cart: seq<Sku>): Cents
    requires forall s :: s in cart ==> s in idx
  {
    if cart == [] then 0 else idx[cart[0]].price + CartValue(idx, cart[1..])
  }

  lemma {:induction false} CartValueAppend(idx: Index, cart: seq<Sku>, sku: Sku)
    requires sku in idx && forall s :: s in cart ==> s in idx
    ensures forall s :: s in cart + [sku] ==> s in idx
    ensures CartValue(idx, cart + [sku]) == CartValue(idx, cart) + idx[sku].price
  {
    if cart == [] {
      assert [] + [sku] == [sku];
    } else {
      CartValueAppend(idx, cart[1..], sku);
      assert (cart + [sku])[1..] == cart[1..] + [sku];
    }
  }

  lemma {:induction false} CartValueRemove(idx: Index, cart: seq<Sku>, sku: Sku)
    requires sku in cart && forall s :: s in cart ==> s in idx
    ensures forall s :: s in WithoutFirst(cart, sku) ==> s in cart
    ensures CartValue(idx, WithoutFirst(cart, sku)) == CartValue(idx, cart) - idx[sku].price
    ensures multiset(WithoutFirst(cart, sku)) == multiset(cart) - multiset{sku}
  {
    assert cart == [cart[0]] + cart[1..];
    if cart[0] != sku {
      CartValueRemove(idx, cart[1..], sku);
      var rest := WithoutFirst(cart[1..], sku);
      assert ([cart[0]] + rest)[1..] == rest;
    }
  }

  /** Money is neither made nor lost: what is left plus the cart is the budget. */
  ghost predicate Balanced(idx: Index, goal: Goal, s: EnvState) {
    && (forall k :: k in s.cart ==> k in idx)
    && s.remaining + CartValue(idx, s.cart) == goal.budget
  }

  ghost predicate OwnSkus(idx: Index) {
    forall s :: s in idx ==> idx[s].sku == s
  }

  ghost predicate PricesNonNegative(idx: Index) {
    forall s :: s in idx ==> idx[s].price >= 0
  }

  lemma StepBalanced(idx: Index, goal: Goal, maxTurns: int, s: EnvState, a: Action)
    requires OwnSkus(idx) && Balanced(idx, goal, s)
    ensures Balanced(idx, goal, Next(idx, maxTurns, s, a))
    ensures PricesNonNegative(idx) && s.remaining >= 0 ==> Next(idx, maxTurns, s, a).remaining >= 0
  {
    hide CartValue, WithoutFirst;
    match a
    case AddToCart(sku) => if sku in idx { CartValueAppend(idx, s.cart, sku); }
    case Remove(sku) => if sku in s.cart { CartValueRemove(idx, s.cart, sku); }
    case _ =>
  }

  /** In every reachable state remaining budget plus cart value equals the budget. */
  lemma {:induction false} BudgetIsConserved(idx: Index, goal: Goal, maxTurns: int, s: EnvState, actions: seq<Action>)
    requires OwnSkus(idx) && Balanced(idx, goal, s)
    ensures Balanced(idx, goal, Play(idx, maxTurns, s, actions))
    ensures PricesNonNegative(idx) && s.remaining >= 0 ==> Play(idx, maxTurns, s, actions).remaining >= 0
    decreases |actions|
  {
    if actions != [] {
      StepBalanced(idx, goal, maxTurns, s, actions[0]);
      BudgetIsConserved(idx, goal, maxTurns, Next(idx, maxTurns, s, actions[0]), actions[1..]);
    }
  }

  /** An episode from reset(): conserved, never over budget. */
  lemma EpisodeNeverOverspends(catalog: seq<Product>, goal: Goal, maxTurns: int, actions: seq<Action>)
    requires goal.budget >= 0 && forall p :: p in catalog ==> p.price >= 0
    ensures var idx, s := IndexOf(catalog), Play(IndexOf(catalog), maxTurns, Initial(goal), actions);
            && Balanced(idx, goal, s)
            && 0 <= s.remaining
            && CartValue(idx, s.cart) <= goal.budget
  {
    BudgetIsConserved(IndexOf(catalog), goal, maxTurns, Initial(goal), actions);
  }

  lemma {:induction false} TurnsAdvance(idx: Index, maxTurns: int, s: EnvState, actions: seq<Action>)
    ensures var t := Play(idx, maxTurns, s, actions);
            && s.turn <= t.turn <= s.turn + |actions|
            && (!t.done ==> t.turn == s.turn + |actions|)
            && (!s.done && !t.done && actions != [] ==> t.turn < maxTurns)
    decreases |actions|
  {
    if actions != [] {
      var s1 := Next(idx, maxTurns, s, actions[0]);
      TurnsAdvance(idx, maxTurns, s1, actions[1..]);
      if s1.done {
        DoneIsFrozen(idx, maxTurns, s1, actions[1..]);
      }
    }
  }

  /** The episode is over after max(1, maxTurns) steps at the latest. */
  lemma EpisodeEnds(idx: Index, goal: Goal, maxTurns: int, actions: seq<Action>)
    requires |actions| >= Max(1, maxTurns)
    ensures Play(idx, maxTurns, Initial(goal), actions).done
    ensures Play(idx, maxTurns, Initial(goal), actions).turn <= Max(1, maxTurns)
  {
    TurnsAdvance(idx, maxTurns, Initial(goal), actions);
    TurnLimit(idx, maxTurns, Initial(goal), actions);
  }

  lemma {:induction false} TurnLimit(idx: Index, maxTurns: int, s: EnvState, actions: seq<Action>)
    requires s.turn <= Max(1, maxTurns) && (!s.done ==> s.turn < Max(1, maxTurns))
    ensures Play(idx, maxTurns, s, actions).turn <= Max(1, maxTurns)
    decreases |actions|
  {
    if actions != [] {
      TurnLimit(idx, maxTurns, Next(idx, maxTurns, s, actions[0]), actions[1..]);
    }
  }

  /** A finished episode is frozen. */
  lemma {:induction false} DoneIsFrozen(idx: Index, maxTurns: int, s: EnvState, actions: seq<Action>)
    requires s.done
    ensures Play(idx, maxTurns, s, actions) == s
    decreases |actions|
  {
    if actions != [] {
      DoneIsFrozen(idx, maxTurns, s, actions[1..]);
    }
  }

  // ------------------------------------------------------------ what each action does

  /**
   The turn is counted in any case; the episode ends by checkout or at the last turn, and only checkout
   checks out.
   */
  lemma EveryTurn(idx: Index, maxTurns: int, s: EnvState, a: Action)
    requires !s.done
    ensures var s' := Next(idx, maxTurns, s, a);
            && s'.turn == s.turn + 1
            && (s'.done <==> a == Checkout || s.turn + 1 >= maxTurns)
            && (s'.checkedOut <==> a == Checkout || s.checkedOut)
            && (!a.ApplyFilter? ==> s'.filters == s.filters)
            && (!a.AddToCart? && !a.Remove? ==> s'.cart == s.cart && s'.remaining == s.remaining)
            && (!Acted(idx, s.(turn := s.turn + 1), a).1 ==> s'.cart == s.cart && s'.filters == s.filters)
  {
  }

  /**
   When an action is valid: an affordable indexed SKU to add, one in the cart to remove, some criteria,
   or checkout.
   */
  lemma ValidExactly(idx: Index, s: EnvState, a: Action)
    requires forall k :: k in s.cart ==> k in idx
    ensures Acted(idx, s, a).1 <==>
              match a
              case AddToCart(sku) => sku in idx && idx[sku].price <= s.remaining
              case Remove(sku) => sku in s.cart
              case ApplyFilter(criteria) => exists k :: k in criteria
              case Checkout => true
              case Invalid => false
  {
    if a.ApplyFilter? && a.criteria != map[] {
      var k :| k in a.criteria;
    }
  }

  /** A valid add puts the product at the end of the cart and takes its price. */
  lemma AddMoves(idx: Index, maxTurns: int, s: EnvState, sku: Sku)
    requires !s.done && OwnSkus(idx) && sku in idx && idx[sku].price <= s.remaining
    ensures var s' := Next(idx, maxTurns, s, AddToCart(sku));
            s'.cart == s.cart + [sku] && s'.remaining == s.remaining - idx[sku].price
  {
    assert idx[sku].sku == sku;
  }

  /** A valid remove takes one of the product out of the cart and gives its price back. */
  lemma RemoveMoves(idx: Index, maxTurns: int, s: EnvState, sku: Sku)
    requires !s.done && sku in s.cart && forall k :: k in s.cart ==> k in idx
    ensures var s' := Next(idx, maxTurns, s, Remove(sku));
            multiset(s'.cart) == multiset(s.cart) - multiset{sku} && s'.remaining == s.remaining + idx[sku].price
  {
    CartValueRemove(idx, s.cart, sku);
    hide WithoutFirst, CartValue;
  }

  /** The filter value of a key, if there is one. */
  function FilterOf(filters: Constraints, k: ConstraintKey): Option<int> {
    if k in filters then Some(filters[k]) else None
  }

  /** A filter changes the keys that it states and leaves the others. */
  lemma FiltersAccumulate(idx: Index, maxTurns: int, s: EnvState, criteria: Constraints, k: ConstraintKey)
    requires !s.done
    ensures var s' := Next(idx, maxTurns, s, ApplyFilter(criteria));
            FilterOf(s'.filters, k) == if k in criteria then Some(criteria[k]) else FilterOf(s.filters, k)
  {
  }

  /** The value last stated for the key before the episode was over. */
  function LastStated(idx: Index, maxTurns: int, s: EnvState, actions: seq<Action>, k: ConstraintKey): Option<int>
    decreases |actions|
  {
    if actions == [] || s.done then FilterOf(s.filters, k)
    else
      var n, last := |actions| - 1, actions[|actions| - 1];
      if last.ApplyFilter? && k in last.criteria && !Play(idx, maxTurns, s, actions[..n]).done
      then Some(last.criteria[k])
      else LastStated(idx, maxTurns, s, actions[..n], k)
  }

  lemma {:induction false} PlaySnoc(idx: Index, maxTurns: int, s: EnvState, actions: seq<Action>)
    requires actions != []
    ensures var n := |actions| - 1;
            Play(idx, maxTurns, s, actions) == Next(idx, maxTurns, Play(idx, maxTurns, s, actions[..n]), actions[n])
    decreases |actions|
  {
    var n := |actions| - 1;
    hide Next;
    if n > 0 {
      PlaySnoc(idx, maxTurns, Next(idx, maxTurns, s, actions[0]), actions[1..]);
      assert actions[1..][..n - 1] == actions[..n][1..];
    } else {
      assert actions[1..] == [];
    }
  }

  /** Over an episode each filter key holds the value last stated for it. */
  lemma {:induction false} FiltersHoldTheLastStated(idx: Index, maxTurns: int, s: EnvState, actions: seq<Action>,
                                                   k: ConstraintKey)
    ensures FilterOf(Play(idx, maxTurns, s, actions).filters, k) == LastStated(idx, maxTurns, s, actions, k)
    decreases |actions|
  {
    if s.done {
      DoneIsFrozen(idx, maxTurns, s, actions);
    } else if actions != [] {
      var n := |actions| - 1;
      var before, last := Play(idx, maxTurns, s, actions[..n]), actions[n];
      FiltersHoldTheLastStated(idx, maxTurns, s, actions[..n], k);
      PlaySnoc(idx, maxTurns, s, actions);
      if !before.done {
        EveryTurn(idx, maxTurns, before, last);
        if last.ApplyFilter? {
          FiltersAccumulate(idx, maxTurns, before, last.criteria, k);
        }
      }
      hide Next, Play;
      assert before.done ==> Next(idx, maxTurns, before, last) == before by {
        NextWhenDone(idx, maxTurns, before, last);
      }
    }
  }

  lemma NextWhenDone(idx: Index, maxTurns: int, s: EnvState, a: Action)
    ensures s.done ==> Next(idx, maxTurns, s, a) == s
  {
  }

  /** Of two products with one SKU the later one is bought. */
  lemma {:induction false} LastProductIsIndexed(catalog: seq<Product>, k: nat)
    requires k < |catalog| && forall j :: k < j < |catalog| ==> catalog[j].sku != catalog[k].sku
    ensures catalog[k].sku in IndexOf(catalog) && IndexOf(catalog)[catalog[k].sku] == catalog[k]
  {
    hide IndexOf;
    var n := |catalog| - 1;
    IndexStep(catalog);
    if k < n {
      var fewer := catalog[..n];
      forall j | k < j < |fewer| ensures fewer[j].sku != fewer[k].sku {
        assert fewer[j] == catalog[j];
      }
      assert fewer[k] == catalog[k];
      LastProductIsIndexed(fewer, k);
    }
  }

  lemma IndexStep(catalog: seq<Product>)
    requires catalog != []
    ensures var n := |catalog| - 1; IndexOf(catalog) == IndexOf(catalog[..n])[catalog[n].sku := catalog[n]]
  {
  }

  // ------------------------------------------------------------ what the shopper sees

  function Matching(catalog: seq<Product>, filters: Constraints): seq<Product> {
    if catalog == [] then []
    else (if Satisfies(catalog[0], filters) then [catalog[0]] else []) + Matching(catalog[1..], filters)
  }

  function Candidates(catalog: seq<Product>, filters: Constraints, limit: nat): seq<Product> {
    var matches := Matching(catalog, filters);
    matches[..Min(limit, |matches|)]
  }

  lemma {:induction false} MatchingIff(catalog: seq<Product>, filters: Constraints, p: Product)
    ensures p in Matching(catalog, filters) <==> p in catalog && Satisfies(p, filters)
  {
    if catalog != [] {
      MatchingIff(catalog[1..], filters, p);
      assert catalog == [catalog[0]] + catalog[1..];
    }
  }

  /** Candidates match the filters, and none is missing unless the limit was reached. */
  lemma CandidatesMatch(catalog: seq<Product>, filters: Constraints, limit: nat, p: Product)
    ensures p in Candidates(catalog, filters, limit) ==> p in catalog && Satisfies(p, filters)
    ensures p in catalog && Satisfies(p, filters) ==>
              p in Candidates(catalog, filters, limit) || |Candidates(catalog, filters, limit)| == limit
  {
    MatchingIff(catalog, filters, p);
    var matches := Matching(catalog, filters);
    if |matches| <= limit {
      assert matches[..|matches|] == matches;
    }
  }

  /** A shown product keeps to every filter in force: price and weight at most, memory and battery at least. */
  lemma ShownKeepsToFilters(catalog: seq<Product>, filters: Constraints, limit: nat, p: Product)
    requires p in Candidates(catalog, filters, limit)
    ensures MaxPrice in filters ==> p.price <= filters[MaxPrice]
    ensures MinRam in filters ==> p.ramGb >= filters[MinRam]
    ensures MaxWeight in filters ==> p.weight <= filters[MaxWeight]
    ensures MinBattery in filters ==> p.batteryHrs >= filters[MinBattery]
  {
    CandidatesMatch(catalog, filters, limit, p);
  }

  /**
   A product that is no worse in each dimension meets whatever the other meets, and one just at the
   limits meets them.
   */
  lemma NoWorseSatisfies(p: Product, q: Product, cs: Constraints)
    requires q.price <= p.price && q.ramGb >= p.ramGb && q.weight <= p.weight && q.batteryHrs >= p.batteryHrs
    ensures Satisfies(p, cs) ==> Satisfies(q, cs)
    ensures Satisfies(p, map[MaxPrice := p.price, MinRam := p.ramGb, MaxWeight := p.weight, MinBattery := p.batteryHrs])
  {
  }

  lemma {:induction false} MatchingSplit(catalog: seq<Product>, filters: Constraints, i: nat)
    requires i <= |catalog|
    ensures Matching(catalog, filters) == Matching(catalog[..i], filters) + Matching(catalog[i..], filters)
  {
    if i > 0 {
      MatchingSplit(catalog[1..], filters, i - 1);
      assert catalog[..i][1..] == catalog[1..][..i - 1] && catalog[i..] == catalog[1..][i - 1..];
    } else {
      assert catalog[..0] == [] && catalog[0..] == catalog;
    }
  }

  /** The first matches of the catalog are shown, in its order. */
  lemma ShownInCatalogOrder(catalog: seq<Product>, filters: Constraints, limit: nat, i: nat)
    requires i < |catalog| && Satisfies(catalog[i], filters)
    ensures var place := |Matching(catalog[..i], filters)|;
            place < limit ==>
              place < |Candidates(catalog, filters, limit)| && Candidates(catalog, filters, limit)[place] == catalog[i]
  {
    MatchingSplit(catalog, filters, i);
    assert Matching(catalog[i..], filters)[0] == catalog[i];
  }

  // ------------------------------------------------------------ scoring a finished episode

  function Compliant(idx: Index, cs: Constraints, cart: seq<Sku>): nat
    requires forall s :: s in cart ==> s in idx
  {
    if cart == [] then 0
    else (if Satisfies(idx[cart[0]], cs) then 1 else 0) + Compliant(idx, cs, cart[1..])
  }

  function Abs(x: int): nat {
    if x < 0 then -x else x
  }

  function CountScore(items: nat, target: int): real {
    if target > 0 then
      var miss := 1.0 - Abs(items - target) as real / target as real;
      if miss > 0.0 then miss else 0.0
    else 1.0
  }

  /** The reward before rounding. */
  function EpisodeReward(s: EnvState, goal: Goal, idx: Index): real
    requires forall k :: k in s.cart ==> k in idx
  {
    if !s.checkedOut || s.cart == [] then 0.0
    else
      0.6 * (Compliant(idx, goal.constraints, s.cart) as real / |s.cart| as real)
      + 0.4 * CountScore(|s.cart|, goal.targetItems)
  }

  lemma {:induction false} CompliantBound(idx: Index, cs: Constraints, cart: seq<Sku>)
    requires forall s :: s in cart ==> s in idx
    ensures Compliant(idx, cs, cart) <= |cart|
    ensures Compliant(idx, cs, cart) == |cart| <==> forall s :: s in cart ==> Satisfies(idx[s], cs)
  {
    if cart != [] {
      CompliantBound(idx, cs, cart[1..]);
      assert cart == [cart[0]] + cart[1..];
    }
  }

  lemma Ratio(a: nat, b: nat)
    requires a <= b && b > 0
    ensures 0.0 <= a as real / b as real <= 1.0
    ensures a as real / b as real == 1.0 <==> a == b
  {
    var q := a as real / b as real;
    assert q * b as real == a as real;
  }

  lemma CountScoreMeaning(items: nat, target: int)
    ensures 0.0 <= CountScore(items, target) <= 1.0
    ensures CountScore(items, target) == 1.0 <==> target <= 0 || items == target
  {
    if target > 0 {
      var q := Abs(items - target) as real / target as real;
      assert q * target as real == Abs(items - target) as real;
    }
  }

  /** The reward lies in [0, 1] and is 1 only for a checked-out, fully compliant cart of the target size. */
  lemma RewardMeaning(s: EnvState, goal: Goal, idx: Index)
    requires forall k :: k in s.cart ==> k in idx
    ensures 0.0 <= EpisodeReward(s, goal, idx) <= 1.0
    ensures EpisodeReward(s, goal, idx) == 1.0
       <==> && s.checkedOut && s.cart != []
            && (forall k :: k in s.cart ==> Satisfies(idx[k], goal.constraints))
            && (goal.targetItems <= 0 || |s.cart| == goal.targetItems)
  {
    if s.checkedOut && s.cart != [] {
      CompliantBound(idx, goal.constraints, s.cart);
      Ratio(Compliant(idx, goal.constraints, s.cart), |s.cart|);
      CountScoreMeaning(|s.cart|, goal.targetItems);
    }
  }

  lemma {:induction false} CompliantAppend(idx: Index, cs: Constraints, cart: seq<Sku>, sku: Sku)
    requires sku in idx && forall s :: s in cart ==> s in idx
    ensures forall s :: s in cart + [sku] ==> s in idx
    ensures Compliant(idx, cs, cart + [sku]) == Compliant(idx, cs, cart) + One(Satisfies(idx[sku], cs))
  {
    if cart == [] {
      assert [] + [sku] == [sku];
    } else {
      CompliantAppend(idx, cs, cart[1..], sku);
      assert (cart + [sku])[1..] == cart[1..] + [sku];
    }
  }

  /**
   The two parts of the score: a cart of the right size with k of n items compliant earns
   0.4 + 0.6 k / n; a compliant cart that misses the target by d earns 1 - 0.4 d / target, and
   not less than 0.6; no purchase earns nothing.
   */
  lemma RewardParts(s: EnvState, goal: Goal, idx: Index)
    requires forall k :: k in s.cart ==> k in idx
    ensures !s.checkedOut || s.cart == [] ==> EpisodeReward(s, goal, idx) == 0.0
    ensures s.checkedOut && s.cart != [] && (goal.targetItems <= 0 || |s.cart| == goal.targetItems) ==>
              EpisodeReward(s, goal, idx)
              == 0.4 + 0.6 * (Compliant(idx, goal.constraints, s.cart) as real / |s.cart| as real)
    ensures s.checkedOut && s.cart != [] && (forall k :: k in s.cart ==> Satisfies(idx[k], goal.constraints))
            && goal.targetItems > 0 ==>
              var d := if |s.cart| < goal.targetItems then goal.targetItems - |s.cart| else |s.cart| - goal.targetItems;
              EpisodeReward(s, goal, idx)
              == (if d >= goal.targetItems then 0.6 else 1.0 - 0.4 * (d as real / goal.targetItems as real))
  {
    if s.checkedOut && s.cart != [] {
      CompliantBound(idx, goal.constraints, s.cart);
      Ratio(Compliant(idx, goal.constraints, s.cart), |s.cart|);
      CountScoreMeaning(|s.cart|, goal.targetItems);
      if goal.targetItems > 0 {
        CountScoreByDistance(|s.cart|, goal.targetItems);
      }
    }
  }

  lemma CountScoreByDistance(items: nat, target: int)
    requires target > 0
    ensures var d := if items < target then target - items else items - target;
            CountScore(items, target) == (if d >= target then 0.0 else 1.0 - d as real / target as real)
  {
    var d := if items < target then target - items else items - target;
    var z, q := target as real, d as real / target as real;
    assert q * z == d as real;
    assert (q - 1.0) * z == q * z - z && (1.0 - q) * z == z - q * z;
    if d >= target {
      NonNegative(q - 1.0, z);
    } else {
      NonNegative(1.0 - q, z);
    }
  }

  datatype Scheme = Uniform | Discounted

  function Power(g: real, n: nat): real {
    if n == 0 then 1.0 else g * Power(g, n - 1)
  }

  /** The advantage of each turn, before rounding. */
  function AssignCredit(reward: real, turns: int, scheme: Scheme, gamma: real, baseline: real): seq<real> {
    if turns <= 0 then []
    else
      var adv := reward - baseline;
      match scheme
      case Uniform => seq(turns, t => adv)
      case Discounted => seq(turns, t requires 0 <= t < turns => Power(gamma, turns - 1 - t) * adv)
  }

  /** One turn more puts a smaller first share before the others. */
  lemma CreditTail(reward: real, turns: nat, gamma: real, baseline: real)
    ensures var c := AssignCredit(reward, turns, Discounted, gamma, baseline);
            if turns == 0 then c == []
            else
              && |c| == turns
              && c[0] == Power(gamma, turns - 1) * (reward - baseline)
              && c[1..] == AssignCredit(reward, turns - 1, Discounted, gamma, baseline)
  {
    if turns > 0 {
      var c := AssignCredit(reward, turns, Discounted, gamma, baseline);
      var rest := AssignCredit(reward, turns - 1, Discounted, gamma, baseline);
      assert |c[1..]| == |rest|;
      forall t | 0 <= t < |rest| ensures c[1..][t] == rest[t] {
        assert turns - 1 - (t + 1) == turns - 1 - 1 - t;
      }
    }
  }

  lemma GeometricStep(g: real, p: real, q: real, adv: real)
    requires (1.0 - g) * q == (1.0 - p) * adv
    ensures (1.0 - g) * (p * adv + q) == (1.0 - g * p) * adv
  {
    var x := p * adv;
    assert (1.0 - g) * (x + q) == x - g * x + (1.0 - g) * q;
    assert (1.0 - p) * adv == adv - x;
    assert (1.0 - g * p) * adv == adv - g * p * adv;
    assert g * x == g * p * adv;
  }

  /** Discounted credit: the last turn gets all of it, and the shares form a geometric series. */
  lemma {:induction false} DiscountedSum(reward: real, turns: nat, gamma: real, baseline: real)
    ensures var c := AssignCredit(reward, turns, Discounted, gamma, baseline);
            && |c| == turns
            && (turns > 0 ==> c[turns - 1] == reward - baseline)
            && (1.0 - gamma) * Sum(c) == (1.0 - Power(gamma, turns)) * (reward - baseline)
  {
    hide AssignCredit;
    var adv := reward - baseline;
    var c := AssignCredit(reward, turns, Discounted, gamma, baseline);
    CreditTail(reward, turns, gamma, baseline);
    if turns > 0 {
      DiscountedSum(reward, turns - 1, gamma, baseline);
      var rest := AssignCredit(reward, turns - 1, Discounted, gamma, baseline);
      GeometricStep(gamma, Power(gamma, turns - 1), Sum(rest), adv);
      assert Sum(c) == Power(gamma, turns - 1) * adv + Sum(rest);
      assert turns == 1 ==> Power(gamma, 0) == 1.0;
    }
  }

  lemma {:induction false} NotCheckedOut(idx: Index, maxTurns: int, s: EnvState, actions: seq<Action>)
    requires !s.checkedOut && forall a :: a in actions ==> a != Checkout
    ensures !Play(idx, maxTurns, s, actions).checkedOut
    decreases |actions|
  {
    if actions != [] {
      if !s.done {
        EveryTurn(idx, maxTurns, s, actions[0]);
      }
      assert actions[0] in actions && forall a :: a in actions[1..] ==> a in actions;
      NotCheckedOut(idx, maxTurns, Next(idx, maxTurns, s, actions[0]), actions[1..]);
    }
  }

  /**
   An episode starts with the whole budget, nothing in the cart and no filter; without a checkout it
   earns nothing.
   */
  lemma WithoutCheckoutNoReward(catalog: seq<Product>, goal: Goal, maxTurns: int, actions: seq<Action>)
    requires forall a :: a in actions ==> a != Checkout
    ensures Initial(goal).remaining == goal.budget && Initial(goal).cart == [] && Initial(goal).filters == map[]
    ensures var idx, s := IndexOf(catalog), Play(IndexOf(catalog), maxTurns, Initial(goal), actions);
            (forall k :: k in s.cart ==> k in idx) && EpisodeReward(s, goal, idx) == 0.0
  {
    NotCheckedOut(IndexOf(catalog), maxTurns, Initial(goal), actions);
    BudgetIsConserved(IndexOf(catalog), goal, maxTurns, Initial(goal), actions);
  }

  /** Uniform credit: every turn gets the advantage over the baseline, and no turns get none. */
  lemma UniformCredit(reward: real, turns: int, gamma: real, baseline: real, scheme: Scheme)
    ensures turns <= 0 ==> AssignCredit(reward, turns, scheme, gamma, baseline) == []
    ensures turns > 0 ==>
              var c := AssignCredit(reward, turns, Uniform, gamma, baseline);
              |c| == turns && Sum(c) == turns as real * (reward - baseline)
              && forall t :: 0 <= t < turns ==> c[t] == reward - baseline
  {
    if turns > 0 {
      SumOfEqual(AssignCredit(reward, turns, Uniform, gamma, baseline), reward - baseline);
    }
  }

  lemma OneMoreTimes(n: real, x: real)
    ensures (n + 1.0) * x == x + n * x
  {
  }

  lemma {:induction false} SumOfEqual(xs: seq<real>, x: real)
    requires forall i :: 0 <= i < |xs| ==> xs[i] == x
    ensures Sum(xs) == |xs| as real * x
  {
    if xs != [] {
      SumOfEqual(xs[1..], x);
      OneMoreTimes(|xs[1..]| as real, x);
    }
  }
}
