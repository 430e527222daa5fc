/**
 * The session shopping cart. The session holds, under its `cart` key, a dict whose
 * `restaurants` entry maps each restaurant id to the ordered list of lines chosen
 * from that restaurant's menu. A Python dict keeps insertion order and its keys are
 * unique, so the dict is modelled as a sequence of groups with pairwise distinct
 * restaurant ids (`GroupSeq`). The session stores the ids as stringified integers;
 * the model keeps them as `int`.
 */
module Cart {
  import opened Wrappers

  /** One cart line: a menu item, with its name, unit price (cents) and restaurant name captured when it was added. */
  datatype CartLine = CartLine(id: int, name: string, price: int, quantity: int, restaurantName: string)

  /** The lines of one restaurant, under the restaurant's id. */
  datatype Group = Group(rid: int, lines: seq<CartLine>)

  /** Dict keys are unique: no two groups share a restaurant id. */
  ghost predicate KeysDistinct(gs: seq<Group>) {
    forall i, j :: 0 <= i < j < |gs| ==> gs[i].rid != gs[j].rid
  }

  type GroupSeq = gs: seq<Group> | KeysDistinct(gs) witness []

  /** The `restaurants` dict of an initialised cart, in iteration order. */
  datatype Cart = Cart(groups: GroupSeq)

  /** What the session holds under `cart` before `_init_cart` runs. */
  datatype SessionCart =
    | Absent                 // no `cart` key in the session
    | WithoutRestaurants     // a `cart` dict lacking its `restaurants` entry
    | Stored(cart: Cart)     // a cart that was initialised by an earlier request

  const EmptyCart: Cart := Cart([])

  // ---------------------------------------------------------------------------
  // Lookups
  // ---------------------------------------------------------------------------

  /** The restaurant ids of the groups, in order. */
  function Rids(gs: seq<Group>): (ks: seq<int>)
    ensures |ks| == |gs|
    ensures forall i :: 0 <= i < |gs| ==> ks[i] == gs[i].rid
  {
    seq(|gs|, i requires 0 <= i < |gs| => gs[i].rid)
  }

  /** Position of the first group with restaurant id `rid`, if any. */
  function GroupIndex(gs: seq<Group>, rid: int): (r: Option<nat>)
    ensures r.Some? ==> r.value < |gs| && gs[r.value].rid == rid
    ensures r.Some? ==> forall j :: 0 <= j < r.value ==> gs[j].rid != rid
    ensures r.None? <==> forall j :: 0 <= j < |gs| ==> gs[j].rid != rid
  {
    if |gs| == 0 then None
    else if gs[0].rid == rid then Some(0)
    else match GroupIndex(gs[1..], rid)
      case None => None
      case Some(k) => Some(k + 1)
  }

  /**
   * Position of the first line for menu item `id`, if any (the scan `add_to_cart` and
   * `update_cart_quantity` make). It is the same first-match search as `GroupIndex`,
   * over lines keyed by menu id instead of groups keyed by restaurant id; a single
   * search over a key projection would put a function argument into every contract
   * that mentions either lookup.
   */
  function LineIndex(ls: seq<CartLine>, id: int): (r: Option<nat>)
    ensures r.Some? ==> r.value < |ls| && ls[r.value].id == id
    ensures r.Some? ==> forall j :: 0 <= j < r.value ==> ls[j].id != id
    ensures r.None? <==> forall j :: 0 <= j < |ls| ==> ls[j].id != id
  {
    if |ls| == 0 then None
    else if ls[0].id == id then Some(0)
    else match LineIndex(ls[1..], id)
      case None => None
      case Some(k) => Some(k + 1)
  }

  /** Whether the cart has a group for restaurant `rid`. */
  predicate HasGroup(c: Cart, rid: int) {
    GroupIndex(c.groups, rid).Some?
  }

  /** The lines stored under restaurant `rid` in a list of groups; empty when there is no such key. */
  function LinesIn(gs: seq<Group>, rid: int): seq<CartLine> {
    match GroupIndex(gs, rid)
    case Some(i) => gs[i].lines
    case None => []
  }

  /** The lines the cart stores under restaurant `rid`; empty when the dict has no such key. */
  function Lines(c: Cart, rid: int): seq<CartLine> {
    LinesIn(c.groups, rid)
  }

  /** With unique keys, each group's lines are the lines stored under its key. */
  lemma LinesAt(c: Cart, i: nat)
    requires i < |c.groups|
    ensures GroupIndex(c.groups, c.groups[i].rid) == Some(i)
    ensures Lines(c, c.groups[i].rid) == c.groups[i].lines
  {
  }

  /** Appending a group under a new key makes it that key's lines and changes no other key's lines. */
  lemma LinesInAppend(gs: seq<Group>, g: Group)
    requires forall j :: 0 <= j < |gs| ==> gs[j].rid != g.rid
    ensures LinesIn(gs + [g], g.rid) == g.lines
    ensures forall other :: other != g.rid ==> LinesIn(gs + [g], other) == LinesIn(gs, other)
  {
    var gs' := gs + [g];
    assert forall j :: 0 <= j < |gs| ==> gs'[j] == gs[j];
    assert gs'[|gs|].rid == g.rid;
    forall other | other != g.rid
      ensures LinesIn(gs', other) == LinesIn(gs, other)
    {
      if GroupIndex(gs, other).Some? {
        var i := GroupIndex(gs, other).value;
        assert gs'[i].rid == other;
      }
    }
  }

  /** `a` occurs in `b` in the same relative order, possibly with gaps. */
  ghost predicate IsSubsequence(a: seq<int>, b: seq<int>) {
    if |a| == 0 then true
    else if |b| == 0 then false
    else if a[|a| - 1] == b[|b| - 1] then IsSubsequence(a[..|a| - 1], b[..|b| - 1])
    else IsSubsequence(a, b[..|b| - 1])
  }

  /** A subsequence stays one when the longer sequence grows by an element it does not end with. */
  lemma SubsequenceSkip(a: seq<int>, b: seq<int>, x: int)
    requires IsSubsequence(a, b)
    requires |a| == 0 || a[|a| - 1] != x
    ensures IsSubsequence(a, b + [x])
  {
    assert (b + [x])[..|b|] == b;
  }

  /** Extending both sequences by the same element keeps the subsequence relation. */
  lemma SubsequenceBoth(a: seq<int>, b: seq<int>, x: int)
    requires IsSubsequence(a, b)
    ensures IsSubsequence(a + [x], b + [x])
  {
    assert (a + [x])[..|a|] == a;
    assert (b + [x])[..|b|] == b;
  }

  /** The keys of a list with one more group end with that group's key. */
  lemma RidsAppend(gs: seq<Group>, g: Group)
    ensures Rids(gs + [g]) == Rids(gs) + [g.rid]
  {
  }

  /** Number of lines for menu item `id`. */
  function CountId(ls: seq<CartLine>, id: int): (n: nat)
    ensures n <= |ls|
  {
    if |ls| == 0 then 0
    else CountId(ls[..|ls| - 1], id) + (if ls[|ls| - 1].id == id then 1 else 0)
  }

  /** There is no line for an item exactly when its count is zero. */
  lemma {:induction false} CountIdZeroIff(ls: seq<CartLine>, id: int)
    ensures CountId(ls, id) == 0 <==> LineIndex(ls, id).None?
  {
    if |ls| > 0 {
      var init := ls[..|ls| - 1];
      CountIdZeroIff(init, id);
      assert forall j :: 0 <= j < |init| ==> init[j] == ls[j];
    }
  }

  /** Quantity of the first line for menu item `id`; 0 when there is none. */
  function QuantityOf(ls: seq<CartLine>, id: int): int {
    match LineIndex(ls, id)
    case Some(k) => ls[k].quantity
    case None => 0
  }

  // ---------------------------------------------------------------------------
  // Invariants every cart operation keeps
  // ---------------------------------------------------------------------------

  /** No restaurant key maps to an empty list. */
  ghost predicate NoEmptyGroup(c: Cart) {
    forall i :: 0 <= i < |c.groups| ==> |c.groups[i].lines| > 0
  }

  /** Every line of a group has a quantity of at least 1. */
  ghost predicate Positive(ls: seq<CartLine>) {
    forall j :: 0 <= j < |ls| ==> ls[j].quantity >= 1
  }

  /** Every line's quantity is at least 1. */
  ghost predicate PositiveQuantities(c: Cart) {
    forall i :: 0 <= i < |c.groups| ==> Positive(c.groups[i].lines)
  }

  /** At most one line per menu item within a group. */
  ghost predicate UniqueIds(ls: seq<CartLine>) {
    forall j, k :: 0 <= j < k < |ls| ==> ls[j].id != ls[k].id
  }

  ghost predicate UniqueLinesPerGroup(c: Cart) {
    forall i :: 0 <= i < |c.groups| ==> UniqueIds(c.groups[i].lines)
  }

  ghost predicate Valid(c: Cart) {
    NoEmptyGroup(c) && PositiveQuantities(c) && UniqueLinesPerGroup(c)
  }

  // ---------------------------------------------------------------------------
  // Dict assignment `restaurants[rid] = lines`
  // ---------------------------------------------------------------------------

  /** The first-group search depends only on the sequence of keys. */
  lemma {:induction false} SameRidsSameIndex(a: seq<Group>, b: seq<Group>, rid: int)
    requires Rids(a) == Rids(b)
    ensures GroupIndex(a, rid) == GroupIndex(b, rid)
  {
    assert |a| == |Rids(a)| == |b|;
    if |a| > 0 {
      assert a[0].rid == Rids(a)[0] == b[0].rid;
      assert Rids(a[1..]) == Rids(a)[1..] == Rids(b)[1..] == Rids(b[1..]);
      SameRidsSameIndex(a[1..], b[1..], rid);
    }
  }

  /** Replacing the lines of group `g` changes `Lines` at that group's key only. */
  lemma LinesOfReplaced(c: Cart, g: nat, ls: seq<CartLine>)
    requires g < |c.groups|
    ensures KeysDistinct(c.groups[g := Group(c.groups[g].rid, ls)])
    ensures var c' := Cart(c.groups[g := Group(c.groups[g].rid, ls)]);
      && Lines(c', c.groups[g].rid) == ls
      && forall other :: other != c.groups[g].rid ==> Lines(c', other) == Lines(c, other)
  {
    var gs := c.groups[g := Group(c.groups[g].rid, ls)];
    assert Rids(gs) == Rids(c.groups);
    forall rid
      ensures GroupIndex(gs, rid) == GroupIndex(c.groups, rid)
    {
      SameRidsSameIndex(gs, c.groups, rid);
    }
  }

  /**
   * `restaurants[rid] = ls`: an existing key keeps its place and gets the new lines;
   * a new key is inserted at the end of the dict. No other key's lines change.
   */
  function SetLines(c: Cart, rid: int, ls: seq<CartLine>): (r: Cart)
    ensures Lines(r, rid) == ls
    ensures forall other :: other != rid ==> Lines(r, other) == Lines(c, other)
    ensures Rids(r.groups) == (if HasGroup(c, rid) then Rids(c.groups) else Rids(c.groups) + [rid])
  {
    match GroupIndex(c.groups, rid)
    case None =>
      var gs := c.groups + [Group(rid, ls)];
      LinesInAppend(c.groups, Group(rid, ls));
      assert Rids(gs) == Rids(c.groups) + [rid];
      Cart(gs)
    case Some(g) =>
      var gs := c.groups[g := Group(rid, ls)];
      LinesOfReplaced(c, g, ls);
      assert Rids(gs) == Rids(c.groups);
      Cart(gs)
  }

  /** Under the cart invariants, the lines stored under any key are unique per item and positive. */
  lemma LinesValid(c: Cart, rid: int)
    requires Valid(c)
    ensures UniqueIds(Lines(c, rid)) && Positive(Lines(c, rid))
  {
  }

  /** Storing a non-empty, positive, duplicate-free list under a key keeps the cart valid. */
  lemma SetLinesValid(c: Cart, rid: int, ls: seq<CartLine>)
    requires Valid(c) && |ls| > 0 && UniqueIds(ls) && Positive(ls)
    ensures Valid(SetLines(c, rid, ls))
  {
    var gs := SetLines(c, rid, ls).groups;
    match GroupIndex(c.groups, rid)
    case None =>
      assert gs == c.groups + [Group(rid, ls)];
      assert forall i :: 0 <= i < |c.groups| ==> gs[i] == c.groups[i];
    case Some(g) =>
      assert gs == c.groups[g := Group(rid, ls)];
      assert forall i :: 0 <= i < |gs| && i != g ==> gs[i] == c.groups[i];
  }

  // ---------------------------------------------------------------------------
  // _init_cart and clear_cart
  // ---------------------------------------------------------------------------

  /** `_init_cart`: creates an empty `restaurants` dict when it is missing and otherwise leaves the cart alone. */
  function InitCart(s: SessionCart): (c: Cart)
    ensures s.Stored? ==> c == s.cart
    ensures !s.Stored? ==> forall rid :: !HasGroup(c, rid)
  {
    match s
    case Stored(c) => c
    case _ => EmptyCart
  }

  /** `clear_cart`: whatever the session held, it now holds an empty cart. */
  function ClearCart(s: SessionCart): (c: Cart)
    ensures forall rid :: !HasGroup(c, rid) && Lines(c, rid) == []
  {
    EmptyCart
  }

  /** `_init_cart` creates an empty cart, keeps an existing one untouched and is idempotent. */
  lemma InitCartLaws(s: SessionCart)
    ensures !s.Stored? ==> forall rid :: Lines(InitCart(s), rid) == [] && !HasGroup(InitCart(s), rid)
    ensures !s.Stored? ==> Valid(InitCart(s))
    ensures s.Stored? ==> InitCart(s) == s.cart
    ensures InitCart(Stored(InitCart(s))) == InitCart(s)
  {
  }

  /** `clear_cart` leaves a valid cart with no groups, and clearing twice equals clearing once. */
  lemma ClearCartLaws(s: SessionCart)
    ensures forall rid :: Lines(ClearCart(s), rid) == [] && !HasGroup(ClearCart(s), rid)
    ensures Valid(ClearCart(s))
    ensures ClearCart(Stored(ClearCart(s))) == ClearCart(s)
  {
  }

  // ---------------------------------------------------------------------------
  // _cart_total
  // ---------------------------------------------------------------------------

  /** Sum of price × quantity over a list of lines; never negative when no price or quantity is. */
  function LinesTotal(ls: seq<CartLine>): (t: int)
    ensures (forall j :: 0 <= j < |ls| ==> ls[j].price >= 0 && ls[j].quantity >= 0) ==> t >= 0
  {
    if |ls| == 0 then 0
    else LinesTotal(ls[..|ls| - 1]) + ls[|ls| - 1].price * ls[|ls| - 1].quantity
  }

  /** Sum of the group totals, group by group in dict order (the loop of `_cart_total`). */
  function GroupsTotal(gs: seq<Group>): (t: int)
    ensures (forall i, j :: 0 <= i < |gs| && 0 <= j < |gs[i].lines| ==>
               gs[i].lines[j].price >= 0 && gs[i].lines[j].quantity >= 0) ==> t >= 0
  {
    if |gs| == 0 then 0
    else GroupsTotal(gs[..|gs| - 1]) + LinesTotal(gs[|gs| - 1].lines)
  }

  /** `_cart_total` of an initialised cart: price × quantity summed over every line of every group. */
  function CartTotal(c: Cart): (t: int)
    ensures t == LinesTotal(AllLines(c.groups))
    ensures |c.groups| == 0 ==> t == 0
  {
    CartTotalIsSumOverAllLines(c.groups);
    GroupsTotal(c.groups)
  }

  /** All lines of all groups, group after group. */
  function AllLines(gs: seq<Group>): (ls: seq<CartLine>)
    ensures |gs| == 0 ==> ls == []
  {
    if |gs| == 0 then []
    else AllLines(gs[..|gs| - 1]) + gs[|gs| - 1].lines
  }

  lemma {:induction false} LinesTotalAppend(a: seq<CartLine>, b: seq<CartLine>)
    ensures LinesTotal(a + b) == LinesTotal(a) + LinesTotal(b)
    decreases |b|
  {
    if |b| == 0 {
      assert a + b == a;
    } else {
      assert (a + b)[..|a + b| - 1] == a + b[..|b| - 1];
      LinesTotalAppend(a, b[..|b| - 1]);
    }
  }

  /** The cart total is the sum of price × quantity over every line of every group, and 0 for a cart with no groups. */
  lemma {:induction false} CartTotalIsSumOverAllLines(gs: seq<Group>)
    ensures GroupsTotal(gs) == LinesTotal(AllLines(gs))
    ensures |gs| == 0 ==> GroupsTotal(gs) == 0
  {
    if |gs| > 0 {
      CartTotalIsSumOverAllLines(gs[..|gs| - 1]);
      LinesTotalAppend(AllLines(gs[..|gs| - 1]), gs[|gs| - 1].lines);
    }
  }

  /**
   * The loop of `_cart_total`: for each group in dict order, add the group's sum of
   * price × quantity. Its result is the sum over all lines of the cart.
   */
  method ComputeCartTotal(c: Cart) returns (total: int)
    ensures total == LinesTotal(AllLines(c.groups))
  {
    total := 0;
    var i := 0;
    while i < |c.groups|
      invariant 0 <= i <= |c.groups|
      invariant total == LinesTotal(AllLines(c.groups[..i]))
    {
      var groupSum := ComputeGroupTotal(c.groups[i].lines);
      assert c.groups[..i + 1][..i] == c.groups[..i];
      LinesTotalAppend(AllLines(c.groups[..i]), c.groups[i].lines);
      total := total + groupSum;
      i := i + 1;
    }
    assert c.groups[..i] == c.groups;
  }

  /** The inner `sum(...)` of `_cart_total`: price × quantity added line by line. */
  method ComputeGroupTotal(items: seq<CartLine>) returns (groupSum: int)
    ensures groupSum == LinesTotal(items)
  {
    groupSum := 0;
    var j := 0;
    while j < |items|
      invariant 0 <= j <= |items|
      invariant groupSum == LinesTotal(items[..j])
    {
      assert items[..j + 1][..j] == items[..j];
      groupSum := groupSum + items[j].price * items[j].quantity;
      j := j + 1;
    }
    assert items[..j] == items;
  }
}
