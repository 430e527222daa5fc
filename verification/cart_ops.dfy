/**
 * The cart routes `add_to_cart`, `update_cart_quantity` and `remove_from_cart`, as
 * pure functions from the initialised cart (each route first runs `_init_cart`) to
 * the cart the session holds afterwards.
 */
module CartOps {
  import opened Wrappers
  import opened FormInput
  import opened Cart

  /** What the menu lookup returns for a menu item id: the item's fields and its restaurant. */
  datatype MenuItem = MenuItem(name: string, price: int, restaurantId: int, restaurantName: string)

  /** The menu table: a partial map from menu item id to the item. */
  type Menu = map<int, MenuItem>

  /** `get_or_404` found no menu item with the requested id. */
  datatype CartError = NotFound

  /** The line `add_to_cart` appends for a menu item not yet in its restaurant's group. */
  function NewLine(id: int, item: MenuItem): CartLine {
    CartLine(id, item.name, item.price, 1, item.restaurantName)
  }

  /** The line with its quantity replaced by `q`. */
  function WithQuantity(l: CartLine, q: int): CartLine {
    l.(quantity := q)
  }

  // ---------------------------------------------------------------------------
  // add_to_cart
  // ---------------------------------------------------------------------------

  /**
   * The group-level step of `add_to_cart`: the first line for the item has its
   * quantity raised by one, with no upper cap; without such a line a new one with
   * quantity 1 is appended. Every other line is kept in place.
   */
  function AddLine(ls: seq<CartLine>, menuId: int, item: MenuItem): (ls': seq<CartLine>)
    ensures QuantityOf(ls', menuId) == QuantityOf(ls, menuId) + 1
    ensures CountId(ls', menuId) == (if CountId(ls, menuId) == 0 then 1 else CountId(ls, menuId))
    ensures |ls'| == |ls| + (if LineIndex(ls, menuId).Some? then 0 else 1)
    ensures forall j :: 0 <= j < |ls| && Some(j) != LineIndex(ls, menuId) ==> ls'[j] == ls[j]
    ensures LineIndex(ls, menuId).Some? ==>
      var k := LineIndex(ls, menuId).value;
      ls'[k] == WithQuantity(ls[k], ls[k].quantity + 1)
    ensures LineIndex(ls, menuId).None? ==> ls'[|ls|] == NewLine(menuId, item)
    ensures |ls'| > 0
    ensures UniqueIds(ls) ==> UniqueIds(ls')
    ensures Positive(ls) ==> Positive(ls')
  {
    match LineIndex(ls, menuId)
    case Some(k) =>
      BumpedLine(ls, menuId, k);
      ls[k := WithQuantity(ls[k], ls[k].quantity + 1)]
    case None =>
      AppendedLine(ls, menuId, item);
      ls + [NewLine(menuId, item)]
  }

  /** Bumping the first line for the item: it stays the first, the count is unchanged, ids stay unique. */
  lemma BumpedLine(ls: seq<CartLine>, menuId: int, k: nat)
    requires LineIndex(ls, menuId) == Some(k)
    ensures var ls' := ls[k := WithQuantity(ls[k], ls[k].quantity + 1)];
      && LineIndex(ls', menuId) == Some(k)
      && CountId(ls', menuId) == CountId(ls, menuId) > 0
      && (UniqueIds(ls) ==> UniqueIds(ls'))
  {
    var bumped := WithQuantity(ls[k], ls[k].quantity + 1);
    var ls' := ls[k := bumped];
    assert ls'[k].id == menuId;
    assert forall j :: 0 <= j < k ==> ls'[j].id != menuId;
    CountIdUpdate(ls, k, bumped, menuId);
    CountIdZeroIff(ls, menuId);
    assert forall j :: 0 <= j < |ls| ==> ls'[j].id == ls[j].id;
  }

  /** Appending a line for an item the group lacks: it becomes the only line for it. */
  lemma AppendedLine(ls: seq<CartLine>, menuId: int, item: MenuItem)
    requires LineIndex(ls, menuId).None?
    ensures var ls' := ls + [NewLine(menuId, item)];
      && LineIndex(ls', menuId) == Some(|ls|)
      && CountId(ls, menuId) == 0 && CountId(ls', menuId) == 1
      && (UniqueIds(ls) ==> UniqueIds(ls'))
  {
    var ls' := ls + [NewLine(menuId, item)];
    CountIdZeroIff(ls, menuId);
    assert ls'[..|ls'| - 1] == ls;
    assert ls'[|ls|].id == menuId;
    assert forall j :: 0 <= j < |ls| ==> ls'[j].id != menuId;
  }

  /**
   * `add_to_cart` for a menu item that exists: the item goes into the group of its
   * restaurant, which is created at the end of the dict when missing; no other
   * restaurant's lines change.
   */
  function AddItem(c: Cart, menuId: int, item: MenuItem): (r: Cart)
    ensures HasGroup(r, item.restaurantId)
    ensures Rids(r.groups) == (if HasGroup(c, item.restaurantId) then Rids(c.groups) else Rids(c.groups) + [item.restaurantId])
    ensures Lines(r, item.restaurantId) == AddLine(Lines(c, item.restaurantId), menuId, item)
    ensures forall other :: other != item.restaurantId ==> Lines(r, other) == Lines(c, other)
  {
    var rid := item.restaurantId;
    var r := SetLines(c, rid, AddLine(Lines(c, rid), menuId, item));
    assert GroupIndex(r.groups, rid).Some?;
    r
  }

  /**
   * `add_to_cart`: an unknown menu id fails with `NotFound` (the 404 of `get_or_404`),
   * so the session keeps the cart it had; a known id is added by `AddItem`.
   */
  function AddToCart(c: Cart, menu: Menu, menuId: int): (r: Result<Cart, CartError>)
    ensures r.Failure? <==> menuId !in menu
    ensures r.Failure? ==> r.error == NotFound
    ensures r.Success? ==> r.value == AddItem(c, menuId, menu[menuId])
  {
    if menuId !in menu then Failure(NotFound)
    else Success(AddItem(c, menuId, menu[menuId]))
  }

  /** Overwriting a line with one for the same menu item leaves the number of lines per item unchanged. */
  lemma {:induction false} CountIdUpdate(ls: seq<CartLine>, k: nat, x: CartLine, id: int)
    requires k < |ls| && x.id == ls[k].id
    ensures CountId(ls[k := x], id) == CountId(ls, id)
    decreases |ls|
  {
    var ls' := ls[k := x];
    var n := |ls|;
    assert CountId(ls', id) == CountId(ls'[..n - 1], id) + (if ls'[n - 1].id == id then 1 else 0);
    assert CountId(ls, id) == CountId(ls[..n - 1], id) + (if ls[n - 1].id == id then 1 else 0);
    if k < n - 1 {
      assert ls'[..n - 1] == ls[..n - 1][k := x];
      CountIdUpdate(ls[..n - 1], k, x, id);
    } else {
      assert ls'[..n - 1] == ls[..n - 1];
    }
  }

  /** `add_to_cart` keeps the cart invariants: no empty group, quantities at least 1, one line per item in a group. */
  lemma AddPreservesValid(c: Cart, menu: Menu, menuId: int)
    requires Valid(c)
    ensures AddToCart(c, menu, menuId).Success? ==> Valid(AddToCart(c, menu, menuId).value)
  {
    if menuId in menu {
      var item := menu[menuId];
      LinesValid(c, item.restaurantId);
      SetLinesValid(c, item.restaurantId, AddLine(Lines(c, item.restaurantId), menuId, item));
    }
  }

  /**
   * `n` successive `add_to_cart` requests for the same menu id, one per loop step.
   * An unknown id leaves the cart as it was; a known one ends with its quantity
   * raised by exactly `n` and still at most one line for it (exactly one once `n > 0`).
   */
  method AddRepeatedly(c: Cart, menu: Menu, menuId: int, n: nat) returns (r: Cart)
    ensures menuId !in menu ==> r == c
    ensures menuId in menu ==>
      var rid := menu[menuId].restaurantId;
      && QuantityOf(Lines(r, rid), menuId) == QuantityOf(Lines(c, rid), menuId) + n
      && CountId(Lines(r, rid), menuId) ==
           (if n == 0 || CountId(Lines(c, rid), menuId) > 0 then CountId(Lines(c, rid), menuId) else 1)
  {
    r := c;
    var i := 0;
    while i < n
      invariant 0 <= i <= n
      invariant menuId !in menu ==> r == c
      invariant menuId in menu ==>
        var rid := menu[menuId].restaurantId;
        && QuantityOf(Lines(r, rid), menuId) == QuantityOf(Lines(c, rid), menuId) + i
        && CountId(Lines(r, rid), menuId) ==
             (if i == 0 || CountId(Lines(c, rid), menuId) > 0 then CountId(Lines(c, rid), menuId) else 1)
    {
      var step := AddToCart(r, menu, menuId);
      if step.Success? {
        r := step.value;
      }
      i := i + 1;
    }
  }

  /** The add path is not capped at `MAX_QUANTITY`: adding to a line holding 50 gives 51. */
  lemma AddExceedsQuantityCap()
    ensures var menu := map[1 := MenuItem("Soup", 450, 7, "Corner Bistro")];
      var c := Cart([Group(7, [CartLine(1, "Soup", 450, MAX_QUANTITY, "Corner Bistro")])]);
      AddToCart(c, menu, 1).Success? &&
      QuantityOf(Lines(AddToCart(c, menu, 1).value, 7), 1) == MAX_QUANTITY + 1
  {
  }

  // ---------------------------------------------------------------------------
  // update_cart_quantity
  // ---------------------------------------------------------------------------

  /** The lines with the quantity of the first line for `id` set to `q` (the inner loop and its `break`). */
  function SetFirstQuantity(ls: seq<CartLine>, id: int, q: int): (r: seq<CartLine>)
    ensures |r| == |ls|
    ensures forall j :: 0 <= j < |ls| && Some(j) != LineIndex(ls, id) ==> r[j] == ls[j]
    ensures LineIndex(ls, id).Some? ==>
      var k := LineIndex(ls, id).value;
      r[k] == WithQuantity(ls[k], q)
    ensures LineIndex(ls, id).Some? ==> QuantityOf(r, id) == q
    ensures LineIndex(ls, id).None? ==> r == ls
  {
    match LineIndex(ls, id)
    case Some(k) => ls[k := WithQuantity(ls[k], q)]
    case None => ls
  }

  /**
   * `update_cart_quantity`: the clamped quantity is stored into the first line for
   * the item in EVERY group (the `break` leaves only the inner loop); the keys, their
   * order and every other line stay as they were.
   */
  function UpdateCartQuantity(c: Cart, menuId: int, raw: Option<int>): (r: Cart)
    ensures Rids(r.groups) == Rids(c.groups)
    ensures forall i :: 0 <= i < |c.groups| ==> |r.groups[i].lines| == |c.groups[i].lines|
    ensures forall i, j :: 0 <= i < |c.groups| && 0 <= j < |c.groups[i].lines| ==>
      r.groups[i].lines[j] ==
        if LineIndex(c.groups[i].lines, menuId) == Some(j)
        then WithQuantity(c.groups[i].lines[j], QuantityInput(raw))
        else c.groups[i].lines[j]
  {
    var q := QuantityInput(raw);
    var gs := seq(|c.groups|, i requires 0 <= i < |c.groups| =>
      Group(c.groups[i].rid, SetFirstQuantity(c.groups[i].lines, menuId, q)));
    assert forall i :: 0 <= i < |gs| ==> gs[i].rid == c.groups[i].rid;
    assert Rids(gs) == Rids(c.groups);
    Cart(gs)
  }

  /** In every group holding the item, its (first) line now carries the clamped quantity. */
  lemma UpdateStoresClampedQuantity(c: Cart, menuId: int, raw: Option<int>, rid: int)
    requires LineIndex(Lines(c, rid), menuId).Some?
    ensures QuantityOf(Lines(UpdateCartQuantity(c, menuId, raw), rid), menuId) == QuantityInput(raw)
    ensures 1 <= QuantityOf(Lines(UpdateCartQuantity(c, menuId, raw), rid), menuId) <= MAX_QUANTITY
  {
    var r := UpdateCartQuantity(c, menuId, raw);
    SameRidsSameIndex(r.groups, c.groups, rid);
    var i := GroupIndex(c.groups, rid).value;
    var k := LineIndex(c.groups[i].lines, menuId).value;
    assert r.groups[i].lines[k].id == menuId;
    assert forall j :: 0 <= j < k ==> r.groups[i].lines[j] == c.groups[i].lines[j];
    assert LineIndex(r.groups[i].lines, menuId) == Some(k);
  }

  /** Updating an item the cart does not hold changes nothing. */
  lemma UpdateAbsentIsNoop(c: Cart, menuId: int, raw: Option<int>)
    requires forall rid :: LineIndex(Lines(c, rid), menuId).None?
    ensures UpdateCartQuantity(c, menuId, raw) == c
  {
    var r := UpdateCartQuantity(c, menuId, raw);
    forall i | 0 <= i < |c.groups|
      ensures r.groups[i] == c.groups[i]
    {
      var ls := c.groups[i].lines;
      LinesAt(c, i);
      assert LineIndex(ls, menuId).None?;
      assert r.groups[i].lines == ls;
      assert r.groups[i].rid == Rids(r.groups)[i] == Rids(c.groups)[i];
    }
    assert r.groups == c.groups;
  }

  /** `update_cart_quantity` keeps the cart invariants. */
  lemma UpdatePreservesValid(c: Cart, menuId: int, raw: Option<int>)
    requires Valid(c)
    ensures Valid(UpdateCartQuantity(c, menuId, raw))
  {
    var r := UpdateCartQuantity(c, menuId, raw);
    forall i | 0 <= i < |r.groups|
      ensures UniqueIds(r.groups[i].lines)
    {
      assert forall j :: 0 <= j < |r.groups[i].lines| ==> r.groups[i].lines[j].id == c.groups[i].lines[j].id;
    }
  }

  /** The same item held under two restaurants has both of its lines updated. */
  lemma UpdateReachesEveryGroup()
    ensures var c := Cart([Group(3, [CartLine(9, "Tea", 200, 1, "Cafe A")]),
                           Group(4, [CartLine(9, "Tea", 200, 2, "Cafe B")])]);
      var r := UpdateCartQuantity(c, 9, Some(7));
      QuantityOf(Lines(r, 3), 9) == 7 && QuantityOf(Lines(r, 4), 9) == 7
  {
    var c := Cart([Group(3, [CartLine(9, "Tea", 200, 1, "Cafe A")]),
                   Group(4, [CartLine(9, "Tea", 200, 2, "Cafe B")])]);
    UpdateStoresClampedQuantity(c, 9, Some(7), 3);
    UpdateStoresClampedQuantity(c, 9, Some(7), 4);
  }

  // ---------------------------------------------------------------------------
  // remove_from_cart
  // ---------------------------------------------------------------------------

  /** The lines that are not for menu item `id`, in their original order (the comprehension in `remove_from_cart`). */
  function WithoutId(ls: seq<CartLine>, id: int): (r: seq<CartLine>)
    ensures forall j :: 0 <= j < |r| ==> r[j].id != id
    ensures |r| == |ls| - CountId(ls, id)
  {
    if |ls| == 0 then []
    else WithoutId(ls[..|ls| - 1], id) + (if ls[|ls| - 1].id == id then [] else [ls[|ls| - 1]])
  }

  /** Filtering keeps exactly the lines for other items. */
  lemma {:induction false} WithoutIdMembers(ls: seq<CartLine>, id: int)
    ensures forall l :: l in WithoutId(ls, id) <==> l in ls && l.id != id
  {
    if |ls| > 0 {
      var init := ls[..|ls| - 1];
      var last := ls[|ls| - 1];
      WithoutIdMembers(init, id);
      assert ls == init + [last];
    }
  }

  /** Filtering distributes over concatenation, so the kept lines stay in their relative order. */
  lemma {:induction false} WithoutIdAppend(a: seq<CartLine>, b: seq<CartLine>, id: int)
    ensures WithoutId(a + b, id) == WithoutId(a, id) + WithoutId(b, id)
    decreases |b|
  {
    if |b| == 0 {
      assert a + b == a;
    } else {
      assert (a + b)[..|a + b| - 1] == a + b[..|b| - 1];
      WithoutIdAppend(a, b[..|b| - 1], id);
    }
  }

  /** Filtering out an item a group does not hold leaves the group as it is. */
  lemma {:induction false} WithoutAbsentId(ls: seq<CartLine>, id: int)
    requires forall j :: 0 <= j < |ls| ==> ls[j].id != id
    ensures WithoutId(ls, id) == ls
  {
    if |ls| > 0 {
      var init := ls[..|ls| - 1];
      var last := ls[|ls| - 1];
      assert forall j :: 0 <= j < |init| ==> init[j] == ls[j];
      WithoutAbsentId(init, id);
      assert last.id != id;
      assert WithoutId(ls, id) == WithoutId(init, id) + [last];
      assert ls == init + [last];
    }
  }

  /** Filtering keeps menu ids unique within a group. */
  lemma {:induction false} WithoutIdKeepsUnique(ls: seq<CartLine>, id: int)
    requires UniqueIds(ls)
    ensures UniqueIds(WithoutId(ls, id))
  {
    if |ls| > 0 {
      var init := ls[..|ls| - 1];
      var last := ls[|ls| - 1];
      WithoutIdKeepsUnique(init, id);
      WithoutIdMembers(init, id);
      var f := WithoutId(init, id);
      forall j | 0 <= j < |f|
        ensures f[j].id != last.id
      {
        assert f[j] in init;
        var k :| 0 <= k < |init| && init[k] == f[j];
        assert ls[k] == f[j];
      }
    }
  }

  /**
   * The loop of `remove_from_cart` over the groups: each group is filtered, and a
   * group left without lines is popped from the dict.
   */
  function RemoveGroups(gs: GroupSeq, id: int): (r: GroupSeq)
    ensures forall i :: 0 <= i < |r| ==> |r[i].lines| > 0
    ensures forall i :: 0 <= i < |r| ==> r[i].rid in Rids(gs)
  {
    if |gs| == 0 then []
    else
      var prefix: GroupSeq := gs[..|gs| - 1];
      var last := gs[|gs| - 1];
      var init := RemoveGroups(prefix, id);
      var kept := WithoutId(last.lines, id);
      if |kept| == 0 then init
      else
        KeysFromPrefix(init, prefix, last.rid);
        init + [Group(last.rid, kept)]
  }

  /** Groups whose keys all come from `prefix` share no key with a group kept apart from `prefix`. */
  lemma KeysFromPrefix(init: seq<Group>, prefix: seq<Group>, rid: int)
    requires forall i :: 0 <= i < |init| ==> init[i].rid in Rids(prefix)
    requires forall j :: 0 <= j < |prefix| ==> prefix[j].rid != rid
    ensures forall i :: 0 <= i < |init| ==> init[i].rid != rid
  {
    forall i | 0 <= i < |init|
      ensures init[i].rid != rid
    {
      var ks := Rids(prefix);
      assert init[i].rid in ks;
      var k :| 0 <= k < |ks| && ks[k] == init[i].rid;
      assert prefix[k].rid == init[i].rid;
    }
  }

  /** One step of the loop: the last group is filtered and kept only when lines remain. */
  lemma RemoveGroupsStep(gs: GroupSeq, id: int)
    requires |gs| > 0
    ensures var kept := WithoutId(gs[|gs| - 1].lines, id);
      var init := RemoveGroups(gs[..|gs| - 1], id);
      RemoveGroups(gs, id) == if |kept| == 0 then init else init + [Group(gs[|gs| - 1].rid, kept)]
  {
  }

  /** Each key's lines after the loop are the filtered lines it had before. */
  lemma {:induction false} RemoveGroupsLines(gs: GroupSeq, id: int)
    ensures forall rid :: LinesIn(RemoveGroups(gs, id), rid) == WithoutId(LinesIn(gs, rid), id)
  {
    var r := RemoveGroups(gs, id);
    if |gs| > 0 {
      var prefix: GroupSeq := gs[..|gs| - 1];
      var last := gs[|gs| - 1];
      var init := RemoveGroups(prefix, id);
      var kept := WithoutId(last.lines, id);
      RemoveGroupsLines(prefix, id);
      assert gs == prefix + [last];
      LinesInAppend(prefix, last);
      KeysFromPrefix(init, prefix, last.rid);
      if |kept| == 0 {
        assert r == init;
        assert GroupIndex(init, last.rid).None?;
      } else {
        assert r == init + [Group(last.rid, kept)];
        LinesInAppend(init, Group(last.rid, kept));
      }
      forall rid
        ensures LinesIn(r, rid) == WithoutId(LinesIn(gs, rid), id)
      {
        if rid != last.rid {
          assert LinesIn(r, rid) == LinesIn(init, rid);
          assert LinesIn(gs, rid) == LinesIn(prefix, rid);
        }
      }
    }
  }

  /** The keys that survive the loop keep their relative order. */
  lemma {:induction false} RemoveGroupsOrder(gs: GroupSeq, id: int)
    ensures IsSubsequence(Rids(RemoveGroups(gs, id)), Rids(gs))
  {
    if |gs| > 0 {
      var prefix: GroupSeq := gs[..|gs| - 1];
      var last := gs[|gs| - 1];
      var init := RemoveGroups(prefix, id);
      var kept := WithoutId(last.lines, id);
      RemoveGroupsOrder(prefix, id);
      RemoveGroupsStep(gs, id);
      assert gs == prefix + [last];
      RidsAppend(prefix, last);
      if |kept| == 0 {
        KeysFromPrefix(init, prefix, last.rid);
        SubsequenceSkip(Rids(init), Rids(prefix), last.rid);
      } else {
        RidsAppend(init, Group(last.rid, kept));
        SubsequenceBoth(Rids(init), Rids(prefix), last.rid);
      }
    }
  }


  /**
   * `remove_from_cart`: no line for the item is left anywhere, every restaurant keeps
   * its other lines in their order, a group left empty is deleted, and the remaining
   * groups keep their order.
   */
  function RemoveFromCart(c: Cart, menuId: int): (r: Cart)
    ensures forall rid :: Lines(r, rid) == WithoutId(Lines(c, rid), menuId)
    ensures forall rid :: HasGroup(r, rid) <==> |WithoutId(Lines(c, rid), menuId)| > 0
    ensures NoEmptyGroup(r)
    ensures forall i, j :: 0 <= i < |r.groups| && 0 <= j < |r.groups[i].lines| ==> r.groups[i].lines[j].id != menuId
    ensures IsSubsequence(Rids(r.groups), Rids(c.groups))
  {
    RemoveGroupsLines(c.groups, menuId);
    RemoveGroupsOrder(c.groups, menuId);
    var r := Cart(RemoveGroups(c.groups, menuId));
    assert forall i, j :: 0 <= i < |r.groups| && 0 <= j < |r.groups[i].lines| ==> r.groups[i].lines[j].id != menuId by {
      forall i, j | 0 <= i < |r.groups| && 0 <= j < |r.groups[i].lines|
        ensures r.groups[i].lines[j].id != menuId
      {
        LinesAt(r, i);
      }
    }
    assert forall rid :: HasGroup(r, rid) <==> |WithoutId(Lines(c, rid), menuId)| > 0 by {
      forall rid
        ensures HasGroup(r, rid) <==> |Lines(r, rid)| > 0
      {
        if HasGroup(r, rid) {
          LinesAt(r, GroupIndex(r.groups, rid).value);
        }
      }
    }
    r
  }

  /** `remove_from_cart` keeps the cart invariants. */
  lemma RemovePreservesValid(c: Cart, menuId: int)
    requires Valid(c)
    ensures Valid(RemoveFromCart(c, menuId))
  {
    var r := RemoveFromCart(c, menuId);
    forall i | 0 <= i < |r.groups|
      ensures UniqueIds(r.groups[i].lines)
      ensures forall j :: 0 <= j < |r.groups[i].lines| ==> r.groups[i].lines[j].quantity >= 1
    {
      var rid := r.groups[i].rid;
      LinesAt(r, i);
      assert HasGroup(c, rid);
      var k := GroupIndex(c.groups, rid).value;
      assert Lines(c, rid) == c.groups[k].lines;
      WithoutIdKeepsUnique(c.groups[k].lines, menuId);
      WithoutIdMembers(c.groups[k].lines, menuId);
      forall j | 0 <= j < |r.groups[i].lines|
        ensures r.groups[i].lines[j].quantity >= 1
      {
        assert r.groups[i].lines[j] in c.groups[k].lines;
      }
    }
  }

  /** Removing an item the cart does not hold leaves every restaurant's lines as they were. */
  lemma RemoveAbsentKeepsLines(c: Cart, menuId: int)
    requires forall rid :: LineIndex(Lines(c, rid), menuId).None?
    ensures forall rid :: Lines(RemoveFromCart(c, menuId), rid) == Lines(c, rid)
  {
    forall rid
      ensures Lines(RemoveFromCart(c, menuId), rid) == Lines(c, rid)
    {
      WithoutAbsentId(Lines(c, rid), menuId);
    }
  }

  /** The group loop of `remove_from_cart` changes nothing when no group is empty and none holds the item. */
  lemma {:induction false} RemoveGroupsAbsent(gs: GroupSeq, id: int)
    requires forall i :: 0 <= i < |gs| ==> |gs[i].lines| > 0
    requires forall i, j :: 0 <= i < |gs| && 0 <= j < |gs[i].lines| ==> gs[i].lines[j].id != id
    ensures RemoveGroups(gs, id) == gs
  {
    if |gs| > 0 {
      var prefix: GroupSeq := gs[..|gs| - 1];
      var last := gs[|gs| - 1];
      RemoveGroupsAbsent(prefix, id);
      WithoutAbsentId(last.lines, id);
      assert |WithoutId(last.lines, id)| > 0;
      assert RemoveGroups(gs, id) == prefix + [Group(last.rid, last.lines)];
      assert gs == prefix + [last];
    }
  }

  /** On a cart without empty groups, removing an item it does not hold leaves the cart exactly as it was. */
  lemma RemoveAbsentIsNoop(c: Cart, menuId: int)
    requires NoEmptyGroup(c)
    requires forall rid :: LineIndex(Lines(c, rid), menuId).None?
    ensures RemoveFromCart(c, menuId) == c
  {
    forall i, j | 0 <= i < |c.groups| && 0 <= j < |c.groups[i].lines|
      ensures c.groups[i].lines[j].id != menuId
    {
      LinesAt(c, i);
      assert LineIndex(Lines(c, c.groups[i].rid), menuId).None?;
    }
    RemoveGroupsAbsent(c.groups, menuId);
  }

  /** Removing the only line of a restaurant deletes that restaurant's key. */
  lemma RemoveLastLineDropsGroup()
    ensures var c := Cart([Group(2, [CartLine(5, "Pide", 1200, 1, "Karadeniz")]),
                           Group(8, [CartLine(6, "Ayran", 300, 2, "Sofra")])]);
      var r := RemoveFromCart(c, 5);
      !HasGroup(r, 2) && Lines(r, 8) == Lines(c, 8)
  {
    var c := Cart([Group(2, [CartLine(5, "Pide", 1200, 1, "Karadeniz")]),
                   Group(8, [CartLine(6, "Ayran", 300, 2, "Sofra")])]);
    LinesAt(c, 0);
    LinesAt(c, 1);
    WithoutAbsentId(Lines(c, 8), 5);
  }
}
