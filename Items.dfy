/**
 * Item bookkeeping on the character sheet: the equipment tab splits the
 * character's items into equipped and unequipped ones, the inventory tab is
 * handed the unequipped ones, "available equipment" is the unequipped items
 * of an equippable type, and the new-item form computes a total value.
 *
 * `is_equipped` is read for its truthiness only, so it is modelled as a bool.
 */
module Items {
  import opened JsValues

  datatype Item = Item(id: int, name: string, itemType: string, isEquipped: bool)

  /** Array.prototype.filter: the elements that satisfy `p`, in their original order. */
  function Filter(s: seq<Item>, p: Item -> bool): (r: seq<Item>)
    ensures |r| <= |s|
    ensures forall i :: 0 <= i < |r| ==> p(r[i])
    ensures forall x :: x in r <==> x in s && p(x)
  {
    if s == [] then []
    else if p(s[0]) then [s[0]] + Filter(s[1..], p)
    else Filter(s[1..], p)
  }

  /** `items.filter(item => item.is_equipped)` */
  function Equipped(items: seq<Item>): (r: seq<Item>)
    ensures forall x :: x in r <==> x in items && x.isEquipped
  {
    Filter(items, (i: Item) => i.isEquipped)
  }

  /** `items.filter(item => !item.is_equipped)` */
  function Unequipped(items: seq<Item>): (r: seq<Item>)
    ensures forall x :: x in r <==> x in items && !x.isEquipped
  {
    Filter(items, (i: Item) => !i.isEquipped)
  }

  /**
   * `s` is an interleaving of `a` and `b`: it can be dealt, in order, into
   * `a` and `b`, each element going to exactly one of them.
   */
  predicate Interleaving<T(==)>(s: seq<T>, a: seq<T>, b: seq<T>)
    decreases |s|
  {
    if s == [] then a == [] && b == []
    else
      || (a != [] && a[0] == s[0] && Interleaving(s[1..], a[1..], b))
      || (b != [] && b[0] == s[0] && Interleaving(s[1..], a, b[1..]))
  }

  /** An interleaving loses and invents nothing. */
  lemma {:induction false} InterleavingCounts<T>(s: seq<T>, a: seq<T>, b: seq<T>)
    requires Interleaving(s, a, b)
    ensures |a| + |b| == |s|
    ensures multiset(a) + multiset(b) == multiset(s)
  {
    if s != [] {
      assert s == [s[0]] + s[1..];
      if a != [] && a[0] == s[0] && Interleaving(s[1..], a[1..], b) {
        InterleavingCounts(s[1..], a[1..], b);
        assert a == [a[0]] + a[1..];
      } else {
        InterleavingCounts(s[1..], a, b[1..]);
        assert b == [b[0]] + b[1..];
      }
    }
  }

  /** The equipment tab's two lists deal the items out in order, each item to one list. */
  lemma {:induction false} SplitIsInterleaving(items: seq<Item>)
    ensures Interleaving(items, Equipped(items), Unequipped(items))
  {
    if items != [] {
      SplitIsInterleaving(items[1..]);
    }
  }

  /**
   * The split is the only one: any in-order dealing of the items into an
   * all-equipped and an all-unequipped list is the equipment tab's.
   */
  lemma {:induction false} SplitIsUnique(items: seq<Item>, a: seq<Item>, b: seq<Item>)
    requires Interleaving(items, a, b)
    requires forall i :: 0 <= i < |a| ==> a[i].isEquipped
    requires forall i :: 0 <= i < |b| ==> !b[i].isEquipped
    ensures a == Equipped(items) && b == Unequipped(items)
  {
    if items != [] {
      if a != [] && a[0] == items[0] && Interleaving(items[1..], a[1..], b) {
        SplitIsUnique(items[1..], a[1..], b);
        assert a == [a[0]] + a[1..];
      } else {
        SplitIsUnique(items[1..], a, b[1..]);
        assert b == [b[0]] + b[1..];
      }
    }
  }

  /** The equipped and unequipped lists partition the items. */
  lemma EquipmentSplitPartitions(items: seq<Item>)
    ensures |Equipped(items)| + |Unequipped(items)| == |items|
    ensures multiset(Equipped(items)) + multiset(Unequipped(items)) == multiset(items)
    ensures forall x :: x in items ==> (x in Equipped(items) <==> x.isEquipped)
    ensures forall x :: x in items ==> (x in Unequipped(items) <==> !x.isEquipped)
  {
    SplitIsInterleaving(items);
    InterleavingCounts(items, Equipped(items), Unequipped(items));
  }

  // ---------------------------------------------------------------------
  // What each tab is handed
  // ---------------------------------------------------------------------

  /** The equipment tab: `characterData?.items || []`; None stands for a missing list. */
  function EquipmentTabItems(loaded: Option<seq<Item>>): (r: seq<Item>)
    ensures loaded.Some? ==> r == loaded.value
    ensures loaded.None? ==> r == []
  {
    match loaded
    case Some(items) => items
    case None => []
  }

  /** The inventory tab: `characterData?.items?.filter(item => !item.is_equipped) || []`. */
  function InventoryTabItems(loaded: Option<seq<Item>>): (r: seq<Item>)
    ensures forall x :: x in r ==> !x.isEquipped
  {
    match loaded
    case Some(items) => Unequipped(items)
    case None => []
  }

  /** The inventory tab shows exactly the equipment tab's unequipped list. */
  lemma InventoryIsUnequippedList(loaded: Option<seq<Item>>)
    ensures InventoryTabItems(loaded) == Unequipped(EquipmentTabItems(loaded))
  {
  }

  predicate IsEquipmentType(itemType: string) {
    itemType in ["weapon", "armor", "accessory", "tool"]
  }

  /** "Available equipment": the unequipped items of an equippable type. */
  function AvailableEquipment(items: seq<Item>): (r: seq<Item>)
    ensures forall x :: x in r ==> !x.isEquipped && IsEquipmentType(x.itemType)
  {
    Filter(Unequipped(items), (i: Item) => IsEquipmentType(i.itemType))
  }

  /** An item is offered for equipping exactly when it is unequipped and of an equippable type. */
  lemma AvailableEquipmentMembers(items: seq<Item>)
    ensures forall x :: x in AvailableEquipment(items) <==>
      x in items && !x.isEquipped && x.itemType in {"weapon", "armor", "accessory", "tool"}
    ensures |AvailableEquipment(items)| <= |Unequipped(items)|
  {
  }

  // ---------------------------------------------------------------------
  // The new-item form
  // ---------------------------------------------------------------------

  datatype ItemForm = ItemForm(itemType: string, quantity: int, unitPrice: int)

  /** The form's initial state and its state after an item is added. */
  const INITIAL_ITEM_FORM := ItemForm("consumable", 1, 0)

  /** The quantity input: `parseInt(e.target.value) || 1`. */
  function WithQuantityInput(form: ItemForm, text: string): (f: ItemForm)
    ensures f.quantity != 0
    ensures f.itemType == form.itemType && f.unitPrice == form.unitPrice
    ensures Truthy(ParseInt(text)) ==> f.quantity == ParseInt(text).n
    ensures ParseInt(text).NaN? || ParseInt(text) == Num(0) ==> f.quantity == 1
  {
    form.(quantity := ParseIntOr(text, 1))
  }

  /** The price input: `parseInt(e.target.value) || 0`. */
  function WithUnitPriceInput(form: ItemForm, text: string): (f: ItemForm)
    ensures f.itemType == form.itemType && f.quantity == form.quantity
    ensures ParseInt(text).Num? ==> f.unitPrice == ParseInt(text).n
    ensures ParseInt(text).NaN? ==> f.unitPrice == 0
  {
    form.(unitPrice := ParseIntOr(text, 0))
  }

  /** Typing a numeral sets the quantity to it, except that 0 becomes 1. */
  lemma QuantityOfNumeral(form: ItemForm, n: int)
    ensures WithQuantityInput(form, Show(n)).quantity == if n == 0 then 1 else n
  {
    ParseIntOrOfShow(n, 1);
  }

  /** Typing a numeral sets the unit price to exactly that number, 0 included. */
  lemma PriceOfNumeral(form: ItemForm, n: int)
    ensures WithUnitPriceInput(form, Show(n)).unitPrice == n
  {
    ParseIntOrOfShow(n, 0);
  }

  /** The quantity of a form never becomes 0: it starts at 1 and every edit keeps it non-zero. */
  predicate QuantitySet(form: ItemForm) {
    form.quantity != 0
  }

  lemma FormKeepsQuantitySet(form: ItemForm, text: string)
    ensures QuantitySet(INITIAL_ITEM_FORM)
    ensures QuantitySet(WithQuantityInput(form, text))
    ensures QuantitySet(form) ==> QuantitySet(WithUnitPriceInput(form, text))
  {
  }

  /** The item sent to the server. */
  datatype NewItem = NewItem(itemType: string, quantity: int, unitPrice: int, totalValue: int)

  /** addItem's payload: the form plus `total_value: quantity * unit_price`. */
  function AddItemPayload(form: ItemForm): (p: NewItem)
    ensures p.itemType == form.itemType && p.quantity == form.quantity && p.unitPrice == form.unitPrice
    ensures p.totalValue == form.quantity * form.unitPrice
  {
    NewItem(form.itemType, form.quantity, form.unitPrice, form.quantity * form.unitPrice)
  }

  /** With the quantity set, the unit price can be read back from the total. */
  lemma TotalValueDeterminesPrice(form: ItemForm)
    requires QuantitySet(form)
    ensures AddItemPayload(form).totalValue / form.quantity == form.unitPrice
    ensures AddItemPayload(form).totalValue == 0 <==> form.unitPrice == 0
  {
    var q, p := form.quantity, form.unitPrice;
    var t := q * p;
    assert t == p * q + 0;
    DivideExact(t, q, p);
  }

  /** A non-zero multiple is at least as large, in absolute value, as its factor. */
  lemma ProductAtLeastFactor(k: int, q: int)
    requires k != 0 && q != 0
    ensures (if k * q < 0 then -(k * q) else k * q) >= (if q < 0 then -q else q)
  {
    if k > 0 && q > 0 { assert (k - 1) * q >= 0; }
    else if k > 0 { assert (k - 1) * (-q) >= 0; }
    else if q > 0 { assert (-k - 1) * q >= 0; }
    else { assert (-k - 1) * (-q) >= 0; }
  }

  /** Exact division: a multiple of a non-zero divisor divides back to its factor. */
  lemma DivideExact(t: int, q: int, p: int)
    requires q != 0 && t == p * q
    ensures t / q == p
  {
    var d, m := t / q, t % q;
    assert (p - d) * q == m;
    if p != d {
      ProductAtLeastFactor(p - d, q);
    }
  }
}
