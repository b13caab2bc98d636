/**
 * The consumable stock ledger of the stock keeper's routes: which items are
 * low, how much a single replenishment adds, and what the mass replenishment
 * does to every item.
 */
module Stock {
  import opened Records

  /** An item is low when its quantity is at or below its threshold. */
  predicate IsLow(c: Consumable) {
    c.quantity <= c.threshold
  }

  /** `check_stock`: the ids of the low items. */
  function LowStock(items: map<nat, Consumable>): (low: set<nat>)
    ensures low <= items.Keys
    ensures forall id :: id in items ==> (id in low <==> IsLow(items[id]))
  {
    set id | id in items && IsLow(items[id])
  }

  /** The column `quantity` is stored by SQLite as a signed 64-bit integer. */
  const MinQuantity: int := -0x8000_0000_0000_0000
  const MaxQuantity: int := 0x7FFF_FFFF_FFFF_FFFF

  /** A quantity the database can store; writing any other fails on flush. */
  predicate Storable(n: int) {
    MinQuantity <= n <= MaxQuantity
  }

  /** Every quantity of the ledger fits its column, as for any ledger read from the database. */
  predicate InColumn(items: map<nat, Consumable>) {
    forall id :: id in items ==> Storable(items[id].quantity)
  }

  /** The amount `replenish_stock` adds when the form gives none it can parse. */
  const DefaultReorder: int := 10

  /**
   * The amount `replenish_stock` adds: the integer in the form when `int()`
   * accepts it, negative numbers included, and otherwise 10.
   */
  function ReorderAmount(f: AmountField): (n: int)
    ensures f.Numeric? ==> n == f.n
    ensures !f.Numeric? ==> n == DefaultReorder
  {
    match f
    case Numeric(k) => k
    case _ => DefaultReorder
  }

  /** One item after `replenish_stock` has added `amount` to it. */
  function Replenished(c: Consumable, amount: int): (r: Consumable)
    ensures r.quantity - c.quantity == amount
    ensures r.(quantity := c.quantity) == c
  {
    c.(quantity := c.quantity + amount)
  }

  /** One item after the mass replenishment: topped up by its own threshold. */
  function ToppedUp(c: Consumable): (r: Consumable)
    ensures r == Replenished(c, c.threshold)
  {
    c.(quantity := c.quantity + c.threshold)
  }

  /**
   * The whole ledger after `mass_replenish`: every item that was low is
   * topped up by its threshold, every other item is left as it was.
   */
  function MassReplenished(items: map<nat, Consumable>): (r: map<nat, Consumable>)
    ensures r.Keys == items.Keys
    ensures forall id :: id in items && IsLow(items[id]) ==> r[id] == ToppedUp(items[id])
    ensures forall id :: id in items && !IsLow(items[id]) ==> r[id] == items[id]
  {
    map id | id in items :: if IsLow(items[id]) then ToppedUp(items[id]) else items[id]
  }

  /**
   * The mass replenishment can be written back: every low item, topped up
   * by its threshold, still fits its column.
   */
  predicate MassReplenishFits(items: map<nat, Consumable>) {
    forall id :: id in items && IsLow(items[id]) ==> Storable(ToppedUp(items[id]).quantity)
  }

  /**
   * When the write-back fits, the replenished ledger fits its columns again,
   * items that were not low included.
   */
  lemma MassReplenishedInColumn(items: map<nat, Consumable>)
    requires InColumn(items) && MassReplenishFits(items)
    ensures InColumn(MassReplenished(items))
  {
  }

  /**
   * Thresholds between zero and half the column's range never overflow: a
   * low item holds at most its threshold, so topping it up at most doubles it.
   */
  lemma ModestThresholdsFit(items: map<nat, Consumable>)
    requires InColumn(items)
    requires forall id :: id in items ==> 0 <= items[id].threshold <= MaxQuantity / 2
    ensures MassReplenishFits(items)
  {
  }

  /**
   * A low item stays low after being topped up by its threshold exactly when
   * its quantity was zero or less; an item that was not low stays not low.
   * So after the mass replenishment the low list shrinks to the low items
   * that were empty (or overdrawn).
   */
  lemma LowAfterMassReplenish(items: map<nat, Consumable>)
    ensures LowStock(MassReplenished(items)) == set id | id in LowStock(items) && items[id].quantity <= 0
  {
  }

  /**
   * The threshold is not checked to be positive: a low item whose threshold
   * is negative loses stock in the mass replenishment.
   */
  lemma NegativeThresholdDrainsStock(items: map<nat, Consumable>, id: nat)
    requires id in items && IsLow(items[id]) && items[id].threshold < 0
    ensures MassReplenished(items)[id].quantity < items[id].quantity
  {
  }

  /**
   * Nor is the replenishment amount: a negative `reorder_amount` drives an
   * item with less stock than that amount below zero.
   */
  lemma NegativeAmountOverdraws(c: Consumable, k: int)
    requires k < 0 && c.quantity + k < 0
    ensures Replenished(c, ReorderAmount(Numeric(k))).quantity < 0
  {
  }

  /**
   * The scenario of a low item being replenished by the default amount: an
   * item with 2 in stock and threshold 5 is low; after a replenishment with
   * no amount it holds 12 and is no longer low.
   */
  lemma DefaultReplenishClearsLowItem(c: Consumable)
    requires c.quantity == 2 && c.threshold == DefaultThreshold
    ensures IsLow(c)
    ensures Replenished(c, ReorderAmount(Absent)).quantity == 12
    ensures !IsLow(Replenished(c, ReorderAmount(Absent)))
  {
  }
}
