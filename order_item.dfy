/**
 * `OrderItem`: one line of an order and the computation of its amounts.
 * Prices and rates are `Decimal`s in `order_item.py`; here they are exact
 * `real`s, and rates are percentages.
 */
module OrderItem {
  /** The line total in closed form: the subtotal, less the discount, plus tax on what remains. */
  function LineTotal(unitPrice: real, quantity: int, discountRate: real, taxRate: real): (t: real)
  {
    unitPrice * quantity as real * (1.0 - discountRate / 100.0) * (1.0 + taxRate / 100.0)
  }

  class OrderItem {
    var quantity: int
    var unitPrice: real
    var subtotal: real
    var taxRate: real
    var taxAmount: real
    var discountRate: real
    var discountAmount: real
    var total: real

    /** A line with the given price, quantity and rates, its amounts not yet computed. */
    constructor(unitPrice: real, quantity: int, discountRate: real, taxRate: real)
      ensures this.unitPrice == unitPrice && this.quantity == quantity
      ensures this.discountRate == discountRate && this.taxRate == taxRate
      ensures subtotal == 0.0 && discountAmount == 0.0 && taxAmount == 0.0 && total == 0.0
    {
      this.unitPrice := unitPrice;
      this.quantity := quantity;
      this.discountRate := discountRate;
      this.taxRate := taxRate;
      subtotal := 0.0;
      discountAmount := 0.0;
      taxAmount := 0.0;
      total := 0.0;
    }

    /**
     * `calculate_total`: subtotal is price times quantity, the discount a
     * percentage of the subtotal, the tax a percentage of the discounted
     * amount, and the total the discounted amount plus tax.
     */
    method CalculateTotal()
      modifies this
      ensures subtotal == unitPrice * quantity as real
      ensures discountAmount == subtotal * discountRate / 100.0
      ensures taxAmount == (subtotal - discountAmount) * taxRate / 100.0
      ensures total == subtotal - discountAmount + taxAmount
      ensures total == LineTotal(unitPrice, quantity, discountRate, taxRate)
      ensures unitPrice == old(unitPrice) && quantity == old(quantity)
      ensures discountRate == old(discountRate) && taxRate == old(taxRate)
    {
      subtotal := unitPrice * quantity as real;
      discountAmount := subtotal * (discountRate / 100.0);
      var afterDiscount := subtotal - discountAmount;
      taxAmount := afterDiscount * (taxRate / 100.0);
      total := afterDiscount + taxAmount;
      TotalClosedForm(unitPrice, quantity, discountRate, taxRate);
    }
  }

  /** The four steps of `calculate_total` compose to the closed form. */
  lemma TotalClosedForm(unitPrice: real, quantity: int, discountRate: real, taxRate: real)
    ensures var sub := unitPrice * quantity as real;
      var disc := sub * (discountRate / 100.0);
      (sub - disc) + (sub - disc) * (taxRate / 100.0) == LineTotal(unitPrice, quantity, discountRate, taxRate)
  {
    var sub := unitPrice * quantity as real;
    var disc := sub * (discountRate / 100.0);
    assert sub - disc == sub * (1.0 - discountRate / 100.0);
    assert (sub - disc) + (sub - disc) * (taxRate / 100.0) == (sub - disc) * (1.0 + taxRate / 100.0);
  }

  /** With no discount and no tax the total is the subtotal. */
  lemma ZeroRatesTotalIsSubtotal(unitPrice: real, quantity: int)
    ensures LineTotal(unitPrice, quantity, 0.0, 0.0) == unitPrice * quantity as real
  {
  }

  /**
   * For a non-negative price and quantity, a discount rate within 0..100 and
   * a non-negative tax rate, the total is non-negative and tax never makes
   * it exceed the taxed subtotal.
   */
  lemma TotalBounds(unitPrice: real, quantity: int, discountRate: real, taxRate: real)
    requires unitPrice >= 0.0 && quantity >= 0
    requires 0.0 <= discountRate <= 100.0 && taxRate >= 0.0
    ensures var sub := unitPrice * quantity as real;
      0.0 <= LineTotal(unitPrice, quantity, discountRate, taxRate) <= sub * (1.0 + taxRate / 100.0)
  {
    var sub := unitPrice * quantity as real;
    var keep := 1.0 - discountRate / 100.0;
    var tax := 1.0 + taxRate / 100.0;
    assert 0.0 <= sub;
    assert 0.0 <= keep <= 1.0;
    assert 1.0 <= tax;
    assert 0.0 <= sub * keep <= sub;
    assert LineTotal(unitPrice, quantity, discountRate, taxRate) == sub * keep * tax;
    assert sub * keep * tax <= sub * tax;
  }

  /** A larger discount rate never gives a larger total, for a non-negative subtotal and tax rate. */
  lemma DiscountLowersTotal(unitPrice: real, quantity: int, d1: real, d2: real, taxRate: real)
    requires unitPrice >= 0.0 && quantity >= 0 && taxRate >= 0.0 && d1 <= d2
    ensures LineTotal(unitPrice, quantity, d2, taxRate) <= LineTotal(unitPrice, quantity, d1, taxRate)
  {
    var sub := unitPrice * quantity as real;
    var tax := 1.0 + taxRate / 100.0;
    assert 0.0 <= sub && 1.0 <= tax;
    assert 1.0 - d2 / 100.0 <= 1.0 - d1 / 100.0;
    assert sub * (1.0 - d2 / 100.0) <= sub * (1.0 - d1 / 100.0);
  }
}
