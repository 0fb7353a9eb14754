/**
 The paper executor: deterministic slippage, tick snapping and fees.
 `Raised` stands for the validation errors the order and fill records throw.
 */
module PaperExecution {
  import opened Common
  import opened Rounding

  datatype Action = BUY | SELL | EXIT | HOLD

  datatype Side = B | S

  datatype Order = Order(action: Action, qty: int, refPrice: real)

  datatype Fill = Fill(side: Side, qty: int, price: real, fees: real)

  datatype RejectReason = RefUnavailable | NonPositiveQty | HoldIsNoOp

  datatype Result = Filled(fill: Fill) | Rejected(reason: RejectReason) | Raised

  datatype Executor = Executor(slippageBps: real, feeBps: real, flatFee: real) {

    function Slip(): real { slippageBps / 10_000.0 }

    /** Build the order record (which must validate) and execute it. */
    function Submit(order: Order): Result {
      if order.qty <= 0 || order.refPrice < 0.0 then Raised else Execute(order)
    }

    function Execute(order: Order): Result {
      if order.refPrice <= 0.0 then Rejected(RefUnavailable)
      else if order.qty <= 0 then Rejected(NonPositiveQty)
      else if order.action == HOLD then Rejected(HoldIsNoOp)
      else
        Settle(order.qty, SideOf(order.action), SnapFill(Slipped(order), SideOf(order.action)))
    }

    /** Charge the fees and build the fill record, which must validate. */
    function Settle(qty: int, side: Side, price: real): Result {
      var fees := Fees(Gross(price, qty));
      if price <= 0.0 || fees < 0.0 then Raised else Filled(Fill(side, qty, price, fees))
    }

    /** The reference price moved against the trader by the slippage. */
    function Slipped(order: Order): real {
      if order.action == BUY then Paid(order.refPrice) else Net(order.refPrice)
    }

    /** What a purchase at `price` costs per unit after slippage. */
    function Paid(price: real): real { price * (1.0 + Slip()) }

    /** What a sale at `price` brings per unit after slippage. */
    function Net(price: real): real { price * (1.0 - Slip()) }

    function Fees(gross: real): real {
      Round(Charge(gross), 10_000)
    }

    function Charge(gross: real): real { flatFee + gross * (feeBps / 10_000.0) }
  }

  function SideOf(action: Action): Side { if action == BUY then B else S }

  function Gross(price: real, qty: int): real { price * qty as real }

  /** Snap against the trader: a buy to the next tick up, a sell to the next tick down. */
  function SnapFill(price: real, side: Side): (r: real)
    ensures OnTick(r)
    ensures side == B ==> price <= r < price + TICK
    ensures side == S ==> price - TICK < r <= price
  {
    if side == B then CeilTick(price) else FloorTick(price)
  }

  /** What a filled order says about its price, by less than one tick. */
  lemma FillBracket(ex: Executor, order: Order)
    requires ex.Submit(order).Filled?
    ensures var f := ex.Submit(order).fill;
      && f.qty == order.qty > 0 && f.price > 0.0 && f.fees >= 0.0 && OnTick(f.price)
      && order.action != HOLD
      && f.side == SideOf(order.action)
      && f.price == SnapFill(ex.Slipped(order), f.side)
      && (f.side == B ==> ex.Slipped(order) <= f.price < ex.Slipped(order) + TICK)
      && (f.side == S ==> ex.Slipped(order) - TICK < f.price <= ex.Slipped(order))
  {
    hide Executor.Slipped, Executor.Fees, Gross;
  }

  /** With non-negative slippage no fill is ever better than the reference price. */
  lemma FillNeverBeatsReference(ex: Executor, order: Order)
    requires ex.slippageBps >= 0.0 && ex.Submit(order).Filled?
    ensures var f := ex.Submit(order).fill;
      (f.side == B ==> f.price >= order.refPrice) && (f.side == S ==> f.price <= order.refPrice)
  {
    hide Executor.Slipped, Executor.Fees, Gross;
    FillBracket(ex, order);
    SlippageDirection(ex, order, ex.Submit(order).fill);
  }

  lemma SlippageDirection(ex: Executor, order: Order, f: Fill)
    requires ex.slippageBps >= 0.0 && order.refPrice > 0.0
    requires f.side == SideOf(order.action)
    requires f.side == B ==> ex.Slipped(order) <= f.price
    requires f.side == S ==> f.price <= ex.Slipped(order)
    ensures f.side == B ==> f.price >= order.refPrice
    ensures f.side == S ==> f.price <= order.refPrice
  {
    var ref, slip := order.refPrice, ex.Slip();
    assert ref * slip >= 0.0;
    assert ref * (1.0 + slip) == ref + ref * slip;
    assert ref * (1.0 - slip) == ref - ref * slip;
  }

  // ---- exactly when a sale goes through ----

  /**
   What a sale needs besides a positive price: a positive quantity, a slipped price worth
   at least one tick, and a fee that does not round below zero.
   */
  predicate SaleClears(ex: Executor, qty: int, price: real) {
    qty > 0 && ex.Net(price) >= TICK && ex.Charge(Gross(FloorTick(ex.Net(price)), qty)) >= -0.00005
  }

  /** Of all sale orders exactly these fill, exactly these raise, and exactly these are rejected. */
  lemma SaleFillsIff(ex: Executor, order: Order)
    requires order.action == SELL
    ensures ex.Submit(order).Filled? <==> order.refPrice > 0.0 && SaleClears(ex, order.qty, order.refPrice)
    ensures ex.Submit(order).Raised?
            <==> order.qty <= 0 || order.refPrice < 0.0
                 || (order.refPrice > 0.0 && !SaleClears(ex, order.qty, order.refPrice))
    ensures ex.Submit(order).Rejected? <==> order.qty > 0 && order.refPrice == 0.0
  {
    hide Executor.Net, Executor.Charge, Gross, FloorTick, CeilTick, Round;
    FloorTickPositiveIff(ex.Net(order.refPrice));
    RoundNonNegative(ex.Charge(Gross(FloorTick(ex.Net(order.refPrice)), order.qty)));
  }

  /** The same for buys: a positive slipped price is enough of a price, since it snaps up. */
  lemma BuyFillsIff(ex: Executor, order: Order)
    requires order.action == BUY
    ensures ex.Submit(order).Filled?
            <==> order.refPrice > 0.0 && order.qty > 0 && ex.Paid(order.refPrice) > 0.0
                 && ex.Charge(Gross(CeilTick(ex.Paid(order.refPrice)), order.qty)) >= -0.00005
    ensures ex.Submit(order).Filled? ==> ex.Submit(order).fill.price == CeilTick(ex.Paid(order.refPrice))
  {
    hide Executor.Paid, Executor.Charge, Gross, FloorTick, CeilTick, Round;
    CeilTickPositiveIff(ex.Paid(order.refPrice));
    RoundNonNegative(ex.Charge(Gross(CeilTick(ex.Paid(order.refPrice)), order.qty)));
  }

  /** Slippage in basis points of the price, against the trader on both sides. */
  lemma SlippageIs(ex: Executor, price: real)
    ensures ex.Paid(price) - price == price * (ex.slippageBps / 10_000.0)
    ensures price - ex.Net(price) == price * (ex.slippageBps / 10_000.0)
  {
    var slip := ex.slippageBps / 10_000.0;
    assert price * (1.0 + slip) == price + price * slip && price * (1.0 - slip) == price - price * slip;
  }

  lemma CeilTickPositiveIff(x: real)
    ensures CeilTick(x) > 0.0 <==> x > 0.0
  {
    TicksAreCents(Ceil(x / TICK));
    hide Round;
  }

  /** A HOLD that validates is rejected, and nothing else but a zero price is. */
  lemma RejectedIff(ex: Executor, order: Order)
    ensures ex.Submit(order).Rejected?
            <==> order.qty > 0 && order.refPrice >= 0.0 && (order.refPrice == 0.0 || order.action == HOLD)
  {
    hide Executor.Slipped, Executor.Fees, Gross, SnapFill;
  }

  lemma FloorTickPositiveIff(x: real)
    ensures FloorTick(x) > 0.0 <==> x >= TICK
  {
    TicksAreCents(Floor(x / TICK));
    hide Round;
  }

  /** The fee of a filled order, before rounding, passed the same test as that of a sale. */
  lemma FilledCharge(ex: Executor, order: Order)
    requires ex.Submit(order).Filled?
    ensures var f := ex.Submit(order).fill; f.qty == order.qty && ex.Charge(Gross(f.price, f.qty)) >= -0.00005
  {
    hide Executor.Charge, Executor.Slipped, Gross, SnapFill, Round;
    RoundNonNegative(ex.Charge(Gross(ex.Submit(order).fill.price, order.qty)));
  }

  /** The fee charged is the flat fee plus the rate on the gross value, to within half its last decimal. */
  lemma FillCharged(ex: Executor, order: Order)
    requires ex.Submit(order).Filled?
    ensures var f := ex.Submit(order).fill; Abs(f.fees - ex.Charge(Gross(f.price, f.qty))) <= 0.00005
  {
    hide Executor.Charge, Executor.Slipped, Gross, SnapFill, Round;
    RoundError4(ex.Charge(Gross(ex.Submit(order).fill.price, order.qty)));
  }

  /** With fee settings that are not negative only quantity and price matter. */
  lemma UsualSaleClears(ex: Executor, qty: int, price: real)
    requires ex.feeBps >= 0.0 && ex.flatFee >= 0.0
    ensures SaleClears(ex, qty, price) <==> qty > 0 && price * (1.0 - ex.Slip()) >= TICK
  {
    var net := ex.Net(price);
    if net >= TICK && qty > 0 {
      var gross := Gross(FloorTick(net), qty);
      FloorTickPositiveIff(net);
      hide FloorTick;
      assert gross >= 0.0 by { assert FloorTick(net) * qty as real >= 0.0; }
      assert gross * (ex.feeBps / 10_000.0) >= 0.0;
    }
  }

  /** A negative fee rate turns this around: a sale can raise at a high price and fill at a low one. */
  lemma NegativeFeeRateInverts()
    ensures var ex := Executor(0.0, -100.0, 1.0);
      ex.Submit(Order(SELL, 1, 200.0)).Raised? && ex.Submit(Order(SELL, 1, 50.0)).Filled?
  {
    var ex := Executor(0.0, -100.0, 1.0);
    NoSlip(ex, Order(SELL, 1, 200.0)); NoSlip(ex, Order(SELL, 1, 50.0));
    SnapWhole(4000); SnapWhole(1000);
    SaleFillsIff(ex, Order(SELL, 1, 200.0));
    SaleFillsIff(ex, Order(SELL, 1, 50.0));
    hide Executor.Submit, FloorTick, CeilTick;
  }

  // ---- without slippage and fees ----

  const FREE := Executor(0.0, 0.0, 0.0)

  /** An order at a whole number of ticks fills at its reference price. */
  lemma FreeFill(order: Order, ticks: int)
    requires order.action in {BUY, SELL} && order.qty > 0
    requires ticks > 0 && order.refPrice == ticks as real * TICK
    ensures FREE.Submit(order) == Filled(Fill(SideOf(order.action), order.qty, order.refPrice, 0.0))
  {
    NoSlip(FREE, order);
    hide Executor.Slipped;
    NoFeeFill(FREE, order, ticks);
  }

  /** Without fees an order fills at its slipped price when that is a whole number of ticks. */
  lemma NoFeeFill(ex: Executor, order: Order, ticks: int)
    requires ex.feeBps == 0.0 && ex.flatFee == 0.0 && order.action in {BUY, SELL} && order.qty > 0
    requires order.refPrice > 0.0 && ticks > 0 && ex.Slipped(order) == ticks as real * TICK
    ensures ex.Submit(order) == Filled(Fill(SideOf(order.action), order.qty, ex.Slipped(order), 0.0))
  {
    var price, side := ex.Slipped(order), SideOf(order.action);
    SnapWhole(ticks);
    NoFee(ex, Gross(price, order.qty));
    hide SnapFill, Executor.Fees, Executor.Slipped;
    assert SnapFill(price, side) == price;
    assert ex.Execute(order) == Filled(Fill(side, order.qty, price, 0.0));
  }

  lemma NoSlip(ex: Executor, order: Order)
    requires ex.slippageBps == 0.0
    ensures ex.Slip() == 0.0 && ex.Slipped(order) == order.refPrice
  {
    assert order.refPrice * (1.0 + 0.0) == order.refPrice && order.refPrice * (1.0 - 0.0) == order.refPrice;
  }

  lemma SnapWhole(ticks: int)
    ensures SnapFill(ticks as real * TICK, B) == ticks as real * TICK
    ensures SnapFill(ticks as real * TICK, S) == ticks as real * TICK
  {
    TicksAreCents(ticks);
    WholeFloor(ticks, ticks as real * TICK / TICK);
    WholeFloor(-ticks, -(ticks as real * TICK / TICK));
    hide Round;
  }

  lemma NoFee(ex: Executor, gross: real)
    requires ex.feeBps == 0.0 && ex.flatFee == 0.0
    ensures ex.Fees(gross) == 0.0
  {
    assert gross * (0.0 / 10_000.0) == 0.0;
    WholeFloor(0, 0.0);
  }
}
