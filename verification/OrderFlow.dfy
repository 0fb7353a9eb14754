/**
 The order engine: a signal becomes an order, the order a fill, the fill a book entry.
 EXIT is rewritten to BUY or SELL from the current position.
 */
module OrderFlow {
  import opened Common
  import opened Rounding
  import opened PaperExecution
  import opened PositionBook

  /** `metaQty` is the quantity in the signal's metadata, `refPrice` the resolved price (0 if none). */
  datatype Signal = Signal(instrument: string, action: Action, metaQty: Option<int>, refPrice: real)

  datatype Desk = Desk(executor: Executor, defaultQty: int) {

    function ResolveQty(sig: Signal): int {
      if sig.metaQty.Some? && sig.metaQty.value > 0 then sig.metaQty.value else defaultQty
    }

    /** The fill a signal leads to when the book holds `qty` of its instrument, if any. */
    function FillFor(sig: Signal, qty: int): Option<Fill> {
      if sig.action == HOLD || (sig.action == EXIT && qty == 0) then None
      else
        var action := if sig.action != EXIT then sig.action else if qty > 0 then SELL else BUY;
        match executor.Submit(Order(action, ResolveQty(sig), sig.refPrice))
        case Filled(f) => Some(f)
        case _ => None
    }

    /** All fills a run of signals books, in order. */
    function Trade(sigs: seq<Signal>): Tape {
      if sigs == [] then []
      else
        var tape, sig := Trade(sigs[..|sigs| - 1]), sigs[|sigs| - 1];
        match FillFor(sig, PositionOf(PostAll(tape), sig.instrument).qty)
        case None => tape
        case Some(f) => tape + [(sig.instrument, f)]
    }
  }

  /** The engine's handler around a shared book. */
  class OrderEngine {
    const desk: Desk
    const book: Book

    constructor (desk: Desk, book: Book)
      ensures this.desk == desk && this.book == book
    {
      this.desk, this.book := desk, book;
    }

    method OnSignal(sig: Signal) returns (fill: Option<Fill>)
      requires book.Valid()
      modifies book
      ensures book.Valid()
      ensures fill == desk.FillFor(sig, PositionOf(old(book.Abstract()), sig.instrument).qty)
      ensures fill == None ==> book.Abstract() == old(book.Abstract())
      ensures fill.Some? ==> fill.value.qty > 0
      ensures fill.Some? ==> book.Abstract() == Post(old(book.Abstract()), sig.instrument, fill.value)
      ensures fill.Some? ==> AskedFor(desk, sig, fill.value.qty)
      ensures fill.Some? ==>
                var before := PositionOf(old(book.Abstract()), sig.instrument).qty;
                Moved(sig.action, before, fill.value.qty, PositionOf(book.Abstract(), sig.instrument).qty)
    {
      ghost var before := PositionOf(book.Abstract(), sig.instrument);
      if sig.action == HOLD { return None; }
      var action := sig.action;
      if action == EXIT {
        if sig.instrument !in book.positions || book.positions[sig.instrument].qty == 0 { return None; }
        action := if book.positions[sig.instrument].qty > 0 then SELL else BUY;
      }
      var result := desk.executor.Submit(Order(action, desk.ResolveQty(sig), sig.refPrice));
      if !result.Filled? { return None; }
      FillBracket(desk.executor, Order(action, desk.ResolveQty(sig), sig.refPrice));
      DirectionLaw(desk, sig, before);
      var _ := book.ApplyFill(sig.instrument, result.fill);
      return Some(result.fill);
    }
  }

  // ---- which way a signal trades, how much, and when ----

  /** The quantity a signal asks for: a positive one in its metadata, otherwise the default. */
  predicate AskedFor(desk: Desk, sig: Signal, n: int) {
    && (sig.metaQty.Some? && sig.metaQty.value >= 1 ==> n == sig.metaQty.value)
    && (sig.metaQty == None || sig.metaQty.value < 1 ==> n == desk.defaultQty)
  }

  /** BUY raises the holding, SELL lowers it, EXIT moves it towards zero and past it if `n` is larger. */
  predicate Moved(action: Action, before: int, n: int, after: int) {
    match action
    case BUY => after - before == n
    case SELL => before - after == n
    case EXIT => (before > 0 && before - after == n) || (before < 0 && after - before == n)
    case HOLD => false
  }

  /** A booked signal moves its instrument's holding its own way, by the quantity it asks for. */
  lemma DirectionLaw(desk: Desk, sig: Signal, p: Position)
    requires desk.FillFor(sig, p.qty).Some?
    ensures var f := desk.FillFor(sig, p.qty).value;
      f.qty > 0 && AskedFor(desk, sig, f.qty) && Moved(sig.action, p.qty, f.qty, Apply(p, f).qty)
  {
    var action := if sig.action != EXIT then sig.action else if p.qty > 0 then SELL else BUY;
    FillBracket(desk.executor, Order(action, desk.ResolveQty(sig), sig.refPrice));
    AppliedQty(p, desk.FillFor(sig, p.qty).value);
    hide Apply, Executor.Submit;
  }

  /** The signal ends in a purchase. */
  predicate Buying(sig: Signal, held: int) { sig.action == BUY || (sig.action == EXIT && held < 0) }

  /** The price and fee conditions for trading `n` at the signal's reference price. */
  predicate Clears(ex: Executor, sig: Signal, held: int, n: int) {
    if Buying(sig, held) then
      n > 0 && ex.Paid(sig.refPrice) > 0.0 && ex.Charge(Gross(CeilTick(ex.Paid(sig.refPrice)), n)) >= -0.00005
    else SaleClears(ex, n, sig.refPrice)
  }

  /** Exactly these signals are booked: none that holds, exits nothing or has no price, all others that clear. */
  lemma SignalFillsIff(desk: Desk, sig: Signal, held: int, n: int)
    requires AskedFor(desk, sig, n)
    ensures desk.FillFor(sig, held).Some?
            <==> sig.action != HOLD && !(sig.action == EXIT && held == 0)
                 && sig.refPrice > 0.0 && Clears(desk.executor, sig, held, n)
  {
    assert n == desk.ResolveQty(sig);
    var action := if sig.action != EXIT then sig.action else if held > 0 then SELL else BUY;
    var order := Order(action, n, sig.refPrice);
    if action == BUY { BuyFillsIff(desk.executor, order); }
    if action == SELL { SaleFillsIff(desk.executor, order); }
    hide Executor.Submit, SaleClears, CeilTick;
  }

  // ---- what is held after a run ----

  function Asked(desk: Desk, sig: Signal): int {
    match sig.metaQty
    case Some(n) => if n >= 1 then n else desk.defaultQty
    case None => desk.defaultQty
  }

  /** The last of these signals was booked. */
  predicate LastBooked(desk: Desk, sigs: seq<Signal>)
    requires sigs != []
  {
    |desk.Trade(sigs)| > |desk.Trade(sigs[..|sigs| - 1])|
  }

  function HeldAfter(desk: Desk, sigs: seq<Signal>, x: string): int { PositionOf(PostAll(desk.Trade(sigs)), x).qty }

  /** The quantities asked for by the booked signals of one action for `x`. */
  function BookedQty(desk: Desk, sigs: seq<Signal>, x: string, action: Action): int {
    if sigs == [] then 0
    else
      var before, sig := sigs[..|sigs| - 1], sigs[|sigs| - 1];
      BookedQty(desk, before, x, action)
      + (if sig.instrument == x && sig.action == action && LastBooked(desk, sigs) then Asked(desk, sig) else 0)
  }

  /** What the booked EXITs for `x` have moved it by: down from a long holding, up from a short one. */
  function ExitMoves(desk: Desk, sigs: seq<Signal>, x: string): int {
    if sigs == [] then 0
    else
      var before, sig := sigs[..|sigs| - 1], sigs[|sigs| - 1];
      ExitMoves(desk, before, x)
      + (if sig.instrument == x && sig.action == EXIT && LastBooked(desk, sigs) then
           (if HeldAfter(desk, before, x) > 0 then -Asked(desk, sig) else Asked(desk, sig))
         else 0)
  }

  /** After any signals the holding is what was bought less what was sold, plus the moves of the EXITs. */
  lemma {:induction false} HoldingAddsUp(desk: Desk, sigs: seq<Signal>, x: string)
    ensures HeldAfter(desk, sigs, x)
         == BookedQty(desk, sigs, x, BUY) - BookedQty(desk, sigs, x, SELL) + ExitMoves(desk, sigs, x)
  {
    if sigs == [] {
    } else {
      hide HeldAfter, LastBooked, Asked, Desk.Trade, PostAll;
      var before, sig := sigs[..|sigs| - 1], sigs[|sigs| - 1];
      assert sigs == before + [sig];
      HoldingAddsUp(desk, before, x);
      SignalMoves(desk, before, sig, x);
    }
  }

  /** One more signal moves only its own instrument, and only when it is booked. */
  lemma SignalMoves(desk: Desk, before: seq<Signal>, sig: Signal, x: string)
    ensures var sigs := before + [sig];
      var was, now := HeldAfter(desk, before, x), HeldAfter(desk, sigs, x);
      if sig.instrument == x && LastBooked(desk, sigs) then Moved(sig.action, was, Asked(desk, sig), now)
      else now == was
  {
    hide Apply, Desk.FillFor;
    assert (before + [sig])[..|before|] == before;
    var tape := desk.Trade(before);
    var p := PositionOf(PostAll(tape), sig.instrument);
    if desk.FillFor(sig, p.qty).Some? {
      DirectionLaw(desk, sig, p);
      var f := desk.FillFor(sig, p.qty).value;
      assert (tape + [(sig.instrument, f)])[..|tape|] == tape;
    }
  }

  // ---- EXIT closes by the signal's quantity, not the position's ----

  /**
   A filled EXIT moves the position towards and possibly past zero by the resolved
   quantity: it leaves the book flat exactly when that quantity is the held one, and it
   turns the position around exactly when it is larger.
   */
  lemma ExitEffect(desk: Desk, sig: Signal, p: Position)
    requires sig.action == EXIT && p.qty != 0 && desk.FillFor(sig, p.qty).Some?
    ensures var f := desk.FillFor(sig, p.qty).value;
      && f.qty == desk.ResolveQty(sig) > 0
      && (ApplyExact(p, f).qty == 0 <==> desk.ResolveQty(sig) == AbsInt(p.qty))
      && ((p.qty > 0 && ApplyExact(p, f).qty < 0) || (p.qty < 0 && ApplyExact(p, f).qty > 0)
          <==> desk.ResolveQty(sig) > AbsInt(p.qty))
  {
    var action := if p.qty > 0 then SELL else BUY;
    FillBracket(desk.executor, Order(action, desk.ResolveQty(sig), sig.refPrice));
    hide NewAvg, DeltaRealized;
    QtyStep(p, desk.FillFor(sig, p.qty).value);
  }

  /** An EXIT that flips: one unit held, two named by the signal, one sold short afterwards. */
  lemma ExitFlips()
    ensures var desk, sig := Desk(FREE, 1), Signal("X", EXIT, Some(2), 100.0);
      var p := Position(1, 100.0, 0.0);
      desk.FillFor(sig, p.qty) == Some(Fill(S, 2, 100.0, 0.0)) && Apply(p, Fill(S, 2, 100.0, 0.0)).qty == -1
  {
    hide Executor.Submit, NewAvg, DeltaRealized;
    FreeFill(Order(SELL, 2, 100.0), 2000);
    var desk, sig := Desk(FREE, 1), Signal("X", EXIT, Some(2), 100.0);
    assert desk.executor.Submit(Order(SELL, desk.ResolveQty(sig), sig.refPrice)) == Filled(Fill(S, 2, 100.0, 0.0));
    AppliedQty(Position(1, 100.0, 0.0), Fill(S, 2, 100.0, 0.0));
    hide Apply;
  }

  // ---- no free profit ----

  predicate NeverBetterThan(f: Fill, p: real) {
    (f.side == B ==> f.price >= p) && (f.side == S ==> f.price <= p)
  }

  function TotalFees(fs: Fills): real {
    if fs == [] then 0.0 else TotalFees(fs[..|fs| - 1]) + fs[|fs| - 1].fees
  }

  /** Marked at the reference price, a position's profit and loss. */
  function MarkToMarket(p: Position, ref: real): real { p.realized + Value(p.qty, ref - p.avg) }

  /** Cash plus inventory at the reference price never exceeds minus the fees paid. */
  lemma {:induction false} CashNeverGains(fs: Fills, p: real)
    requires forall i :: 0 <= i < |fs| ==> NeverBetterThan(fs[i], p)
    ensures Cash(fs) + Value(NetQty(fs), p) <= -TotalFees(fs)
  {
    ValueZero(p);
    if fs == [] {
    } else {
      var before: Fills, f := fs[..|fs| - 1], fs[|fs| - 1];
      CashNeverGains(before, p);
      ValueSplit(NetQty(before), Signed(f), p);
      ValueMonotone(f.qty, if f.side == B then p else f.price, if f.side == B then f.price else p);
      ValueSign(f.qty, f.price); ValueSign(f.qty, p);
    }
    hide Value;
  }

  /** At a positive reference price `p` a buy does not snap below it, nor a sale above it. */
  predicate NeitherSideBetter(ex: Executor, p: real) {
    p > 0.0 ==>
      && SnapFill(ex.Slipped(Order(BUY, 1, p)), B) >= p
      && SnapFill(ex.Slipped(Order(SELL, 1, p)), S) <= p
  }

  /** No signal at reference price `p` can fill better than `p`. */
  ghost predicate NoBetterFill(desk: Desk, p: real) {
    forall sig: Signal, held: int :: sig.refPrice == p && desk.FillFor(sig, held).Some? ==>
      NeverBetterThan(desk.FillFor(sig, held).value, p)
  }

  /** Every signal for `x` refers to price `p`. */
  predicate AtPrice(sigs: seq<Signal>, x: string, p: real) {
    forall i :: 0 <= i < |sigs| && sigs[i].instrument == x ==> sigs[i].refPrice == p
  }

  /** Marked at `p`, the exact book of `x` has lost at least the fees. */
  ghost predicate NoProfit(desk: Desk, sigs: seq<Signal>, x: string, p: real) {
    var fs := FillsOf(desk.Trade(sigs), x);
    MarkToMarket(RunExact(FLAT, fs), p) <= -TotalFees(fs)
  }

  /** Every booked fill of `x` is no better than `p` when every signal for `x` refers to `p`. */
  lemma {:induction false} BookedFills(desk: Desk, sigs: seq<Signal>, x: string, p: real)
    requires NoBetterFill(desk, p) && AtPrice(sigs, x, p)
    ensures forall i :: 0 <= i < |FillsOf(desk.Trade(sigs), x)| ==> NeverBetterThan(FillsOf(desk.Trade(sigs), x)[i], p)
  {
    if sigs == [] {
    } else {
      var before, sig := sigs[..|sigs| - 1], sigs[|sigs| - 1];
      BookedFills(desk, before, x, p);
      var tape := desk.Trade(before);
      var held := PositionOf(PostAll(tape), sig.instrument).qty;
      if desk.FillFor(sig, held).Some? {
        assert (tape + [(sig.instrument, desk.FillFor(sig, held).value)])[..|tape|] == tape;
      }
    }
  }

  /** The two snapped prices decide for every quantity and position. */
  lemma SnapsDecide(desk: Desk, p: real)
    requires NeitherSideBetter(desk.executor, p)
    ensures NoBetterFill(desk, p)
  {
    forall sig: Signal, held: int | sig.refPrice == p && desk.FillFor(sig, held).Some?
      ensures NeverBetterThan(desk.FillFor(sig, held).value, p)
    {
      hide Executor.Submit, Executor.Slipped, SnapFill;
      var action := if sig.action != EXIT then sig.action else if held > 0 then SELL else BUY;
      FillBracket(desk.executor, Order(action, desk.ResolveQty(sig), p));
      FilledAbove(desk.executor, Order(action, desk.ResolveQty(sig), p));
      SlipIgnoresQty(desk.executor, action, desk.ResolveQty(sig), p);
    }
  }

  /** Nothing fills at a reference price that is not positive. */
  lemma FilledAbove(ex: Executor, order: Order)
    requires ex.Submit(order).Filled?
    ensures order.refPrice > 0.0
  {}

  lemma SlipIgnoresQty(ex: Executor, action: Action, qty: int, p: real)
    ensures ex.Slipped(Order(action, qty, p)) == ex.Slipped(Order(action, 1, p))
  {}

  /** Slippage that is not negative never favours the trader, at any price. */
  lemma UsualSlippage(ex: Executor, p: real)
    requires ex.slippageBps >= 0.0
    ensures NeitherSideBetter(ex, p)
  {
    if p <= 0.0 { return; }
    var buy, sell := Order(BUY, 1, p), Order(SELL, 1, p);
    SlippageDirection(ex, buy, Fill(B, 1, SnapFill(ex.Slipped(buy), B), 0.0));
    SlippageDirection(ex, sell, Fill(S, 1, SnapFill(ex.Slipped(sell), S), 0.0));
    hide Executor.Slipped;
  }

  /**
   Trading one instrument at one reference price at which neither side fills better than
   it cannot make money. In exact arithmetic the marked profit is at most minus the fees;
   the stored book exceeds that by no more than its rounding slack. A run that ends flat
   has realized a loss of at least the fees.
   */
  lemma NoFreeProfit(desk: Desk, sigs: seq<Signal>, x: string, p: real)
    requires NeitherSideBetter(desk.executor, p) && AtPrice(sigs, x, p)
    ensures var fs := FillsOf(desk.Trade(sigs), x);
      && NoProfit(desk, sigs, x, p)
      && (RunExact(FLAT, fs).qty == 0 ==> RunExact(FLAT, fs).realized <= -TotalFees(fs))
      && MarkToMarket(PositionOf(PostAll(desk.Trade(sigs)), x), p) <= -TotalFees(fs) + RoundingSlack(fs)
  {
    SnapsDecide(desk, p);
    BookedFills(desk, sigs, x, p);
    BookSeparates(desk.Trade(sigs), x);
    hide MarkToMarket, Run, RunExact, TotalFees, RoundingSlack, NeverBetterThan;
    FillsMakeNoProfit(FillsOf(desk.Trade(sigs), x), p);
  }

  /** No run at price `p` makes money exactly when no order at `p` fills better than `p`. */
  lemma NoFreeProfitIff(desk: Desk, x: string, p: real)
    ensures (forall sigs :: AtPrice(sigs, x, p) ==> NoProfit(desk, sigs, x, p)) <==> NoBetterFill(desk, p)
  {
    if NoBetterFill(desk, p) {
      forall sigs | AtPrice(sigs, x, p) ensures NoProfit(desk, sigs, x, p) {
        BookedFills(desk, sigs, x, p);
        hide MarkToMarket, RunExact, TotalFees, NeverBetterThan;
        FillsMakeNoProfit(FillsOf(desk.Trade(sigs), x), p);
      }
    }
    if forall sigs :: AtPrice(sigs, x, p) ==> NoProfit(desk, sigs, x, p) {
      hide NoProfit;
      forall sig: Signal, held: int | sig.refPrice == p && desk.FillFor(sig, held).Some?
        ensures NeverBetterThan(desk.FillFor(sig, held).value, p)
      {
        var action := if sig.action != EXIT then sig.action else if held > 0 then SELL else BUY;
        var plain := Signal(x, action, sig.metaQty, p);
        assert AtPrice([plain], x, p);
        assert desk.FillFor(plain, 0) == desk.FillFor(sig, held);
        BetterFillProfits(desk, plain);
      }
    }
  }

  /** One fill better than the reference is marked above minus its fees. */
  lemma BetterFillProfits(desk: Desk, sig: Signal)
    requires sig.action != EXIT && desk.FillFor(sig, 0).Some?
    ensures NoProfit(desk, [sig], sig.instrument, sig.refPrice)
            ==> NeverBetterThan(desk.FillFor(sig, 0).value, sig.refPrice)
  {
    var f := desk.FillFor(sig, 0).value;
    FillBracket(desk.executor, Order(sig.action, desk.ResolveQty(sig), sig.refPrice));
    hide MarkToMarket, NeverBetterThan, TotalFees, RunExact, Desk.FillFor, FillsOf;
    OneTrade(desk, sig);
    OneFillMarked(f, sig.refPrice);
  }

  lemma OneTrade(desk: Desk, sig: Signal)
    requires desk.FillFor(sig, 0).Some? && desk.FillFor(sig, 0).value.qty > 0
    ensures FillsOf(desk.Trade([sig]), sig.instrument) == [desk.FillFor(sig, 0).value]
  {
    hide Desk.FillFor;
    var f := desk.FillFor(sig, 0).value;
    assert [sig][..0] == [] && desk.Trade([]) == [] && PositionOf(PostAll([]), sig.instrument) == FLAT;
    var tape: Tape := [(sig.instrument, f)];
    assert desk.Trade([sig]) == tape;
    assert tape[..0] == [] && FillsOf([], sig.instrument) == [];
  }

  lemma OneFillMarked(f: Fill, p: real)
    requires f.qty > 0
    ensures MarkToMarket(RunExact(FLAT, [f]), p) <= -TotalFees([f]) <==> NeverBetterThan(f, p)
  {
    var fs: Fills := [f];
    assert fs[..0] == [];
    BlendNothing(0.0, f.price, f.qty);
    assert RunExact(FLAT, fs) == ApplyExact(FLAT, f) == Position(Signed(f), f.price, -f.fees);
    assert TotalFees(fs) == f.fees;
    hide RunExact, ApplyExact, TotalFees, Blend;
    ProductSign(f.qty as real, if f.side == B then f.price - p else p - f.price);
  }

  /** Negative slippage too small to reach the next tick: both sides still fill at the reference. */
  lemma TinyNegativeSlippage()
    ensures NeitherSideBetter(Executor(-1.0, 0.0, 0.0), 100.0)
  {
    TicksAreCents(2000);
    assert -1.0 / 10_000.0 == -0.0001;
    assert Executor(-1.0, 0.0, 0.0).Slipped(Order(BUY, 1, 100.0)) == 99.99;
    assert Executor(-1.0, 0.0, 0.0).Slipped(Order(SELL, 1, 100.0)) == 100.01;
    SnapWhole(2000);
  }

  const FAVOURABLE := Executor(-1000.0, 0.0, 0.0)

  /** Slippage in the trader's favour that does reach it: one buy is marked at a profit. */
  lemma FavourableSlippageProfits()
    ensures var desk, sig := Desk(FAVOURABLE, 1), Signal("X", BUY, None, 100.0);
      AtPrice([sig], "X", 100.0) && !NoProfit(desk, [sig], "X", 100.0)
  {
    hide NoProfit, Executor.Submit;
    var desk, sig := Desk(FAVOURABLE, 1), Signal("X", BUY, None, 100.0);
    BoughtBelow();
    assert desk.FillFor(sig, 0) == Some(Fill(B, 1, 90.0, 0.0));
    hide Desk.FillFor;
    BetterFillProfits(desk, sig);
  }

  lemma BoughtBelow()
    ensures FAVOURABLE.Submit(Order(BUY, 1, 100.0)) == Filled(Fill(B, 1, 90.0, 0.0))
  {
    hide Executor.Submit, Executor.Slipped;
    SlippedToNinety();
    NoFeeFill(FAVOURABLE, Order(BUY, 1, 100.0), 1800);
  }

  lemma SlippedToNinety()
    ensures FAVOURABLE.Slipped(Order(BUY, 1, 100.0)) == 90.0
  {
    assert FAVOURABLE.Slip() == -0.1;
  }

  lemma FillsMakeNoProfit(fs: Fills, p: real)
    requires forall i :: 0 <= i < |fs| ==> NeverBetterThan(fs[i], p)
    ensures MarkToMarket(RunExact(FLAT, fs), p) <= -TotalFees(fs)
    ensures RunExact(FLAT, fs).qty == 0 ==> RunExact(FLAT, fs).realized <= -TotalFees(fs)
    ensures MarkToMarket(Run(fs), p) <= -TotalFees(fs) + RoundingSlack(fs)
  {
    hide Value, NetCash, Cash, TotalFees, RoundingSlack, MarkToMarket, Run, RunExact, NeverBetterThan, NetQty;
    CashNeverGains(fs, p);
    ConservationExact(FLAT, fs);
    Conservation(fs);
    FlatCash();
    MarkedCash(RunExact(FLAT, fs), p);
    MarkedCash(Run(fs), p);
    if RunExact(FLAT, fs).qty == 0 { FlatMark(RunExact(FLAT, fs), p); }
  }

  lemma FlatMark(q: Position, ref: real)
    requires q.qty == 0
    ensures MarkToMarket(q, ref) == q.realized
  {
    ValueZero(ref - q.avg);
  }

  lemma MarkedCash(q: Position, ref: real)
    ensures MarkToMarket(q, ref) == NetCash(q) + Value(q.qty, ref)
  {
    ValueDiff(q.qty, ref, q.avg);
  }
}
