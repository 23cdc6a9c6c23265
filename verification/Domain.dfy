// Trading cycles and their derived values (botdca/domain.py).
module Domain {
  import opened Common

  datatype BotState = Paused | Idle | Opening | Active | Closing | Error

  datatype FillKind = InitialFill | DcaFill | RestoredFill

  datatype Fill = Fill(price: real, qty: real, kind: FillKind)

  // Drop in percent from the reference price, and size as a multiple of the previous order.
  datatype DcaStep = DcaStep(drop: real, multiplier: real)

  datatype BasketStatus = Flat | Open | MaxDcaReached

  function TotalQty(fills: seq<Fill>): real {
    if fills == [] then 0.0 else TotalQty(fills[..|fills| - 1]) + fills[|fills| - 1].qty
  }

  function Notional(fills: seq<Fill>): real {
    if fills == [] then 0.0
    else Notional(fills[..|fills| - 1]) + Product(fills[|fills| - 1].price, fills[|fills| - 1].qty)
  }

  // A price moved by a percentage.
  function Raised(price: real, percent: real): real {
    Product(price, 1.0 + percent / 100.0)
  }

  function Lowered(price: real, percent: real): real {
    Product(price, 1.0 - percent / 100.0)
  }

  datatype TradingCycle = TradingCycle(
    id: string,
    leverage: int,
    tpPercent: real,
    fills: seq<Fill>,
    dcaLevelOverride: Option<int>,
    lastOrderQtyOverride: Option<real>,
    maxDcaLevel: Option<int>)
  {
    function Qty(): real {
      TotalQty(fills)
    }

    function AverageEntry(): Option<real> {
      if Qty() <= 0.0 then None else Some(Notional(fills) / Qty())
    }

    function DcaLevel(): int {
      if dcaLevelOverride.Some? then dcaLevelOverride.value else MaxInt(0, |fills| - 1)
    }

    function LastOrderQty(): Option<real> {
      if lastOrderQtyOverride.Some? then lastOrderQtyOverride
      else if fills == [] then None
      else Some(fills[|fills| - 1].qty)
    }

    function TpPrice(): Option<real> {
      if AverageEntry().None? then None else Some(Raised(AverageEntry().value, tpPercent))
    }

    // False for a take-profit-only basket.
    predicate HasDcaLadder() {
      maxDcaLevel.None? || maxDcaLevel.value > 0
    }

    predicate AtMaxDca() {
      maxDcaLevel.Some? && HasDcaLadder() && DcaLevel() >= maxDcaLevel.value
    }

    function Status(): BasketStatus {
      if Qty() <= 0.0 then Flat else if AtMaxDca() then MaxDcaReached else Open
    }
  }

  lemma Appended(fills: seq<Fill>, fill: Fill)
    ensures TotalQty(fills + [fill]) == TotalQty(fills) + fill.qty
    ensures Notional(fills + [fill]) == Notional(fills) + Product(fill.price, fill.qty)
  {
    assert (fills + [fill])[..|fills|] == fills;
  }

  // One fill's basket has that fill's price as its average.
  lemma SingleFill(fill: Fill)
    requires fill.qty > 0.0
    ensures TotalQty([fill]) == fill.qty && Notional([fill]) == Product(fill.price, fill.qty)
    ensures Notional([fill]) / TotalQty([fill]) == fill.price
  {
    Appended([], fill);
    assert [] + [fill] == [fill];
    assert Product(fill.price, fill.qty) == Product(fill.qty, fill.price);
    Undo(fill.qty, fill.price);
  }
}
