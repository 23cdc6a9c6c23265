// The position-protection check (botdca/protection.py).
module Protection {
  import opened Common
  import opened Orders

  datatype Status = NotApplicable | Protected | Repaired | Missing | Ambiguous

  datatype Assessment = Assessment(status: Status, protectedQty: real, restingTpOrders: nat)

  const ABSOLUTE_TOLERANCE: real := 0.000000001
  const RELATIVE_TOLERANCE: real := 0.000001

  predicate IsBotTakeProfit(order: OpenOrder) {
    IsBotOrder(order, "tp") && order.side == Sell && order.reduceOnly
  }

  function TakeProfits(orders: seq<OpenOrder>): seq<OpenOrder> {
    if orders == [] then []
    else
      TakeProfits(orders[..|orders| - 1])
      + if IsBotTakeProfit(orders[|orders| - 1]) then [orders[|orders| - 1]] else []
  }

  function TotalOrderQty(orders: seq<OpenOrder>): real {
    if orders == [] then 0.0 else TotalOrderQty(orders[..|orders| - 1]) + orders[|orders| - 1].qty
  }

  function Tolerance(qty: real): real {
    Max(ABSOLUTE_TOLERANCE, Product(Abs(qty), RELATIVE_TOLERANCE))
  }

  function AssessProtection(positionQty: real, orders: seq<OpenOrder>, expectedQty: Option<real>): Assessment {
    if positionQty <= 0.0 then Assessment(NotApplicable, 0.0, 0)
    else
      var tps := TakeProfits(orders);
      var protectedQty := TotalOrderQty(tps);
      if tps == [] then Assessment(Missing, 0.0, 0)
      else if |tps| > 1 then Assessment(Ambiguous, protectedQty, |tps|)
      else
        var target := if expectedQty.Some? then expectedQty.value else positionQty;
        if Abs(protectedQty - target) > Tolerance(target) then Assessment(Missing, protectedQty, |tps|)
        else if protectedQty < positionQty - Tolerance(positionQty) then Assessment(Missing, protectedQty, |tps|)
        else Assessment(Protected, protectedQty, |tps|)
  }

  lemma {:induction false} OnlyTakeProfit(orders: seq<OpenOrder>, k: nat)
    requires k < |orders| && IsBotTakeProfit(orders[k])
    requires forall i | 0 <= i < |orders| && i != k :: !IsBotTakeProfit(orders[i])
    ensures TakeProfits(orders) == [orders[k]] && TotalOrderQty(TakeProfits(orders)) == orders[k].qty
  {
    var n := |orders| - 1;
    if k == n {
      NoTakeProfit(orders[..n]);
      assert TakeProfits(orders) == [orders[k]];
    } else {
      OnlyTakeProfit(orders[..n], k);
    }
    OneOrderQty(orders[k]);
  }

  lemma OneOrderQty(order: OpenOrder)
    ensures TotalOrderQty([order]) == order.qty
  {
    assert [order][..0] == [];
  }

  lemma NoTakeProfit(orders: seq<OpenOrder>)
    requires forall i | 0 <= i < |orders| :: !IsBotTakeProfit(orders[i])
    ensures TakeProfits(orders) == []
  {
  }

  // Among any other orders, a single take profit of the planned quantity is judged protective
  // exactly when the plan leaves no more of the position uncovered than the tolerance.
  lemma {:induction false} SoleTakeProfitProtectsExactly(positionQty: real, orders: seq<OpenOrder>, k: nat,
                                                         planned: real)
    requires positionQty > 0.0
    requires k < |orders| && IsBotTakeProfit(orders[k]) && orders[k].qty == planned
    requires forall i | 0 <= i < |orders| && i != k :: !IsBotTakeProfit(orders[i])
    ensures AssessProtection(positionQty, orders, Some(planned)).status == Protected
            <==> positionQty - planned <= Tolerance(positionQty)
    ensures AssessProtection(positionQty, orders, Some(planned)).status != Protected
            ==> AssessProtection(positionQty, orders, Some(planned)).status == Missing
  {
    OnlyTakeProfit(orders, k);
  }

  // ---------------------------------------------------------------- the assessment, field by field

  // A resting exit of the bot.
  predicate ExitAt(orders: seq<OpenOrder>, k: int) {
    0 <= k < |orders| && IsBotOrder(orders[k], "tp") && orders[k].side == Sell && orders[k].reduceOnly
  }

  ghost predicate TwoExits(orders: seq<OpenOrder>) {
    exists i, j :: i < j && ExitAt(orders, i) && ExitAt(orders, j)
  }

  // The k-th order is the only exit.
  ghost predicate SoleExit(orders: seq<OpenOrder>, k: int) {
    ExitAt(orders, k) && forall i | ExitAt(orders, i) :: i == k
  }

  // The quantity is the expected one and leaves none of the position uncovered, up to a millionth of
  // either, or a billionth of a unit when that is more.
  predicate Covers(qty: real, positionQty: real, expectedQty: real) {
    && (Abs(qty - expectedQty) <= 0.000000001 || Abs(qty - expectedQty) <= Abs(expectedQty) * 0.000001)
    && (positionQty - qty <= 0.000000001 || positionQty - qty <= Abs(positionQty) * 0.000001)
  }

  // An open position is ambiguous with two exits, protected with a single one that covers it, and
  // missing its protection otherwise.
  lemma {:induction false} AssessedExactly(positionQty: real, orders: seq<OpenOrder>, expectedQty: Option<real>)
    ensures var target := if expectedQty.Some? then expectedQty.value else positionQty;
            var status := AssessProtection(positionQty, orders, expectedQty).status;
            && (status == NotApplicable <==> positionQty <= 0.0)
            && (status == Ambiguous <==> positionQty > 0.0 && TwoExits(orders))
            && (status == Protected
                <==> positionQty > 0.0 && exists k :: SoleExit(orders, k) && Covers(orders[k].qty, positionQty, target))
            && status != Repaired
  {
    var tps := TakeProfits(orders);
    var ks := TakeProfitPlaces(orders);
    if |tps| == 0 {
      forall k ensures !ExitAt(orders, k) {
      }
    } else if |tps| == 1 {
      OneOrderQty(orders[ks[0]]);
      assert tps == [orders[ks[0]]] && SoleExit(orders, ks[0]);
    } else {
      assert ExitAt(orders, ks[0]) && ExitAt(orders, ks[1]);
    }
  }

  lemma {:induction false} TakeProfitPlaces(orders: seq<OpenOrder>) returns (ks: seq<nat>)
    ensures |ks| == |TakeProfits(orders)|
    ensures forall i | 0 <= i < |ks| :: ExitAt(orders, ks[i]) && TakeProfits(orders)[i] == orders[ks[i]]
    ensures forall i, j | 0 <= i < j < |ks| :: ks[i] < ks[j]
    ensures forall k | ExitAt(orders, k) :: k in ks
  {
    ks := [];
    if orders != [] {
      var last := |orders| - 1;
      var front := TakeProfitPlaces(orders[..last]);
      ks := front + if ExitAt(orders, last) then [last] else [];
      forall k | ExitAt(orders, k) ensures k in ks {
        if k < last {
          assert ExitAt(orders[..last], k);
        }
      }
    }
  }
}
