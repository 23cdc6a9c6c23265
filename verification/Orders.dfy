// The exchange's view of positions and open orders (botdca/exchange.py), shared by the
// protection check, the order plan and the live sync.
module Orders {
  datatype Side = Buy | Sell

  datatype OrderType = Limit | Market

  datatype OrderTarget = OrderTarget(qty: real, price: real)

  // What the sync derives an order's identity from: the take profit's cycle, quantity and price,
  // and for a DCA the level as well.
  datatype Intent =
    | TakeProfit(cycleId: string, target: OrderTarget)
    | Dca(cycleId: string, level: int, target: OrderTarget)

  // The digest identities of intents are as good as the intents themselves: injective, and told
  // apart by their retry attempt. Any other identity is just its text.
  datatype LinkId = Minted(intent: Intent, attempt: nat) | Text(text: string)

  datatype OpenOrder = OpenOrder(
    orderId: nat, linkId: LinkId, side: Side, orderType: OrderType, price: real, qty: real, reduceOnly: bool,
    partiallyFilled: bool)

  datatype Position = Position(side: Side, size: real, averageEntry: real)

  datatype Account = Account(equity: real, available: real)

  function RoleOf(intent: Intent): string {
    if intent.TakeProfit? then "tp" else "dca"
  }

  // The identity starts with the bot's prefix for the role.
  predicate IsBotOrder(order: OpenOrder, role: string) {
    match order.linkId
    case Minted(intent, _) => RoleOf(intent) == role
    case Text(text) => "botdca-" + role + "-" <= text
  }

  // The order carries the identity of the intent, in whatever attempt.
  predicate Bears(order: OpenOrder, intent: Intent) {
    order.linkId.Minted? && order.linkId.intent == intent
  }

  predicate IsOpen(position: Position) {
    position.size > 0.0
  }
}
