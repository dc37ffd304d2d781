/**
 The shared data model of the Titan matching engine: orders, trades, the
 enumerations they use and the engine's `Result` wrapper.

 Decimal amounts are exact `real`s; GUIDs and timestamps are `nat`s handed in
 by the caller, since generating them is outside the model.
 */
module Models {

  /** A nullable reference (a C# `string?` coming from a request body). */
  datatype Option<+T> = None | Some(value: T)

  datatype OrderSide = Buy | Sell

  datatype OrderType = Limit | Market

  datatype OrderStatus = Pending | PartiallyFilled | Filled | Cancelled | Rejected

  /** Which side the resting (maker) order of a trade was on. */
  datatype TradeType = MakerBuy | MakerSell

  /** An order. `remaining` and `status` are the fields the engine changes. */
  datatype Order = Order(
    id: nat,
    symbol: string,
    price: real,
    quantity: real,
    orderType: OrderType,
    side: OrderSide,
    status: OrderStatus,
    remaining: real,
    timestamp: nat
  )

  datatype Trade = Trade(
    id: nat,
    buyOrderId: nat,
    sellOrderId: nat,
    symbol: string,
    price: real,
    quantity: real,
    timestamp: nat,
    tradeType: TradeType
  )

  /** The engine's success-or-message result. */
  datatype Result<+T> = Success(value: T) | Error(error: string)

  /** The side an incoming order trades against. */
  function Opposite(side: OrderSide): (r: OrderSide)
    ensures r != side
  {
    if side == Buy then Sell else Buy
  }

  function Min(a: real, b: real): (r: real)
    ensures r <= a && r <= b
    ensures r == a || r == b
  {
    if a <= b then a else b
  }

  /**
   The status an order should carry for its remaining quantity: the
   consistency rule between `remaining` and `status` that the engine keeps.
   */
  function ExpectedStatus(o: Order): OrderStatus {
    if o.remaining == 0.0 then Filled
    else if o.remaining < o.quantity then PartiallyFilled
    else Pending
  }

  /** An order as the factory builds it and the engine keeps it. */
  predicate WellFormed(o: Order) {
    && 0.0 < o.quantity
    && 0.0 <= o.remaining <= o.quantity
    && o.status == ExpectedStatus(o)
  }

  /** Sum of the remaining quantities of a sequence of orders. */
  function TotalRemaining(s: seq<Order>): real {
    if s == [] then 0.0 else s[0].remaining + TotalRemaining(s[1..])
  }

  /** Sum of the quantities of a sequence of trades. */
  function TotalTraded(ts: seq<Trade>): real {
    if ts == [] then 0.0 else ts[0].quantity + TotalTraded(ts[1..])
  }

  lemma {:induction false} TotalTradedAppend(a: seq<Trade>, b: seq<Trade>)
    ensures TotalTraded(a + b) == TotalTraded(a) + TotalTraded(b)
  {
    if a == [] {
      assert a + b == b;
    } else {
      assert (a + b)[1..] == a[1..] + b;
      TotalTradedAppend(a[1..], b);
    }
  }

  lemma {:induction false} TotalRemainingAppend(a: seq<Order>, b: seq<Order>)
    ensures TotalRemaining(a + b) == TotalRemaining(a) + TotalRemaining(b)
  {
    if a == [] {
      assert a + b == b;
    } else {
      assert (a + b)[1..] == a[1..] + b;
      TotalRemainingAppend(a[1..], b);
    }
  }

  /** Reads a status back from its name: the inverse of `StatusName`. */
  function StatusFromName(name: string): Option<OrderStatus> {
    if name == "Pending" then Some(Pending)
    else if name == "PartiallyFilled" then Some(PartiallyFilled)
    else if name == "Filled" then Some(Filled)
    else if name == "Cancelled" then Some(Cancelled)
    else if name == "Rejected" then Some(Rejected)
    else None
  }

  /** `OrderStatus.ToString()`: the enum member's name, from which the status can be read back. */
  function StatusName(s: OrderStatus): (r: string)
    ensures StatusFromName(r) == Some(s)
  {
    match s
    case Pending => "Pending"
    case PartiallyFilled =>
      assert "PartiallyFilled"[0] != "Pending"[1];
      "PartiallyFilled"
    case Filled =>
      assert "Filled"[0] != "Pending"[0] && "Filled"[0] != "PartiallyFilled"[0];
      "Filled"
    case Cancelled =>
      assert "Cancelled"[0] != "Pending"[0] && "Cancelled"[0] != "PartiallyFilled"[0] && "Cancelled"[0] != "Filled"[0];
      "Cancelled"
    case Rejected =>
      assert "Rejected"[0] != "Pending"[0] && "Rejected"[0] != "PartiallyFilled"[0];
      assert "Rejected"[0] != "Filled"[0] && "Rejected"[0] != "Cancelled"[0];
      "Rejected"
  }

  /** Reads a trade type back from its name: the inverse of `TradeTypeName`. */
  function TradeTypeFromName(name: string): Option<TradeType> {
    if name == "MakerBuy" then Some(MakerBuy)
    else if name == "MakerSell" then Some(MakerSell)
    else None
  }

  /** `TradeType.ToString()`: the enum member's name, from which the type can be read back. */
  function TradeTypeName(t: TradeType): (r: string)
    ensures TradeTypeFromName(r) == Some(t)
  {
    match t
    case MakerBuy => "MakerBuy"
    case MakerSell =>
      assert "MakerSell"[5] != "MakerBuy"[5];
      "MakerSell"
  }
}
