/**
 The order factory of `OrderService.CreateOrder`: five primitive fields are
 checked in a fixed order and the first failing check decides the error
 message; if every check passes a fresh `Pending` order is built.

 The fresh GUID and the creation time are parameters (`id`, `now`).
 */
module OrderService {
  import opened Models

  const SymbolRequired := "Symbol is required"
  const PriceNotPositive := "Price must be greater than 0"
  const QuantityNotPositive := "Quantity must be greater than 0"
  const InvalidType := "Invalid order type. Must be 'Limit' or 'Market'"
  const InvalidSide := "Invalid order side. Must be 'Buy' or 'Sell'"

  /** `char.IsWhiteSpace`: the Unicode space separators plus the control and line/paragraph separators .NET counts. */
  predicate IsWhiteSpace(c: char) {
    || '\U{0009}' <= c <= '\U{000D}'
    || c == '\U{0020}' || c == '\U{0085}' || c == '\U{00A0}' || c == '\U{1680}'
    || '\U{2000}' <= c <= '\U{200A}'
    || c == '\U{2028}' || c == '\U{2029}' || c == '\U{202F}' || c == '\U{205F}' || c == '\U{3000}'
  }

  /** `string.TrimStart()`: drops the leading white-space characters. */
  function TrimStart(s: string): string {
    if s != [] && IsWhiteSpace(s[0]) then TrimStart(s[1..]) else s
  }

  /** A string trims to nothing exactly when every character in it is white space. */
  lemma {:induction false} TrimStartEmpty(s: string)
    ensures TrimStart(s) == [] <==> forall i :: 0 <= i < |s| ==> IsWhiteSpace(s[i])
  {
    if s != [] && IsWhiteSpace(s[0]) {
      TrimStartEmpty(s[1..]);
      assert forall i :: 0 < i < |s| ==> s[i] == s[1..][i - 1];
    }
  }

  /**
   `string.IsNullOrWhiteSpace`: null, or nothing left once the white space is
   trimmed, which is how .NET documents it.
   */
  function IsNullOrWhiteSpace(s: Option<string>): (r: bool)
    ensures r <==> s.None? || TrimStart(s.value) == []
  {
    match s
    case None => true
    case Some(str) =>
      TrimStartEmpty(str);
      forall i :: 0 <= i < |str| ==> IsWhiteSpace(str[i])
  }

  /** ASCII upper-casing, the case folding used for enum names. */
  function UpperAscii(c: char): char {
    if 'a' <= c <= 'z' then (c as int - 32) as char else c
  }

  predicate EqualsIgnoreCase(a: string, b: string) {
    |a| == |b| && forall i :: 0 <= i < |a| ==> UpperAscii(a[i]) == UpperAscii(b[i])
  }

  function TypeName(t: OrderType): string {
    match t
    case Limit => "Limit"
    case Market => "Market"
  }

  function SideName(s: OrderSide): string {
    match s
    case Buy => "Buy"
    case Sell => "Sell"
  }

  /** `Enum.TryParse<OrderType>(s, ignoreCase: true, out _)`, restricted to name matching. */
  function ParseOrderType(s: Option<string>): (r: Option<OrderType>)
    ensures r.Some? <==> s.Some? && exists t :: EqualsIgnoreCase(s.value, TypeName(t))
    ensures r.Some? ==> EqualsIgnoreCase(s.value, TypeName(r.value))
  {
    if s.None? then None
    else if EqualsIgnoreCase(s.value, "Limit") then assert EqualsIgnoreCase(s.value, TypeName(Limit)); Some(Limit)
    else if EqualsIgnoreCase(s.value, "Market") then assert EqualsIgnoreCase(s.value, TypeName(Market)); Some(Market)
    else None
  }

  /** `Enum.TryParse<OrderSide>(s, ignoreCase: true, out _)`, restricted to name matching. */
  function ParseOrderSide(s: Option<string>): (r: Option<OrderSide>)
    ensures r.Some? <==> s.Some? && exists d :: EqualsIgnoreCase(s.value, SideName(d))
    ensures r.Some? ==> EqualsIgnoreCase(s.value, SideName(r.value))
  {
    if s.None? then None
    else if EqualsIgnoreCase(s.value, "Buy") then assert EqualsIgnoreCase(s.value, SideName(Buy)); Some(Buy)
    else if EqualsIgnoreCase(s.value, "Sell") then assert EqualsIgnoreCase(s.value, SideName(Sell)); Some(Sell)
    else None
  }

  /** Every casing of a member's name parses back to that member. */
  lemma ParseOrderTypeRoundTrip(t: OrderType, s: string)
    requires EqualsIgnoreCase(s, TypeName(t))
    ensures ParseOrderType(Some(s)) == Some(t)
  {
    if t == Market {
      assert UpperAscii(s[0]) == 'M';
    }
  }

  lemma ParseOrderSideRoundTrip(d: OrderSide, s: string)
    requires EqualsIgnoreCase(s, SideName(d))
    ensures ParseOrderSide(Some(s)) == Some(d)
  {
    if d == Sell {
      assert |s| == 4;
    }
  }

  /** The order built once validation has passed. */
  function NewOrder(id: nat, now: nat, symbol: string, price: real, quantity: real,
                    t: OrderType, d: OrderSide): (o: Order)
    requires 0.0 < quantity
    ensures WellFormed(o) && o.status == Pending && o.remaining == o.quantity
  {
    Order(id, symbol, price, quantity, t, d, Pending, quantity, now)
  }

  /** `OrderService.CreateOrder`. */
  function CreateOrder(symbol: Option<string>, price: real, quantity: real,
                       typeName: Option<string>, sideName: Option<string>,
                       id: nat, now: nat): (r: Result<Order>)
    // the first failing check, in the order symbol, price, quantity, type, side
    ensures IsNullOrWhiteSpace(symbol) ==> r == Error(SymbolRequired)
    ensures !IsNullOrWhiteSpace(symbol) && price <= 0.0 ==> r == Error(PriceNotPositive)
    ensures (!IsNullOrWhiteSpace(symbol) && price > 0.0 && quantity <= 0.0)
            ==> r == Error(QuantityNotPositive)
    ensures (!IsNullOrWhiteSpace(symbol) && price > 0.0 && quantity > 0.0
             && ParseOrderType(typeName).None?)
            ==> r == Error(InvalidType)
    ensures (!IsNullOrWhiteSpace(symbol) && price > 0.0 && quantity > 0.0
             && ParseOrderType(typeName).Some? && ParseOrderSide(sideName).None?)
            ==> r == Error(InvalidSide)
    // success exactly when every check passes, with the given fields and a fresh Pending state
    ensures r.Success? <==> !IsNullOrWhiteSpace(symbol) && price > 0.0 && quantity > 0.0
                            && ParseOrderType(typeName).Some? && ParseOrderSide(sideName).Some?
    ensures r.Success? ==>
              && Some(r.value.symbol) == symbol && r.value.price == price
              && r.value.quantity == quantity && r.value.remaining == quantity
              && r.value.status == Pending && r.value.id == id && r.value.timestamp == now
              && Some(r.value.orderType) == ParseOrderType(typeName)
              && Some(r.value.side) == ParseOrderSide(sideName)
              && WellFormed(r.value)
  {
    if IsNullOrWhiteSpace(symbol) then Error(SymbolRequired)
    else if price <= 0.0 then Error(PriceNotPositive)
    else if quantity <= 0.0 then Error(QuantityNotPositive)
    else match ParseOrderType(typeName)
      case None => Error(InvalidType)
      case Some(t) =>
        match ParseOrderSide(sideName)
        case None => Error(InvalidSide)
        case Some(d) => Success(NewOrder(id, now, symbol.value, price, quantity, t, d))
  }
}
