/**
 The order event and its wire format (events/schema.py).

 Amounts are exact reals; the wire carries them with two decimals, rounded half
 to even as Python formats a Decimal.
 */
module Schema {
  import opened Wrappers
  import opened Json

  const ORDER_CREATED := "order_created"
  const ORDER_CANCELLED := "order_cancelled"

  datatype OrderEvent = OrderEvent(
    eventId: string,
    orderId: string,
    eventType: string,
    amount: real,
    userId: int,
    eventTimeMs: int)
  {
    predicate Created() { eventType == ORDER_CREATED }

    predicate Cancelled() { eventType == ORDER_CANCELLED }

    predicate Known() { Created() || Cancelled() }

    /** Signed contribution to GMV; an unknown type raises. */
    function GmvDelta(): Result<real, WireError> {
      if Created() then Ok(amount)
      else if Cancelled() then Ok(-amount)
      else Err(UnknownType)
    }
  }

  datatype WireError = BadJson | MissingKey(key: string) | UnknownType | BadNumber

  // ------------------------------------------------------------------ amounts

  function Abs(a: real): real { if a < 0.0 then -a else a }

  /** The integer nearest to x, ties to even. */
  function RoundHalfEven(x: real): (n: nat)
    requires x >= 0.0
    ensures -0.5 <= x - n as real <= 0.5
    ensures x - n as real == 0.5 || x - n as real == -0.5 ==> n % 2 == 0
  {
    var f := x.Floor;
    var frac := x - f as real;
    if frac < 0.5 || (frac == 0.5 && f % 2 == 0) then f else f + 1
  }

  predicate WholeCents(a: real) { a * 100.0 == (a * 100.0).Floor as real }

  /** The amount a reader of the wire sees. */
  function OnWire(a: real): real {
    var cents := RoundHalfEven(Abs(a) * 100.0) as real / 100.0;
    if a < 0.0 then -cents else cents
  }

  lemma WholeCentsSurvive(a: real)
    ensures OnWire(a) == a <==> WholeCents(a)
  {
    var x := Abs(a) * 100.0;
    var n := RoundHalfEven(x);
    if WholeCents(a) {
      var z := (a * 100.0).Floor;
      var d := if a < 0.0 then -z - n else z - n;
      assert x - n as real == d as real;
      assert -1 < d < 1;
    }
    if OnWire(a) == a {
      assert a * 100.0 == (if a < 0.0 then -n else n as int) as real;
    }
  }

  function TwoDigits(c: nat): string
    requires c < 100
  {
    [DigitChar(c / 10), DigitChar(c % 10)]
  }

  /** f"{amount:.2f}" */
  function FormatAmount(a: real): string {
    var body := FormatCents(RoundHalfEven(Abs(a) * 100.0));
    if a < 0.0 then "-" + body else body
  }

  function FormatCents(c: nat): string {
    NatToString(c / 100) + "." + TwoDigits(c % 100)
  }

  function Pow10(n: nat): nat
    ensures Pow10(n) > 0
  {
    if n == 0 then 1 else 10 * Pow10(n - 1)
  }

  /** Digits, then optionally a point and more digits. */
  function ParseUnsigned(s: string): Option<real> {
    var n := DigitSpan(s);
    if n == |s| then
      (if n == 0 then None else Some(DigitsValue(s[..n]) as real))
    else if s[n] == '.' && AllDigits(s[n + 1..]) && |s| > 1 then
      Some(DigitsValue(s[..n] + s[n + 1..]) as real / Pow10(|s| - n - 1) as real)
    else None
  }

  /** Decimal(text), without exponents, underscores or special values. */
  function ParseDecimal(s: string): Option<real> {
    if |s| > 0 && (s[0] == '-' || s[0] == '+') then
      match ParseUnsigned(s[1..])
      case Some(r) => Some(if s[0] == '-' then -r else r)
      case None => None
    else ParseUnsigned(s)
  }

  lemma CentsDigits(c: nat)
    ensures DigitsValue(NatToString(c / 100) + TwoDigits(c % 100)) == c
  {
    var head, two := NatToString(c / 100), TwoDigits(c % 100);
    DigitsRoundTrip(c / 100);
    assert (head + two)[..|head| + 1] == head + [two[0]];
    assert (head + [two[0]])[..|head|] == head;
    assert DigitsValue(head + [two[0]]) == 10 * (c / 100) + c % 100 / 10;
    assert (head + two)[..|head + two| - 1] == head + [two[0]];
  }

  lemma CentsRoundTrip(c: nat)
    ensures ParseUnsigned(FormatCents(c)) == Some(c as real / 100.0)
  {
    var head, two := NatToString(c / 100), TwoDigits(c % 100);
    var s := FormatCents(c);
    assert s == head + ("." + two);
    DigitSpanExact(head, "." + two);
    CentsDigits(c);
    assert s[..|head|] == head && s[|head| + 1..] == two;
    assert Pow10(2) == 100;
  }

  lemma SignedParse(body: string, r: real)
    requires |body| > 0 && IsDigit(body[0]) && ParseUnsigned(body) == Some(r)
    ensures ParseDecimal(body) == Some(r) && ParseDecimal("-" + body) == Some(-r)
  {
    assert ("-" + body)[0] == '-' && ("-" + body)[1..] == body;
  }

  lemma AmountRoundTrip(a: real)
    ensures ParseDecimal(FormatAmount(a)) == Some(OnWire(a))
  {
    var cents := RoundHalfEven(Abs(a) * 100.0);
    CentsRoundTrip(cents);
    assert FormatCents(cents)[0] == NatToString(cents / 100)[0];
    SignedParse(FormatCents(cents), cents as real / 100.0);
  }

  // --------------------------------------------------------------- wire format

  function ToWire(e: OrderEvent): seq<Member> {
    [Member("event_id", Str(e.eventId)),
     Member("order_id", Str(e.orderId)),
     Member("event_type", Str(e.eventType)),
     Member("amount", Str(FormatAmount(e.amount))),
     Member("user_id", Int(e.userId)),
     Member("event_time_ms", Int(e.eventTimeMs))]
  }

  function ToJson(e: OrderEvent): string { Dumps(ToWire(e), ",", ":") }

  /** str(v) */
  function Text(v: Value): string {
    match v
    case Str(t) => t
    case Int(i) => IntToString(i)
  }

  /** int(v) */
  function ToInt(v: Value): Option<int> {
    match v
    case Str(t) => ParseInt(t)
    case Int(i) => Some(i)
  }

  /** Lookups in the order from_wire makes them, so the first failure is the one reported. */
  function FromWire(d: seq<Member>): Result<OrderEvent, WireError> {
    if Lookup(d, "event_type").None? then Err(MissingKey("event_type"))
    else if Lookup(d, "event_type").value != Str(ORDER_CREATED)
            && Lookup(d, "event_type").value != Str(ORDER_CANCELLED) then Err(UnknownType)
    else if Lookup(d, "event_id").None? then Err(MissingKey("event_id"))
    else if Lookup(d, "order_id").None? then Err(MissingKey("order_id"))
    else if Lookup(d, "amount").None? then Err(MissingKey("amount"))
    else if ParseDecimal(Text(Lookup(d, "amount").value)).None? then Err(BadNumber)
    else if Lookup(d, "user_id").None? then Err(MissingKey("user_id"))
    else if ToInt(Lookup(d, "user_id").value).None? then Err(BadNumber)
    else if Lookup(d, "event_time_ms").None? then Err(MissingKey("event_time_ms"))
    else if ToInt(Lookup(d, "event_time_ms").value).None? then Err(BadNumber)
    else
      Ok(OrderEvent(
           Text(Lookup(d, "event_id").value),
           Text(Lookup(d, "order_id").value),
           Text(Lookup(d, "event_type").value),
           ParseDecimal(Text(Lookup(d, "amount").value)).value,
           ToInt(Lookup(d, "user_id").value).value,
           ToInt(Lookup(d, "event_time_ms").value).value))
  }

  function FromJson(line: string): Result<OrderEvent, WireError> {
    match Loads(line)
    case Some(ms) => FromWire(DictOf(ms))
    case None => Err(BadJson)
  }

  /** A decoded event always has one of the two known types. */
  lemma DecodedIsKnown(line: string)
    ensures FromJson(line).Ok? ==> FromJson(line).value.Known()
  {
  }

  lemma {:induction false} LookupMember(d: seq<Member>, i: nat)
    requires DistinctKeys(d) && i < |d|
    ensures Lookup(d, d[i].key) == Some(d[i].val)
  {
    var r := IndexOf(d, d[i].key);
    assert r.Some? && (r.value < i || i < r.value || r.value == i);
  }

  lemma WireKeysDistinct(e: OrderEvent)
    ensures DistinctKeys(ToWire(e))
  {
    var k := ToWire(e);
    assert k[0].key[0] == 'e' && k[1].key[0] == 'o' && k[2].key[0] == 'e';
    assert k[3].key[0] == 'a' && k[4].key[0] == 'u' && k[5].key[0] == 'e';
    assert k[0].key[6] == 'i' && k[2].key[6] == 't' && k[5].key[6] == 't';
    assert k[2].key[7] == 'y' && k[5].key[7] == 'i';
  }

  /** The six members of the wire form, found by name. */
  predicate Carries(d: seq<Member>, e: OrderEvent) {
    && Lookup(d, "event_id") == Some(Str(e.eventId))
    && Lookup(d, "order_id") == Some(Str(e.orderId))
    && Lookup(d, "event_type") == Some(Str(e.eventType))
    && Lookup(d, "amount") == Some(Str(FormatAmount(e.amount)))
    && Lookup(d, "user_id") == Some(Int(e.userId))
    && Lookup(d, "event_time_ms") == Some(Int(e.eventTimeMs))
  }

  lemma WireCarries(e: OrderEvent)
    ensures Carries(ToWire(e), e)
  {
    WireKeysDistinct(e);
    LookupMember(ToWire(e), 0);
    LookupMember(ToWire(e), 1);
    LookupMember(ToWire(e), 2);
    LookupMember(ToWire(e), 3);
    LookupMember(ToWire(e), 4);
    LookupMember(ToWire(e), 5);
  }

  lemma CarriedIsRead(d: seq<Member>, e: OrderEvent)
    requires Carries(d, e)
    ensures FromWire(d) == if e.Known() then Ok(e.(amount := OnWire(e.amount))) else Err(UnknownType)
  {
    AmountRoundTrip(e.amount);
  }

  /** What a reader gets for any event a writer may print, known type or not. */
  lemma JsonRoundTrip(e: OrderEvent)
    ensures FromJson(ToJson(e)) ==
            if e.Known() then Ok(e.(amount := OnWire(e.amount))) else Err(UnknownType)
  {
    DumpsLoads(ToWire(e), ",", ":");
    WireKeysDistinct(e);
    DictOfDistinct(ToWire(e));
    WireCarries(e);
    CarriedIsRead(ToWire(e), e);
  }

  /** The event comes back unchanged exactly when its type is known and its amount is whole cents. */
  lemma JsonRoundTripExact(e: OrderEvent)
    ensures FromJson(ToJson(e)) == Ok(e) <==> e.Known() && WholeCents(e.amount)
  {
    JsonRoundTrip(e);
    WholeCentsSurvive(e.amount);
  }

  lemma JsonIsOneLine(e: OrderEvent)
    ensures Printable(ToJson(e))
    ensures |ToJson(e)| >= 2 && ToJson(e)[0] == '{' && ToJson(e)[|ToJson(e)| - 1] == '}'
  {
    DumpsPrintable(ToWire(e), ",", ":");
  }
}
