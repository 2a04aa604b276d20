/**
 The texts themselves: what the wire, the ground-truth file and the snapshot properties
 say, character by character, and what a type's text means for the sign of an amount
 (events/schema.py, lake/landing_job.py; RFC 8259, sections 4 to 7).
 */
module WireText {
  import opened GroundTruth
  import opened Json
  import opened Protocol
  import opened Rows
  import opened Schema
  import opened Summary
  import opened Wrappers

  // ------------------------------------------------------------ types and signs

  /** The text of the type decides the sign, in the oracle and in both SQL expressions. */
  lemma SignOfType(e: OrderEvent)
    ensures e.eventType == "order_created" ==> e.GmvDelta() == Ok(e.amount) && SqlDelta(e) == e.amount
    ensures e.eventType == "order_cancelled" ==> e.GmvDelta() == Ok(-e.amount) && SqlDelta(e) == -e.amount
    ensures e.eventType != "order_created" && e.eventType != "order_cancelled" ==>
              e.GmvDelta() == Err(UnknownType) && SqlDelta(e) == -e.amount
  {
  }

  /** The amounts of the rows whose type reads so. */
  function TextSum(rows: Rows, kind: string): real {
    if |rows| == 0 then 0.0
    else
      TextSum(rows[..|rows| - 1], kind)
      + (if rows[|rows| - 1].eventType == kind then rows[|rows| - 1].amount else 0.0)
  }

  predicate TwoKinds(rows: Rows) {
    forall i | 0 <= i < |rows| :: rows[i].eventType == "order_created" || rows[i].eventType == "order_cancelled"
  }

  /** GMV, in the oracle and in SQL: what reads "order_created" less what reads "order_cancelled". */
  lemma {:induction false} GmvByText(rows: Rows)
    ensures TwoKinds(rows) ==>
              && SignedSum(rows) == TextSum(rows, "order_created") - TextSum(rows, "order_cancelled")
              && DeltaSum(rows) == Ok(TextSum(rows, "order_created") - TextSum(rows, "order_cancelled"))
    ensures !TwoKinds(rows) ==> DeltaSum(rows).Err?
  {
    if |rows| > 0 {
      var init, last := rows[..|rows| - 1], rows[|rows| - 1];
      GmvByText(init);
      SignOfType(last);
      assert TwoKinds(rows)
        <==> TwoKinds(init) && (last.eventType == "order_created" || last.eventType == "order_cancelled");
    }
  }

  /** What from_wire makes of a dictionary with the six members, by the text of its type. */
  lemma DecodedByType(d: seq<Member>, id: Value, order: Value, kind: Value, amount: Value, user: Value, time: Value)
    requires Lookup(d, "event_id") == Some(id) && Lookup(d, "order_id") == Some(order)
    requires Lookup(d, "event_type") == Some(kind) && Lookup(d, "amount") == Some(amount)
    requires Lookup(d, "user_id") == Some(user) && Lookup(d, "event_time_ms") == Some(time)
    ensures FromWire(d).Ok?
            <==> (kind == Str("order_created") || kind == Str("order_cancelled"))
                 && ParseDecimal(Text(amount)).Some? && ToInt(user).Some? && ToInt(time).Some?
    ensures FromWire(d).Ok? ==>
              var e := FromWire(d).value;
              && e == OrderEvent(Text(id), Text(order), kind.s, ParseDecimal(Text(amount)).value,
                                 ToInt(user).value, ToInt(time).value)
              && e.GmvDelta() == Ok(if kind == Str("order_created") then e.amount else -e.amount)
    ensures kind != Str("order_created") && kind != Str("order_cancelled") ==> FromWire(d) == Err(UnknownType)
  {
  }

  /** A created order on the wire counts up by what its amount text says, a cancelled one down. */
  lemma WrittenSign(d: seq<Member>, a: real, id: Value, order: Value, user: Value, time: Value)
    requires Lookup(d, "event_id") == Some(id) && Lookup(d, "order_id") == Some(order)
    requires Lookup(d, "amount") == Some(Str(FormatAmount(a)))
    requires Lookup(d, "user_id") == Some(user) && Lookup(d, "event_time_ms") == Some(time)
    requires ToInt(user).Some? && ToInt(time).Some?
    ensures Lookup(d, "event_type") == Some(Str("order_created")) ==>
              FromWire(d).Ok? && FromWire(d).value.GmvDelta() == Ok(OnWire(a))
    ensures Lookup(d, "event_type") == Some(Str("order_cancelled")) ==>
              FromWire(d).Ok? && FromWire(d).value.GmvDelta() == Ok(-OnWire(a))
  {
    AmountRoundTrip(a);
    if Lookup(d, "event_type") == Some(Str("order_created")) {
      DecodedByType(d, id, order, Str("order_created"), Str(FormatAmount(a)), user, time);
    } else if Lookup(d, "event_type") == Some(Str("order_cancelled")) {
      DecodedByType(d, id, order, Str("order_cancelled"), Str(FormatAmount(a)), user, time);
    }
  }

  // -------------------------------------------------------------------- numbers

  lemma DigitText(n: int)
    requires n >= 0
    ensures n < 10 ==> NatToString(n) == ["0123456789"[n]]
    ensures n >= 10 ==> NatToString(n) == NatToString(n / 10) + ["0123456789"[n % 10]]
    ensures IntToString(n) == NatToString(n)
    ensures n > 0 ==> IntToString(-n) == "-" + NatToString(n)
  {
    DigitCharText(n % 10);
  }

  lemma DigitCharText(d: nat)
    requires d < 10
    ensures DigitChar(d) == "0123456789"[d]
  {
  }

  lemma CentDigits(c: nat)
    ensures c % 100 / 10 == c / 10 % 10 && c % 100 % 10 == c % 10
  {
  }

  lemma CentsText(c: nat)
    ensures FormatCents(c) == NatToString(c / 100) + "." + ["0123456789"[c / 10 % 10], "0123456789"[c % 10]]
  {
    CentDigits(c);
    DigitCharText(c / 10 % 10);
    DigitCharText(c % 10);
  }

  /** Whole units, a point, two digits; the sign in front. */
  lemma AmountText(a: real)
    ensures a < 0.0 ==> FormatAmount(a) == "-" + FormatCents(RoundHalfEven(-a * 100.0))
    ensures a >= 0.0 ==> FormatAmount(a) == FormatCents(RoundHalfEven(a * 100.0))
  {
  }

  // -------------------------------------------------------------------- strings

  function Hex4(n: nat): string
    requires n < 0x10000
  {
    var digits := "0123456789abcdef";
    [digits[n / 4096], digits[n / 256 % 16], digits[n / 16 % 16], digits[n % 16]]
  }

  lemma HexCharText(d: nat)
    requires d < 16
    ensures HexChar(d) == "0123456789abcdef"[d]
  {
  }

  lemma UEscapeText(n: nat)
    requires n < 0x10000
    ensures UEscape(n) == "\\u" + Hex4(n)
  {
    HexCharText(n / 4096);
    HexCharText(n / 256 % 16);
    HexCharText(n / 16 % 16);
    HexCharText(n % 16);
    assert n / 16 / 16 / 16 == n / 4096 && n / 16 / 16 == n / 256;
  }

  /** Which characters stand for themselves, and how each other one is escaped. */
  lemma EscapeText(c: char)
    ensures c == '"' ==> EscapeChar(c) == "\\\""
    ensures c == '\\' ==> EscapeChar(c) == "\\\\"
    ensures c == '\n' ==> EscapeChar(c) == "\\n"
    ensures c == '\r' ==> EscapeChar(c) == "\\r"
    ensures c == '\t' ==> EscapeChar(c) == "\\t"
    ensures c as int == 8 ==> EscapeChar(c) == "\\b"
    ensures c as int == 12 ==> EscapeChar(c) == "\\f"
    ensures ' ' <= c <= '~' && c != '"' && c != '\\' ==> EscapeChar(c) == [c]
    ensures (c < ' ' && c !in "\n\r\t" && c as int != 8 && c as int != 12) || 127 <= c as int < 0x10000 ==>
              EscapeChar(c) == "\\u" + Hex4(c as int)
    ensures c as int >= 0x10000 ==>
              EscapeChar(c) == "\\u" + Hex4(0xD800 + (c as int - 0x10000) / 1024)
                               + "\\u" + Hex4(0xDC00 + (c as int - 0x10000) % 1024)
  {
    if c as int < 0x10000 {
      UEscapeText(c as int);
    } else {
      UEscapeText(HighSurrogate(c as int));
      UEscapeText(LowSurrogate(c as int));
      assert EscapeChar(c) == "\\u" + Hex4(HighSurrogate(c as int)) + ("\\u" + Hex4(LowSurrogate(c as int)));
    }
  }

  predicate Plain(t: string) { forall c | c in t :: ' ' <= c <= '~' && c != '"' && c != '\\' }

  /** Plain text is quoted as it stands. */
  lemma {:induction false} PlainQuote(t: string)
    requires Plain(t)
    ensures EscapeAll(t) == t && Quote(t) == "\"" + t + "\""
  {
    if |t| == 0 {
      assert t == "";
    } else {
      var rest := t[1..];
      assert forall c | c in rest :: c in t;
      PlainQuote(rest);
      assert t[0] in t;
      EscapeText(t[0]);
      assert t == [t[0]] + rest;
    }
  }

  // --------------------------------------------------------------------- objects

  function Join(parts: seq<string>, sep: string): string {
    if |parts| == 0 then "" else if |parts| == 1 then parts[0] else parts[0] + sep + Join(parts[1..], sep)
  }

  function Field(key: string, value: string, colon: string): string { "\"" + key + "\"" + colon + value }

  function Quoted(t: string): string { "\"" + EscapeAll(t) + "\"" }

  /** A key in quotes, the separator, and the value: a quoted string or a bare integer. */
  function MemberText(m: Member, colon: string): string {
    Field(m.key, match m.val case Str(t) => Quoted(t) case Int(i) => IntToString(i), colon)
  }

  function MemberTexts(ms: seq<Member>, colon: string): (parts: seq<string>)
    ensures |parts| == |ms| && forall i | 0 <= i < |ms| :: parts[i] == MemberText(ms[i], colon)
  {
    seq(|ms|, i requires 0 <= i < |ms| => MemberText(ms[i], colon))
  }

  lemma PlainMember(m: Member, colon: string)
    requires Plain(m.key)
    ensures PrintMember(m, colon) == MemberText(m, colon)
  {
    PlainQuote(m.key);
  }

  lemma {:induction false} MembersText(ms: seq<Member>, comma: string, colon: string)
    requires forall i | 0 <= i < |ms| :: Plain(ms[i].key)
    ensures PrintMembers(ms, comma, colon) == Join(MemberTexts(ms, colon), comma)
  {
    if |ms| > 0 {
      PlainMember(ms[0], colon);
      var rest := ms[1..];
      assert forall i | 0 <= i < |rest| :: rest[i] == ms[i + 1];
      MembersText(rest, comma, colon);
      assert MemberTexts(ms, colon)[1..] == MemberTexts(rest, colon);
    }
  }

  /** An object with plain keys: its members' texts in order between braces. */
  lemma ObjectText(ms: seq<Member>, comma: string, colon: string)
    requires forall i | 0 <= i < |ms| :: Plain(ms[i].key)
    ensures Dumps(ms, comma, colon) == "{" + Join(MemberTexts(ms, colon), comma) + "}"
  {
    MembersText(ms, comma, colon);
  }

  lemma PlainKeys(e: OrderEvent)
    ensures forall i | 0 <= i < 6 :: Plain(ToWire(e)[i].key)
  {
  }

  /** The line of an event: its six fields by name, in this order, compactly. */
  lemma EventText(e: OrderEvent)
    ensures ToJson(e)
         == "{" + Join([Field("event_id", Quoted(e.eventId), ":"),
                        Field("order_id", Quoted(e.orderId), ":"),
                        Field("event_type", Quoted(e.eventType), ":"),
                        Field("amount", Quoted(FormatAmount(e.amount)), ":"),
                        Field("user_id", IntToString(e.userId), ":"),
                        Field("event_time_ms", IntToString(e.eventTimeMs), ":")], ",") + "}"
  {
    PlainKeys(e);
    ObjectText(ToWire(e), ",", ":");
    FieldTexts(e);
  }

  lemma FieldTexts(e: OrderEvent)
    ensures MemberTexts(ToWire(e), ":")
         == [Field("event_id", Quoted(e.eventId), ":"),
             Field("order_id", Quoted(e.orderId), ":"),
             Field("event_type", Quoted(e.eventType), ":"),
             Field("amount", Quoted(FormatAmount(e.amount)), ":"),
             Field("user_id", IntToString(e.userId), ":"),
             Field("event_time_ms", IntToString(e.eventTimeMs), ":")]
  {
  }

  // ------------------------------------------------------------------------ lines

  /** One more event is one more line. */
  lemma FileGrows(events: Rows, e: OrderEvent)
    ensures FileText([]) == ""
    ensures FileText(events + [e]) == FileText(events) + (ToJson(e) + "\n")
  {
    UnlinesSnoc(JsonLines(events), ToJson(e));
    assert (events + [e])[..|events|] == events;
  }

  /** Lines of nothing but whitespace are read as if they were not there, wherever they are. */
  lemma {:induction false} BlankLinesSkipped(a: seq<string>, blank: string, b: seq<string>)
    requires forall c | c in blank :: c in " \t\n\r"
    ensures DecodeLines(a + [blank] + b) == DecodeLines(a + b)
  {
    if |b| == 0 {
      BlankStrips(blank);
      assert (a + [blank] + b)[..|a|] == a && a + b == a && a + [blank] + b == a + [blank];
    } else {
      var n := |b| - 1;
      BlankLinesSkipped(a, blank, b[..n]);
      assert (a + [blank] + b)[..|a| + 1 + n] == a + [blank] + b[..n];
      assert (a + b)[..|a| + n] == a + b[..n];
    }
  }

  lemma {:induction false} BlankStrips(blank: string)
    requires forall c | c in blank :: c in " \t\n\r"
    ensures Strip(blank) == ""
  {
    if |blank| > 0 {
      assert blank[0] in blank;
      assert forall c | c in blank[1..] :: c in blank;
      BlankStrips(blank[1..]);
    }
  }

  /** Whitespace around a line does not matter. */
  lemma {:induction false} SurroundingSpace(before: string, line: string, behind: string)
    requires forall c | c in before + behind :: c in " \t\n\r"
    requires |line| > 0 && '!' <= line[0] <= '~' && '!' <= line[|line| - 1] <= '~'
    ensures Strip(before + line + behind) == line
    decreases |before| + |behind|
  {
    var s := before + line + behind;
    if |before| > 0 {
      assert before[0] in before + behind && s[0] == before[0];
      assert s[1..] == before[1..] + line + behind;
      assert forall c | c in before[1..] + behind :: c in before + behind;
      SurroundingSpace(before[1..], line, behind);
    } else if |behind| > 0 {
      var n := |behind| - 1;
      assert behind[n] in before + behind && s[|s| - 1] == behind[n] && s[0] == line[0];
      assert s[..|s| - 1] == before + line + behind[..n];
      assert forall c | c in before + behind[..n] :: c in before + behind;
      SurroundingSpace(before, line, behind[..n]);
    } else {
      assert s == line;
    }
  }

  // ------------------------------------------------------------ snapshot properties

  /** The names and texts a commit stamps. */
  lemma StampText(st: ResumeState, lateness: int, batchCount: nat)
    ensures var props := Stamp(st, lateness, batchCount);
            && props.Keys == {"streaming-lab.kafka.offsets", "streaming-lab.watermark.event_time_ms",
                              "streaming-lab.watermark.lateness_window_ms",
                              "streaming-lab.watermark.per_partition_max_ms",
                              "streaming-lab.batch.event_count", "streaming-lab.commit.seq"}
            && props["streaming-lab.kafka.offsets"] == PrintIntMap(st.offsets)
            && props["streaming-lab.watermark.event_time_ms"] == IntToString(st.watermarkT)
            && props["streaming-lab.watermark.lateness_window_ms"] == IntToString(lateness)
            && props["streaming-lab.watermark.per_partition_max_ms"] == PrintIntMap(st.perPartitionMax)
            && props["streaming-lab.batch.event_count"] == IntToString(batchCount)
            && props["streaming-lab.commit.seq"] == IntToString(st.commitSeq)
  {
    KeysDiffer();
  }

  /** The property the seam takes T from. */
  lemma PublishedText(lake: Lake)
    ensures var key := "streaming-lab.watermark.event_time_ms";
            && (key !in lake.CurrentProps() ==> PublishedT(lake) == 0)
            && (key in lake.CurrentProps() && ParseInt(lake.CurrentProps()[key]).Some? ==>
                  PublishedT(lake) == ParseInt(lake.CurrentProps()[key]).value)
  {
  }

  function IntFields(es: seq<Item>): (parts: seq<string>)
    ensures |parts| == |es|
    ensures forall i | 0 <= i < |es| :: parts[i] == Field(IntToString(es[i].0), IntToString(es[i].1), ": ")
  {
    seq(|es|, i requires 0 <= i < |es| => Field(IntToString(es[i].0), IntToString(es[i].1), ": "))
  }

  lemma IntMemberTexts(es: seq<Item>)
    ensures MemberTexts(IntMembers(es), ": ") == IntFields(es)
  {
  }

  lemma PlainIntKeys(es: seq<Item>)
    ensures forall i | 0 <= i < |es| :: Plain(IntMembers(es)[i].key)
  {
    forall i | 0 <= i < |es|
      ensures Plain(IntMembers(es)[i].key)
    {
      PlainInt(es[i].0);
    }
  }

  /** An integer map as text: integer keys in quotes, bare values, Python's default separators. */
  lemma IntMapText(m: map<int, int>)
    ensures PrintIntMap(m) == "{" + Join(IntFields(Entries(m)), ", ") + "}"
  {
    PlainIntKeys(Entries(m));
    ObjectText(IntMembers(Entries(m)), ", ", ": ");
    IntMemberTexts(Entries(m));
  }

  lemma PlainInt(i: int)
    ensures Plain(IntToString(i))
  {
    assert AllDigits(NatToString(if i < 0 then -i else i));
  }
}
