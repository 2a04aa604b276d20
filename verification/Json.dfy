/**
 The part of JSON (RFC 8259) that the repository writes and reads back: one flat
 object whose values are strings or integers.

 Printing follows Python's json.dumps with ensure_ascii left on, so every
 character outside ' '..'~' becomes a \uXXXX escape, and characters beyond the
 basic plane become a surrogate pair. Parsing follows json.loads on that
 fragment; text outside the fragment is rejected.
 */
module Json {
  import opened Wrappers

  datatype Value = Str(s: string) | Int(i: int)

  datatype Member = Member(key: string, val: Value)

  // ---------------------------------------------------------------- integers

  function DigitChar(d: nat): char
    requires d < 10
  {
    (48 + d) as char
  }

  predicate IsDigit(c: char) { '0' <= c <= '9' }

  predicate AllDigits(s: string) { forall c | c in s :: IsDigit(c) }

  function NatToString(n: nat): (s: string)
    ensures |s| > 0 && AllDigits(s)
    ensures s[0] == '0' ==> s == "0"
  {
    if n < 10 then [DigitChar(n)] else NatToString(n / 10) + [DigitChar(n % 10)]
  }

  function IntToString(i: int): (s: string)
    ensures |s| > 0 && (IsDigit(s[0]) || s[0] == '-')
  {
    if i < 0 then "-" + NatToString(-i) else NatToString(i)
  }

  function DigitsValue(s: string): int
    requires AllDigits(s)
  {
    if |s| == 0 then 0
    else 10 * DigitsValue(s[..|s| - 1]) + (s[|s| - 1] as int - 48)
  }

  /** Python's int() on text: an optional sign, then digits. */
  function ParseInt(s: string): Option<int> {
    if |s| > 0 && (s[0] == '-' || s[0] == '+') then
      if |s| > 1 && AllDigits(s[1..]) then
        Some(if s[0] == '-' then -DigitsValue(s[1..]) else DigitsValue(s[1..]))
      else None
    else if |s| > 0 && AllDigits(s) then Some(DigitsValue(s))
    else None
  }

  lemma {:induction false} DigitsRoundTrip(n: nat)
    ensures DigitsValue(NatToString(n)) == n
  {
    if n >= 10 {
      DigitsRoundTrip(n / 10);
      var s := NatToString(n);
      assert s[..|s| - 1] == NatToString(n / 10);
    }
  }

  lemma IntRoundTrip(i: int)
    ensures ParseInt(IntToString(i)) == Some(i)
  {
    var s := IntToString(i);
    if i < 0 {
      DigitsRoundTrip(-i);
      assert s[1..] == NatToString(-i);
    } else {
      DigitsRoundTrip(i);
      assert IsDigit(s[0]);
    }
  }

  /** No two integers print alike, so integer keys never collide as text. */
  lemma IntToStringInjective(i: int, j: int)
    requires IntToString(i) == IntToString(j)
    ensures i == j
  {
    IntRoundTrip(i);
    IntRoundTrip(j);
  }

  // ----------------------------------------------------------------- strings

  function HexChar(d: nat): char
    requires d < 16
  {
    if d < 10 then (48 + d) as char else (87 + d) as char
  }

  function HexValue(c: char): Option<nat> {
    if '0' <= c <= '9' then Some(c as int - 48)
    else if 'a' <= c <= 'f' then Some(c as int - 87)
    else if 'A' <= c <= 'F' then Some(c as int - 55)
    else None
  }

  function UEscape(n: nat): string
    requires n < 0x10000
  {
    ['\\', 'u', HexChar(n / 16 / 16 / 16), HexChar(n / 16 / 16 % 16), HexChar(n / 16 % 16), HexChar(n % 16)]
  }

  /** The code unit of a \uXXXX escape at the head of s. */
  function ParseUEscape(s: string): (r: Option<nat>)
    ensures r.Some? ==> |s| >= 6 && r.value < 0x10000
  {
    if |s| >= 6 && s[0] == '\\' && s[1] == 'u'
       && HexValue(s[2]).Some? && HexValue(s[3]).Some? && HexValue(s[4]).Some? && HexValue(s[5]).Some?
    then
      Some(4096 * HexValue(s[2]).value + 256 * HexValue(s[3]).value
           + 16 * HexValue(s[4]).value + HexValue(s[5]).value)
    else None
  }

  /** The letter of a two-character escape, where JSON has one for c. */
  function ShortEscape(c: char): Option<char> {
    if c == '"' then Some('"')
    else if c == '\\' then Some('\\')
    else if c == '\n' then Some('n')
    else if c == '\r' then Some('r')
    else if c == '\t' then Some('t')
    else if c == 8 as char then Some('b')
    else if c == 12 as char then Some('f')
    else None
  }

  function ShortUnescape(x: char): Option<char> {
    if x == '"' then Some('"')
    else if x == '\\' then Some('\\')
    else if x == '/' then Some('/')
    else if x == 'n' then Some('\n')
    else if x == 'r' then Some('\r')
    else if x == 't' then Some('\t')
    else if x == 'b' then Some(8 as char)
    else if x == 'f' then Some(12 as char)
    else None
  }

  function EscapeChar(c: char): (s: string)
    ensures |s| > 0
  {
    var n := c as int;
    if ShortEscape(c).Some? then ['\\', ShortEscape(c).value]
    else if 32 <= n <= 126 then [c]
    else if n < 0x10000 then UEscape(n)
    else UEscape(HighSurrogate(n)) + UEscape(LowSurrogate(n))
  }

  function HighSurrogate(n: int): (r: nat)
    requires 0x10000 <= n < 0x110000
    ensures 0xD800 <= r < 0xDC00
  {
    0xD800 + (n - 0x10000) / 1024
  }

  function LowSurrogate(n: int): (r: nat)
    requires 0x10000 <= n < 0x110000
    ensures 0xDC00 <= r < 0xE000
  {
    0xDC00 + (n - 0x10000) % 1024
  }

  function JoinSurrogates(hi: nat, lo: nat): (n: int)
    requires 0xD800 <= hi < 0xDC00 <= lo < 0xE000
    ensures 0x10000 <= n < 0x110000
  {
    0x10000 + 1024 * (hi - 0xD800) + (lo - 0xDC00)
  }

  function EscapeAll(t: string): string {
    if |t| == 0 then "" else EscapeChar(t[0]) + EscapeAll(t[1..])
  }

  function Quote(t: string): string { "\"" + EscapeAll(t) + "\"" }

  function Prepend(c: char, r: Option<(string, string)>): Option<(string, string)> {
    match r
    case Some((t, rest)) => Some(([c] + t, rest))
    case None => None
  }

  /** The character, and the length of the escape, that starts at a backslash. */
  function ParseEscape(s: string): (r: Option<(char, nat)>)
    requires |s| > 0 && s[0] == '\\'
    ensures r.Some? ==> 2 <= r.value.1 <= |s|
  {
    if |s| < 2 then None
    else if ShortUnescape(s[1]).Some? then Some((ShortUnescape(s[1]).value, 2))
    else
      var u := ParseUEscape(s);
      if u.None? then None
      else if u.value < 0xD800 || 0xE000 <= u.value then Some((u.value as char, 6))
      else if u.value < 0xDC00 then
        var v := ParseUEscape(s[6..]);
        if v.Some? && 0xDC00 <= v.value < 0xE000 then
          Some((JoinSurrogates(u.value, v.value) as char, 12))
        else None
      else None
  }

  /** Reads up to and including the closing quote: the text, and what follows. */
  function ParseStringBody(s: string): (r: Option<(string, string)>)
    ensures r.Some? ==> |r.value.1| < |s|
    decreases |s|
  {
    if |s| == 0 then None
    else if s[0] == '"' then Some(("", s[1..]))
    else if s[0] == '\\' then
      var e := ParseEscape(s);
      if e.None? then None else Prepend(e.value.0, ParseStringBody(s[e.value.1..]))
    else if (s[0] as int) < 32 then None
    else Prepend(s[0], ParseStringBody(s[1..]))
  }

  lemma UEscapeRoundTrip(n: nat, rest: string)
    requires n < 0x10000
    ensures ParseUEscape(UEscape(n) + rest) == Some(n)
  {
    var s := UEscape(n) + rest;
    HexRoundTrip(n / 16 / 16 / 16);
    HexRoundTrip(n / 16 / 16 % 16);
    HexRoundTrip(n / 16 % 16);
    HexRoundTrip(n % 16);
    HexDigits(n);
    assert s[0] == '\\' && s[1] == 'u';
  }

  lemma HexDigits(n: nat)
    ensures n == 4096 * (n / 16 / 16 / 16) + 256 * (n / 16 / 16 % 16) + 16 * (n / 16 % 16) + n % 16
  {
    var a := n / 16;
    var b := a / 16;
    assert n == 16 * a + n % 16 && a == 16 * b + a % 16 && b == 16 * (b / 16) + b % 16;
  }

  lemma HexRoundTrip(d: nat)
    requires d < 16
    ensures HexValue(HexChar(d)) == Some(d)
  {
  }

  lemma PairParses(n: int, rest: string)
    requires 0x10000 <= n < 0x110000
    ensures ParseEscape(UEscape(HighSurrogate(n)) + (UEscape(LowSurrogate(n)) + rest)) == Some((n as char, 12))
  {
    var low := UEscape(LowSurrogate(n)) + rest;
    var s := UEscape(HighSurrogate(n)) + low;
    UEscapeRoundTrip(HighSurrogate(n), low);
    UEscapeRoundTrip(LowSurrogate(n), rest);
    assert s[1] == 'u' && s[6..] == low;
    assert JoinSurrogates(HighSurrogate(n), LowSurrogate(n)) == n;
  }

  lemma UnitParses(n: int, rest: string)
    requires 0 <= n < 0xD800 || 0xE000 <= n < 0x10000
    ensures ParseEscape(UEscape(n) + rest) == Some((n as char, 6))
  {
    UEscapeRoundTrip(n, rest);
    assert (UEscape(n) + rest)[1] == 'u';
  }

  lemma ShortParses(c: char, rest: string)
    requires ShortEscape(c).Some?
    ensures ParseEscape(['\\', ShortEscape(c).value] + rest) == Some((c, 2))
  {
    assert (['\\', ShortEscape(c).value] + rest)[1] == ShortEscape(c).value;
    ShortRoundTrip(c);
  }

  lemma ShortRoundTrip(c: char)
    requires ShortEscape(c).Some?
    ensures ShortUnescape(ShortEscape(c).value) == Some(c)
  {
  }

  /** An escape is parsed back to its character, and nothing after it is touched. */
  lemma EscapeParses(c: char, rest: string)
    requires EscapeChar(c)[0] == '\\'
    ensures ParseEscape(EscapeChar(c) + rest) == Some((c, |EscapeChar(c)|))
  {
    var n := c as int;
    if ShortEscape(c).Some? {
      ShortParses(c, rest);
    } else if n < 0x10000 {
      UnitParses(n, rest);
    } else {
      PairParses(n, rest);
      assert EscapeChar(c) + rest == UEscape(HighSurrogate(n)) + (UEscape(LowSurrogate(n)) + rest);
    }
  }

  lemma EscapeRoundTrip(c: char, rest: string)
    ensures ParseStringBody(EscapeChar(c) + rest) == Prepend(c, ParseStringBody(rest))
  {
    var s := EscapeChar(c) + rest;
    assert s[0] == EscapeChar(c)[0];
    if EscapeChar(c)[0] == '\\' {
      EscapeParses(c, rest);
    }
    assert s[|EscapeChar(c)|..] == rest;
  }

  /** Every string, whatever it holds, survives quoting and unquoting. */
  lemma {:induction false} StringRoundTrip(t: string, rest: string)
    ensures ParseStringBody(EscapeAll(t) + "\"" + rest) == Some((t, rest))
  {
    if |t| == 0 {
      assert EscapeAll(t) + "\"" + rest == "\"" + rest;
    } else {
      var tail := EscapeAll(t[1..]) + "\"" + rest;
      assert EscapeAll(t) + "\"" + rest == EscapeChar(t[0]) + tail;
      EscapeRoundTrip(t[0], tail);
      StringRoundTrip(t[1..], rest);
      assert [t[0]] + t[1..] == t;
    }
  }

  // ----------------------------------------------------------------- objects

  predicate IsWs(c: char) { c == ' ' || c == '\t' || c == '\n' || c == '\r' }

  function SkipWs(s: string): (r: string)
    ensures |r| <= |s|
  {
    if |s| > 0 && IsWs(s[0]) then SkipWs(s[1..]) else s
  }

  function DigitSpan(s: string): (n: nat)
    ensures n <= |s| && AllDigits(s[..n])
  {
    if |s| > 0 && IsDigit(s[0]) then
      var n := 1 + DigitSpan(s[1..]);
      assert s[..n] == [s[0]] + s[1..][..n - 1];
      n
    else 0
  }

  /** A JSON integer without sign: no leading zeros, no fraction, no exponent. */
  function ParseNatural(s: string): (r: Option<(int, string)>)
    ensures r.Some? ==> |r.value.1| < |s|
  {
    var n := DigitSpan(s);
    var digits, rest := s[..n], s[n..];
    if n == 0 || (n > 1 && digits[0] == '0')
       || (|rest| > 0 && (rest[0] == '.' || rest[0] == 'e' || rest[0] == 'E')) then None
    else Some((DigitsValue(digits), rest))
  }

  function ParseNumber(s: string): (r: Option<(int, string)>)
    ensures r.Some? ==> |r.value.1| < |s|
  {
    if |s| > 0 && s[0] == '-' then
      match ParseNatural(s[1..])
      case Some((n, rest)) => Some((-n, rest))
      case None => None
    else ParseNatural(s)
  }

  function ParseValue(s: string): (r: Option<(Value, string)>)
    ensures r.Some? ==> |r.value.1| < |s|
  {
    if |s| > 0 && s[0] == '"' then
      match ParseStringBody(s[1..])
      case Some((t, rest)) => Some((Str(t), rest))
      case None => None
    else
      match ParseNumber(s)
      case Some((i, rest)) => Some((Int(i), rest))
      case None => None
  }

  /** What follows a key: a colon, then the value. */
  function ParseAfterKey(key: string, afterKey: string): (r: Option<(Member, string)>)
    ensures r.Some? ==> |r.value.1| < |afterKey|
  {
    var colon := SkipWs(afterKey);
    if |colon| == 0 || colon[0] != ':' then None
    else
      match ParseValue(SkipWs(colon[1..]))
      case None => None
      case Some((v, rest)) => Some((Member(key, v), rest))
  }

  /** One "key" : value pair. */
  function ParseMember(s: string): (r: Option<(Member, string)>)
    ensures r.Some? ==> |r.value.1| < |s|
  {
    if |s| == 0 || s[0] != '"' then None
    else
      match ParseStringBody(s[1..])
      case None => None
      case Some((key, afterKey)) => ParseAfterKey(key, afterKey)
  }

  /** Members up to and including the closing brace. */
  function ParseMembers(s: string): (r: Option<(seq<Member>, string)>)
    decreases |s|
  {
    match ParseMember(s)
    case None => None
    case Some((m, afterMember)) =>
      var next := SkipWs(afterMember);
      if |next| > 0 && next[0] == '}' then Some(([m], next[1..]))
      else if |next| > 0 && next[0] == ',' then
        match ParseMembers(SkipWs(next[1..]))
        case None => None
        case Some((ms, rest)) => Some(([m] + ms, rest))
      else None
  }

  /** json.loads on a flat object: its members in text order, duplicates kept. */
  function Loads(text: string): Option<seq<Member>> {
    var s := SkipWs(text);
    if |s| == 0 || s[0] != '{' then None
    else
      var body := SkipWs(s[1..]);
      if |body| > 0 && body[0] == '}' then
        (if SkipWs(body[1..]) == "" then Some([]) else None)
      else
        match ParseMembers(body)
        case Some((ms, rest)) => if SkipWs(rest) == "" then Some(ms) else None
        case None => None
  }

  function PrintValue(v: Value): (s: string)
    ensures |s| > 0 && !IsWs(s[0])
  {
    match v
    case Str(t) => Quote(t)
    case Int(i) => IntToString(i)
  }

  function PrintMember(m: Member, colon: string): string {
    Quote(m.key) + colon + PrintValue(m.val)
  }

  function PrintMembers(ms: seq<Member>, comma: string, colon: string): string {
    if |ms| == 0 then ""
    else if |ms| == 1 then PrintMember(ms[0], colon)
    else PrintMember(ms[0], colon) + comma + PrintMembers(ms[1..], comma, colon)
  }

  /** json.dumps of a flat object with the given separators. */
  function Dumps(ms: seq<Member>, comma: string, colon: string): string {
    "{" + PrintMembers(ms, comma, colon) + "}"
  }

  /** The two separator styles of the repository: Python's default and the compact one. */
  predicate Separators(comma: string, colon: string) {
    (comma == "," || comma == ", ") && (colon == ":" || colon == ": ")
  }

  /** Text after a member: what json.dumps may put there. */
  predicate AfterMember(rest: string) { |rest| > 0 && (rest[0] == ',' || rest[0] == '}') }

  lemma {:induction false} DigitSpanExact(s: string, rest: string)
    requires AllDigits(s) && (|rest| > 0 ==> !IsDigit(rest[0]))
    ensures DigitSpan(s + rest) == |s|
  {
    if |s| == 0 {
      assert s + rest == rest;
    } else {
      DigitSpanExact(s[1..], rest);
      assert (s + rest)[1..] == s[1..] + rest;
    }
  }

  lemma NaturalRoundTrip(n: nat, rest: string)
    requires AfterMember(rest)
    ensures ParseNatural(NatToString(n) + rest) == Some((n, rest))
  {
    var digits := NatToString(n);
    DigitSpanExact(digits, rest);
    DigitsRoundTrip(n);
    assert (digits + rest)[..|digits|] == digits;
    assert (digits + rest)[|digits|..] == rest;
  }

  lemma NumberRoundTrip(i: int, rest: string)
    requires AfterMember(rest)
    ensures ParseNumber(IntToString(i) + rest) == Some((i, rest))
  {
    var n: nat := if i < 0 then -i else i;
    NaturalRoundTrip(n, rest);
    var s := IntToString(i) + rest;
    if i < 0 {
      assert s[0] == '-' && s[1..] == NatToString(n) + rest;
    } else {
      assert s[0] == NatToString(n)[0];
    }
  }

  lemma ValueRoundTrip(v: Value, rest: string)
    requires AfterMember(rest)
    ensures ParseValue(PrintValue(v) + rest) == Some((v, rest))
  {
    match v
    case Str(t) =>
      StringRoundTrip(t, rest);
      assert (Quote(t) + rest)[1..] == EscapeAll(t) + "\"" + rest;
    case Int(i) =>
      NumberRoundTrip(i, rest);
      assert (IntToString(i) + rest)[0] == IntToString(i)[0];
  }

  lemma SkipSeparator(sep: string, mark: char, rest: string)
    requires sep == [mark] || sep == [mark, ' ']
    requires !IsWs(mark) && |rest| > 0 && !IsWs(rest[0])
    ensures SkipWs(sep + rest) == sep + rest && SkipWs((sep + rest)[1..]) == rest
  {
    if sep == [mark] {
      assert (sep + rest)[1..] == rest;
    } else {
      assert (sep + rest)[1..] == [' '] + rest;
      assert ([' '] + rest)[1..] == rest;
    }
  }

  lemma AfterKeyRoundTrip(m: Member, colon: string, rest: string)
    requires Separators(",", colon) && AfterMember(rest)
    ensures ParseAfterKey(m.key, colon + (PrintValue(m.val) + rest)) == Some((m, rest))
  {
    SkipSeparator(colon, ':', PrintValue(m.val) + rest);
    ValueRoundTrip(m.val, rest);
  }

  lemma MemberRoundTrip(m: Member, colon: string, rest: string)
    requires Separators(",", colon) && AfterMember(rest)
    ensures ParseMember(PrintMember(m, colon) + rest) == Some((m, rest))
  {
    var afterKey := colon + (PrintValue(m.val) + rest);
    QuoteSplit(EscapeAll(m.key), colon, PrintValue(m.val), rest);
    StringRoundTrip(m.key, afterKey);
    AfterKeyRoundTrip(m, colon, rest);
  }

  lemma QuoteSplit(e: string, colon: string, v: string, rest: string)
    ensures var s := "\"" + e + "\"" + colon + v + rest;
            |s| > 0 && s[0] == '"' && s[1..] == e + "\"" + (colon + (v + rest))
  {
  }

  lemma PrintMembersStart(ms: seq<Member>, comma: string, colon: string)
    requires |ms| > 0
    ensures |PrintMembers(ms, comma, colon)| > 0 && PrintMembers(ms, comma, colon)[0] == '"'
  {
    assert Quote(ms[0].key)[0] == '"';
  }

  lemma {:induction false} MembersRoundTrip(ms: seq<Member>, comma: string, colon: string)
    requires |ms| > 0 && Separators(comma, colon)
    ensures ParseMembers(PrintMembers(ms, comma, colon) + "}") == Some((ms, ""))
  {
    if |ms| == 1 {
      MemberRoundTrip(ms[0], colon, "}");
      LastMember(ms[0], PrintMembers(ms, comma, colon) + "}");
      assert ms == [ms[0]];
    } else {
      PrintMembersSplit(ms, comma, colon);
      PrintMembersStart(ms[1..], comma, colon);
      MembersRoundTrip(ms[1..], comma, colon);
      MembersCons(ms[0], ms[1..], comma, colon, PrintMembers(ms[1..], comma, colon) + "}");
      assert [ms[0]] + ms[1..] == ms;
    }
  }

  lemma MembersCons(m: Member, ms: seq<Member>, comma: string, colon: string, tail: string)
    requires Separators(comma, colon)
    requires |tail| > 0 && tail[0] == '"' && ParseMembers(tail) == Some((ms, ""))
    ensures ParseMembers(PrintMember(m, colon) + (comma + tail)) == Some(([m] + ms, ""))
  {
    SkipSeparator(comma, ',', tail);
    MemberRoundTrip(m, colon, comma + tail);
    MembersStep(m, ms, PrintMember(m, colon) + (comma + tail), comma + tail, tail);
  }

  lemma LastMember(m: Member, s: string)
    requires ParseMember(s) == Some((m, "}"))
    ensures ParseMembers(s) == Some(([m], ""))
  {
    assert SkipWs("}") == "}" && "}"[1..] == "";
  }

  lemma PrintMembersSplit(ms: seq<Member>, comma: string, colon: string)
    requires |ms| > 1
    ensures PrintMembers(ms, comma, colon) + "}"
         == PrintMember(ms[0], colon) + (comma + (PrintMembers(ms[1..], comma, colon) + "}"))
  {
    Assoc(PrintMember(ms[0], colon), comma, PrintMembers(ms[1..], comma, colon), "}");
  }

  lemma Assoc(a: string, b: string, c: string, d: string)
    ensures a + b + c + d == a + (b + (c + d))
  {
  }

  lemma MembersStep(m: Member, ms: seq<Member>, s: string, afterMember: string, tail: string)
    requires ParseMember(s) == Some((m, afterMember))
    requires |afterMember| > 0 && afterMember[0] == ','
    requires SkipWs(afterMember) == afterMember && SkipWs(afterMember[1..]) == tail
    requires ParseMembers(tail) == Some((ms, ""))
    ensures ParseMembers(s) == Some(([m] + ms, ""))
  {
  }

  /** Reading back what json.dumps wrote returns the same members in the same order. */
  lemma DumpsLoads(ms: seq<Member>, comma: string, colon: string)
    requires Separators(comma, colon)
    ensures Loads(Dumps(ms, comma, colon)) == Some(ms)
  {
    var body := PrintMembers(ms, comma, colon) + "}";
    assert Dumps(ms, comma, colon) == "{" + body;
    assert ("{" + body)[1..] == body;
    if |ms| == 0 {
      assert body == "}" && body[1..] == "";
    } else {
      MembersRoundTrip(ms, comma, colon);
      PrintMembersStart(ms, comma, colon);
      LoadsBody("{" + body, body, ms);
    }
  }

  lemma LoadsBody(s: string, body: string, ms: seq<Member>)
    requires |s| > 0 && s[0] == '{' && s[1..] == body
    requires |body| > 0 && body[0] == '"' && ParseMembers(body) == Some((ms, ""))
    ensures Loads(s) == Some(ms)
  {
    assert SkipWs(s) == s && SkipWs(body) == body;
  }

  /** Text of ' '..'~' only: no line break, no control character. */
  predicate Printable(s: string) { forall x | x in s :: ' ' <= x <= '~' }

  lemma PrintableConcat(a: string, b: string)
    requires Printable(a) && Printable(b)
    ensures Printable(a + b)
  {
  }

  lemma CharPrintable(c: char)
    ensures Printable(EscapeChar(c))
  {
    var n := c as int;
    if ShortEscape(c).None? && 0x10000 <= n {
      PrintableConcat(UEscape(HighSurrogate(n)), UEscape(LowSurrogate(n)));
    }
  }

  lemma {:induction false} EscapePrintable(t: string)
    ensures Printable(EscapeAll(t))
  {
    if |t| > 0 {
      EscapePrintable(t[1..]);
      CharPrintable(t[0]);
      PrintableConcat(EscapeChar(t[0]), EscapeAll(t[1..]));
    }
  }

  lemma MemberPrintable(m: Member, colon: string)
    requires Separators(",", colon)
    ensures Printable(PrintMember(m, colon))
  {
    EscapePrintable(m.key);
    match m.val
    case Str(t) => EscapePrintable(t);
    case Int(i) => assert Printable(NatToString(if i < 0 then -i else i));
  }

  lemma {:induction false} MembersPrintable(ms: seq<Member>, comma: string, colon: string)
    requires Separators(comma, colon)
    ensures Printable(PrintMembers(ms, comma, colon))
  {
    if |ms| > 0 {
      MemberPrintable(ms[0], colon);
      MembersPrintable(ms[1..], comma, colon);
    }
  }

  lemma DumpsPrintable(ms: seq<Member>, comma: string, colon: string)
    requires Separators(comma, colon)
    ensures var s := Dumps(ms, comma, colon);
            Printable(s) && |s| >= 2 && s[0] == '{' && s[|s| - 1] == '}'
  {
    MembersPrintable(ms, comma, colon);
    PrintableConcat("{", PrintMembers(ms, comma, colon));
    PrintableConcat("{" + PrintMembers(ms, comma, colon), "}");
  }

  // ---------------------------------------------------------- dictionaries

  /** Where a key sits in an insertion-ordered dictionary. */
  function IndexOf(d: seq<Member>, key: string): (r: Option<nat>)
    ensures r.Some? ==> r.value < |d| && d[r.value].key == key
    ensures r.None? ==> forall i | 0 <= i < |d| :: d[i].key != key
  {
    if |d| == 0 then None
    else if d[|d| - 1].key == key then Some(|d| - 1)
    else IndexOf(d[..|d| - 1], key)
  }

  /** The dictionary json.loads builds: a repeated key keeps its place and takes the last value. */
  function DictOf(ms: seq<Member>): seq<Member> {
    if |ms| == 0 then []
    else
      var d, m := DictOf(ms[..|ms| - 1]), ms[|ms| - 1];
      match IndexOf(d, m.key)
      case Some(i) => d[i := m]
      case None => d + [m]
  }

  predicate DistinctKeys(ms: seq<Member>) {
    forall i, j | 0 <= i < j < |ms| :: ms[i].key != ms[j].key
  }

  lemma {:induction false} DictOfDistinct(ms: seq<Member>)
    requires DistinctKeys(ms)
    ensures DictOf(ms) == ms
  {
    if |ms| > 0 {
      DictOfDistinct(ms[..|ms| - 1]);
      assert ms == ms[..|ms| - 1] + [ms[|ms| - 1]];
    }
  }

  function Lookup(d: seq<Member>, key: string): Option<Value> {
    match IndexOf(d, key)
    case Some(i) => Some(d[i].val)
    case None => None
  }
}
