/**
 The ground-truth file: one JSON event per line (events/generator.py writes it,
 events/ground_truth.py reads it), and the oracle computed from it.
 */
module GroundTruth {
  import opened Wrappers
  import opened Json
  import opened Schema
  import opened Rows

  // --------------------------------------------------------------- the file

  /** Each line followed by a line feed. */
  function Unlines(lines: seq<string>): string {
    if |lines| == 0 then "" else Unlines(lines[..|lines| - 1]) + lines[|lines| - 1] + "\n"
  }

  function JsonLines(events: Rows): (lines: seq<string>)
    ensures |lines| == |events|
  {
    if |events| == 0 then [] else JsonLines(events[..|events| - 1]) + [ToJson(events[|events| - 1])]
  }

  function FileText(events: Rows): string { Unlines(JsonLines(events)) }

  lemma UnlinesSnoc(lines: seq<string>, line: string)
    ensures Unlines(lines + [line]) == Unlines(lines) + (line + "\n")
  {
    assert (lines + [line])[..|lines|] == lines;
    assert Unlines(lines) + line + "\n" == Unlines(lines) + (line + "\n");
  }

  /** Writes one line per event, in order. */
  method WriteGroundTruth(events: Rows) returns (text: string)
    ensures text == FileText(events)
  {
    text := "";
    for i := 0 to |events|
      invariant text == FileText(events[..i])
    {
      var line := ToJson(events[i]);
      assert JsonLines(events[..i + 1]) == JsonLines(events[..i]) + [line] by {
        assert events[..i + 1][..i] == events[..i];
      }
      UnlinesSnoc(JsonLines(events[..i]), line);
      text := text + (line + "\n");
    }
    assert events[..|events|] == events;
  }

  /** Text mode ends a line at a line feed or a carriage return; the empty line a pair makes is skipped below. */
  predicate EndsLine(c: char) { c == '\n' || c == '\r' }

  function LineLength(text: string): (n: nat)
    ensures n <= |text| && (n < |text| ==> EndsLine(text[n]))
  {
    if |text| == 0 || EndsLine(text[0]) then 0 else 1 + LineLength(text[1..])
  }

  function Lines(text: string): seq<string>
    decreases |text|
  {
    if |text| == 0 then []
    else
      var n := LineLength(text);
      [text[..n]] + (if n < |text| then Lines(text[n + 1..]) else [])
  }

  /** Python's whitespace for str.strip. */
  predicate IsSpace(c: char) {
    var n := c as int;
    9 <= n <= 13 || 28 <= n <= 32 || n == 0x85 || n == 0xA0 || n == 0x1680 || 0x2000 <= n <= 0x200A
    || n == 0x2028 || n == 0x2029 || n == 0x202F || n == 0x205F || n == 0x3000
  }

  function Strip(s: string): string
    decreases |s|
  {
    if |s| > 0 && IsSpace(s[0]) then Strip(s[1..])
    else if |s| > 0 && IsSpace(s[|s| - 1]) then Strip(s[..|s| - 1])
    else s
  }

  /** Blank lines are skipped; the first line that does not decode ends the read with its error. */
  function DecodeLines(lines: seq<string>): Result<Rows, WireError> {
    if |lines| == 0 then Ok([])
    else
      match DecodeLines(lines[..|lines| - 1])
      case Err(e) => Err(e)
      case Ok(events) => DecodeOne(events, lines[|lines| - 1])
  }

  function DecodeOne(events: Rows, line: string): Result<Rows, WireError> {
    var stripped := Strip(line);
    if stripped == "" then Ok(events)
    else
      match FromJson(stripped)
      case Ok(e) => Ok(events + [e])
      case Err(e) => Err(e)
  }

  lemma DecodeSnoc(lines: seq<string>, i: nat, events: Rows)
    requires i < |lines| && DecodeLines(lines[..i]) == Ok(events)
    ensures DecodeLines(lines[..i + 1]) == DecodeOne(events, lines[i])
  {
    assert lines[..i + 1][..i] == lines[..i];
  }

  method ReadEvents(text: string) returns (r: Result<Rows, WireError>)
    ensures r == DecodeLines(Lines(text))
  {
    var lines := Lines(text);
    var events: Rows := [];
    for i := 0 to |lines|
      invariant DecodeLines(lines[..i]) == Ok(events)
    {
      DecodeSnoc(lines, i, events);
      var line := Strip(lines[i]);
      if line != "" {
        match FromJson(line)
        case Ok(e) => events := events + [e];
        case Err(e) =>
          FirstErrorWins(lines, i + 1);
          return Err(e);
      }
    }
    assert lines[..|lines|] == lines;
    return Ok(events);
  }

  lemma {:induction false} FirstErrorWins(lines: seq<string>, i: nat)
    requires i <= |lines| && DecodeLines(lines[..i]).Err?
    ensures DecodeLines(lines) == DecodeLines(lines[..i])
    decreases |lines| - i
  {
    if i == |lines| {
      assert lines[..i] == lines;
    } else {
      assert lines[..i + 1][..i] == lines[..i];
      FirstErrorWins(lines, i + 1);
    }
  }

  lemma {:induction false} LineLengthExact(line: string, rest: string)
    requires Printable(line)
    ensures LineLength(line + "\n" + rest) == |line|
  {
    if |line| == 0 {
      assert line + "\n" + rest == "\n" + rest;
    } else {
      assert line[0] in line && forall x | x in line[1..] :: x in line;
      LineLengthExact(line[1..], rest);
      assert (line + "\n" + rest)[1..] == line[1..] + "\n" + rest;
    }
  }

  predicate AllPrintable(lines: seq<string>) { forall i | 0 <= i < |lines| :: Printable(lines[i]) }

  lemma {:induction false} UnlinesCons(line: string, lines: seq<string>)
    ensures Unlines([line] + lines) == line + "\n" + Unlines(lines)
  {
    if |lines| == 0 {
      assert [line] + lines == [line] && [line][..0] == [];
      assert Unlines([]) == "" && Unlines([line]) == "" + line + "\n";
    } else {
      var n := |lines| - 1;
      UnlinesCons(line, lines[..n]);
      assert ([line] + lines)[..n + 1] == [line] + lines[..n];
      assert line + "\n" + Unlines(lines[..n]) + lines[n] + "\n"
          == line + "\n" + (Unlines(lines[..n]) + lines[n] + "\n");
    }
  }

  /** Splitting undoes joining, because printable text holds no line break. */
  lemma {:induction false} LinesOfUnlines(lines: seq<string>)
    requires AllPrintable(lines)
    ensures Lines(Unlines(lines)) == lines
  {
    if |lines| > 0 {
      var line, rest := lines[0], lines[1..];
      assert lines == [line] + rest;
      UnlinesCons(line, rest);
      LineLengthExact(line, Unlines(rest));
      SplitLine(line, Unlines(rest));
      LinesOfUnlines(rest);
    }
  }

  lemma SplitLine(line: string, rest: string)
    requires LineLength(line + "\n" + rest) == |line|
    ensures Lines(line + "\n" + rest) == [line] + Lines(rest)
  {
    var text := line + "\n" + rest;
    assert text[..|line|] == line && text[|line| + 1..] == rest;
  }

  lemma {:induction false} JsonLinesPrintable(events: Rows)
    ensures AllPrintable(JsonLines(events))
  {
    if |events| > 0 {
      JsonLinesPrintable(events[..|events| - 1]);
      JsonIsOneLine(events[|events| - 1]);
    }
  }

  function Rounded(e: OrderEvent): OrderEvent { e.(amount := OnWire(e.amount)) }

  /** What a reader sees of a list of events: amounts rounded to whole cents. */
  function AsRead(events: Rows): (r: Rows)
    ensures |r| == |events| && forall i | 0 <= i < |events| :: r[i] == Rounded(events[i])
  {
    if |events| == 0 then [] else AsRead(events[..|events| - 1]) + [Rounded(events[|events| - 1])]
  }

  predicate AllKnown(events: Rows) { forall i | 0 <= i < |events| :: events[i].Known() }

  lemma AllKnownSnoc(events: Rows)
    requires |events| > 0
    ensures AllKnown(events) <==> AllKnown(events[..|events| - 1]) && events[|events| - 1].Known()
  {
  }

  /** A line that strips to itself and decodes to the event as read. */
  predicate LineFor(line: string, e: OrderEvent) {
    && |line| > 0 && !IsSpace(line[0]) && !IsSpace(line[|line| - 1])
    && FromJson(line) == if e.Known() then Ok(Rounded(e)) else Err(UnknownType)
  }

  lemma BracedLineFor(line: string, e: OrderEvent)
    requires |line| >= 2 && line[0] == '{' && line[|line| - 1] == '}'
    requires FromJson(line) == if e.Known() then Ok(e.(amount := OnWire(e.amount))) else Err(UnknownType)
    ensures LineFor(line, e)
  {
  }

  lemma JsonLineFor(e: OrderEvent)
    ensures LineFor(ToJson(e), e)
  {
    JsonIsOneLine(e);
    JsonRoundTrip(e);
    BracedLineFor(ToJson(e), e);
  }

  lemma DecodeLineFor(events: Rows, line: string, e: OrderEvent)
    requires LineFor(line, e)
    ensures DecodeOne(events, line) == if e.Known() then Ok(events + [Rounded(e)]) else Err(UnknownType)
  {
    StripNothing(line);
  }

  lemma StripNothing(s: string)
    requires |s| > 0 && !IsSpace(s[0]) && !IsSpace(s[|s| - 1])
    ensures Strip(s) == s
  {
  }

  ghost predicate LinesFor(lines: seq<string>, events: Rows) {
    && |lines| == |events|
    && (|lines| > 0 ==> LinesFor(lines[..|lines| - 1], events[..|events| - 1])
                        && LineFor(lines[|lines| - 1], events[|events| - 1]))
  }

  lemma {:induction false} JsonLinesFor(events: Rows)
    ensures LinesFor(JsonLines(events), events)
  {
    if |events| > 0 {
      JsonLinesFor(events[..|events| - 1]);
      JsonLineFor(events[|events| - 1]);
      assert JsonLines(events)[..|events| - 1] == JsonLines(events[..|events| - 1]);
    }
  }

  lemma {:induction false} DecodeLinesFor(lines: seq<string>, events: Rows)
    requires LinesFor(lines, events)
    ensures DecodeLines(lines) == if AllKnown(events) then Ok(AsRead(events)) else Err(UnknownType)
  {
    if |events| > 0 {
      var n := |events| - 1;
      DecodeLinesFor(lines[..n], events[..n]);
      DecodeLineFor(AsRead(events[..n]), lines[n], events[n]);
      AllKnownSnoc(events);
    }
  }

  lemma AsReadExact(events: Rows)
    ensures AsRead(events) == events <==> forall i | 0 <= i < |events| :: WholeCents(events[i].amount)
  {
    forall i | 0 <= i < |events|
      ensures AsRead(events)[i] == events[i] <==> WholeCents(events[i].amount)
    {
      WholeCentsSurvive(events[i].amount);
    }
    assert AsRead(events) == events <==> forall i | 0 <= i < |events| :: AsRead(events)[i] == events[i];
  }

  /** The file reads back as written exactly when every type is known and every amount is whole cents. */
  lemma FileRoundTrip(events: Rows)
    ensures DecodeLines(Lines(FileText(events))) == Ok(events)
            <==> forall i | 0 <= i < |events| :: events[i].Known() && WholeCents(events[i].amount)
  {
    JsonLinesPrintable(events);
    LinesOfUnlines(JsonLines(events));
    JsonLinesFor(events);
    DecodeLinesFor(JsonLines(events), events);
    AsReadExact(events);
  }

  // -------------------------------------------------------------- the oracle

  datatype Truth = Truth(count: nat, gmv: real, eventIdsBelowT: set<string>, countBelowT: nat, gmvBelowT: real)

  /** The sum of gmv_delta over the rows; raises on an unknown type. */
  function DeltaSum(rows: Rows): Result<real, WireError> {
    if |rows| == 0 then Ok(0.0)
    else
      match DeltaSum(rows[..|rows| - 1])
      case Err(e) => Err(e)
      case Ok(sum) =>
        match rows[|rows| - 1].GmvDelta()
        case Ok(d) => Ok(sum + d)
        case Err(e) => Err(e)
  }

  function Compute(events: Rows, t: int): Result<Truth, WireError> {
    match DeltaSum(events)
    case Err(e) => Err(e)
    case Ok(gmv) =>
      var below := Select(events, t, true);
      match DeltaSum(below)
      case Err(e) => Err(e)
      case Ok(gmvBelow) =>
        Ok(Truth(|events|, gmv, set e | e in below :: e.eventId, |below|, gmvBelow))
  }

  /** gmv_delta and the SQL rule agree exactly on lists whose types are all known. */
  lemma {:induction false} SignRulesAgree(rows: Rows)
    ensures AllKnown(rows) ==> DeltaSum(rows) == Ok(SignedSum(rows))
    ensures !AllKnown(rows) ==> DeltaSum(rows).Err?
  {
    if |rows| > 0 {
      SignRulesAgree(rows[..|rows| - 1]);
      assert AllKnown(rows) <==> AllKnown(rows[..|rows| - 1]) && rows[|rows| - 1].Known();
    }
  }

  lemma {:induction false} SelectKnown(rows: Rows, t: int, below: bool)
    requires AllKnown(rows)
    ensures AllKnown(Select(rows, t, below))
  {
    if |rows| > 0 {
      SelectKnown(rows[..|rows| - 1], t, below);
    }
  }

  /** The oracle succeeds exactly on known types, and its totals split at T without remainder. */
  lemma OracleSplits(events: Rows, t: int)
    ensures Compute(events, t).Ok? <==> AllKnown(events)
    ensures AllKnown(events) ==>
              var truth, above := Compute(events, t).value, Select(events, t, false);
              && truth.count == |events| && truth.gmv == SignedSum(events)
              && truth.count == truth.countBelowT + |above|
              && truth.gmv == truth.gmvBelowT + SignedSum(above)
              && truth.gmvBelowT == SignedSum(Select(events, t, true))
              && truth.countBelowT == |Select(events, t, true)|
  {
    SignRulesAgree(events);
    if AllKnown(events) {
      SelectKnown(events, t, true);
      SignRulesAgree(Select(events, t, true));
      SidesPartition(events, t);
      UnionAggregates(Select(events, t, true), Select(events, t, false), events);
    }
  }
}
