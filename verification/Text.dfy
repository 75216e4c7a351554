/**
 * The string functions of the reader, each against a description of its own: strip, split, int, the text form of bytes
 * and readline; and with them exactly which lines parse.
 */
module Text {
  import opened Sequences
  import opened Serial
  import opened RoundTrip

  // ---- strip ----

  ghost predicate AllIn(s: string, chars: string) {
    forall i | 0 <= i < |s| :: s[i] in chars
  }

  /** t is s without the longest runs of these characters at its ends. */
  ghost predicate IsStripped(s: string, chars: string, t: string) {
    && (exists a, b :: AllIn(a, chars) && AllIn(b, chars) && s == a + t + b)
    && (t != [] ==> t[0] !in chars && t[|t| - 1] !in chars)
  }

  lemma {:induction false} StripLeftSplits(s: string, chars: string) returns (a: string)
    ensures AllIn(a, chars) && s == a + StripLeft(s, chars)
    ensures StripLeft(s, chars) != [] ==> StripLeft(s, chars)[0] !in chars
  {
    if s != [] && s[0] in chars {
      var rest := StripLeftSplits(s[1..], chars);
      a := [s[0]] + rest;
      assert s == [s[0]] + s[1..];
    } else {
      a := [];
    }
  }

  lemma {:induction false} StripRightSplits(s: string, chars: string) returns (b: string)
    ensures AllIn(b, chars) && s == StripRight(s, chars) + b
    ensures StripRight(s, chars) != [] ==>
      StripRight(s, chars)[|StripRight(s, chars)| - 1] !in chars && StripRight(s, chars)[0] == s[0]
  {
    if s != [] && s[|s| - 1] in chars {
      var rest := StripRightSplits(s[..|s| - 1], chars);
      b := rest + [s[|s| - 1]];
      assert s == s[..|s| - 1] + [s[|s| - 1]];
    } else {
      b := [];
    }
  }

  lemma StripStrips(s: string, chars: string)
    ensures IsStripped(s, chars, Strip(s, chars))
  {
    var a := StripLeftSplits(s, chars);
    var b := StripRightSplits(StripLeft(s, chars), chars);
    assert s == a + Strip(s, chars) + b;
  }

  lemma {:induction false} StripLeftSkips(a: string, t: string, chars: string)
    requires AllIn(a, chars) && (t == [] || t[0] !in chars)
    ensures StripLeft(a + t, chars) == t
  {
    if a == [] {
      assert a + t == t;
    } else {
      StripLeftSkips(a[1..], t, chars);
      assert (a + t)[1..] == a[1..] + t;
    }
  }

  lemma {:induction false} StripLeftSkipsAll(a: string, chars: string)
    requires AllIn(a, chars)
    ensures StripLeft(a, chars) == []
  {
    StripLeftSkips(a, [], chars);
    assert a + [] == a;
  }

  lemma {:induction false} StripRightSkips(t: string, b: string, chars: string)
    requires AllIn(b, chars) && (t == [] || t[|t| - 1] !in chars)
    ensures StripRight(t + b, chars) == t
  {
    if b == [] {
      assert t + b == t;
    } else {
      StripRightSkips(t, b[..|b| - 1], chars);
      assert (t + b)[..|t + b| - 1] == t + b[..|b| - 1];
    }
  }

  /** Strip gives the one stripped string there is. */
  lemma StripIff(s: string, chars: string, t: string)
    ensures Strip(s, chars) == t <==> IsStripped(s, chars, t)
  {
    StripStrips(s, chars);
    if IsStripped(s, chars, t) {
      var a, b :| AllIn(a, chars) && AllIn(b, chars) && s == a + t + b;
      if t == [] {
        assert s == a + b;
        StripLeftSkipsAll(s, chars);
      } else {
        assert s == a + (t + b);
        StripLeftSkips(a, t + b, chars);
        StripRightSkips(t, b, chars);
      }
    }
  }

  // ---- int ----

  ghost predicate IsDigits(s: string) {
    s != [] && forall i | 0 <= i < |s| :: IsDigit(s[i])
  }

  /** Digits with an optional sign. */
  ghost predicate IsSigned(t: string, v: int) {
    || (IsDigits(t) && v == Value(t))
    || (t != [] && t[0] == '+' && IsDigits(t[1..]) && v == Value(t[1..]))
    || (t != [] && t[0] == '-' && IsDigits(t[1..]) && v == -(Value(t[1..]) as int))
  }

  /** The text of a number for int: signed digits between blanks. */
  ghost predicate IsNumeral(s: string, v: int) {
    exists t :: IsStripped(s, " \t\n\r", t) && IsSigned(t, v)
  }

  lemma SignedIff(t: string, v: int)
    ensures ParseSigned(t) == Some(v) <==> IsSigned(t, v)
  {
    if t != [] && (t[0] == '-' || t[0] == '+') {
      assert !IsDigit(t[0]) && !IsDigits(t);
    }
  }

  /** int accepts exactly the numerals, and gives their value; everything else raises. */
  lemma ParseIntIff(s: string, v: int)
    ensures ParseInt(s) == Some(v) <==> IsNumeral(s, v)
  {
    var t := Strip(s, " \t\n\r");
    StripStrips(s, " \t\n\r");
    SignedIff(t, v);
    if IsNumeral(s, v) {
      var u :| IsStripped(s, " \t\n\r", u) && IsSigned(u, v);
      StripIff(s, " \t\n\r", u);
    }
  }

  ghost predicate IsNumber(s: string) {
    exists v :: IsNumeral(s, v)
  }

  lemma ParseIntSome(s: string)
    ensures ParseInt(s).Some? <==> IsNumber(s)
    ensures ParseInt(s).Some? ==> IsNumeral(s, ParseInt(s).value)
  {
    if ParseInt(s).Some? {
      ParseIntIff(s, ParseInt(s).value);
    }
    if IsNumber(s) {
      var v :| IsNumeral(s, v);
      ParseIntIff(s, v);
    }
  }

  // ---- split ----

  function Occurs(s: string, c: char): nat {
    if s == [] then 0 else (if s[0] == c then 1 else 0) + Occurs(s[1..], c)
  }

  function Join(parts: seq<string>, sep: char): string {
    if parts == [] then [] else if |parts| == 1 then parts[0] else parts[0] + [sep] + Join(parts[1..], sep)
  }

  lemma {:induction false} SplitLength(s: string, sep: char)
    ensures |Split(s, sep)| == Occurs(s, sep) + 1
  {
    if s != [] {
      SplitLength(s[1..], sep);
    }
  }

  lemma JoinFirst(first: string, c: char, parts: seq<string>, sep: char)
    requires parts != [] && first == parts[0]
    ensures Join([[c] + first] + parts[1..], sep) == [c] + Join(parts, sep)
  {
    var longer := [[c] + first] + parts[1..];
    assert longer[1..] == parts[1..] && longer[0] == [c] + first;
    if |parts| > 1 {
      assert [c] + first + [sep] + Join(parts[1..], sep) == [c] + (first + [sep] + Join(parts[1..], sep));
    }
  }

  lemma {:induction false} JoinSplit(s: string, sep: char)
    ensures Join(Split(s, sep), sep) == s
  {
    if s != [] {
      var rest := Split(s[1..], sep);
      JoinSplit(s[1..], sep);
      assert s == [s[0]] + s[1..];
      if s[0] == sep {
        assert ([[]] + rest)[1..] == rest;
        assert [] + [sep] + s[1..] == [sep] + s[1..];
      } else {
        JoinFirst(rest[0], s[0], rest, sep);
      }
    }
  }

  /** Joining the parts gives the string back, there is one part more than separators, and no part holds one. */
  lemma SplitJoins(s: string, sep: char)
    ensures Join(Split(s, sep), sep) == s
    ensures |Split(s, sep)| == Occurs(s, sep) + 1
    ensures forall i | 0 <= i < |Split(s, sep)| :: sep !in Split(s, sep)[i]
  {
    JoinSplit(s, sep);
    SplitLength(s, sep);
    SplitParts(s, sep);
  }

  lemma {:induction false} OccursConcat(a: string, b: string, c: char)
    ensures Occurs(a + b, c) == Occurs(a, c) + Occurs(b, c)
  {
    if a == [] {
      assert a + b == b;
    } else {
      OccursConcat(a[1..], b, c);
      assert (a + b)[1..] == a[1..] + b;
    }
  }

  lemma {:induction false} OccursNot(s: string, c: char)
    requires c !in s
    ensures Occurs(s, c) == 0
  {
    if s != [] {
      OccursNot(s[1..], c);
    }
  }

  lemma EscapedColons(c: char, quote: char)
    requires quote in ['\'', '"']
    ensures Occurs(Escape(c, quote), ':') == if c == ':' then 1 else 0
  {
    if c == ':' {
      assert Escape(c, quote) == [':'] && [':'][1..] == [];
    } else {
      EscapedChar(c, quote);
      OccursNot(Escape(c, quote), ':');
    }
  }

  lemma {:induction false} EscapeKeepsColons(s: string, quote: char)
    requires quote in ['\'', '"']
    ensures Occurs(EscapeAll(s, quote), ':') == Occurs(s, ':')
  {
    if s != [] {
      var front, last := s[..|s| - 1], s[|s| - 1];
      EscapeKeepsColons(front, quote);
      EscapedColons(last, quote);
      OccursConcat(EscapeAll(front, quote), Escape(last, quote), ':');
      OccursConcat(front, [last], ':');
      assert s == front + [last] && [last][1..] == [];
    }
  }

  lemma TextKeepsColons(line: string)
    ensures Occurs(BytesText(line), ':') == Occurs(line, ':')
  {
    var q := Quote(line);
    EscapeKeepsColons(line, q);
    OccursConcat("b" + [q], EscapeAll(line, q), ':');
    OccursConcat("b" + [q] + EscapeAll(line, q), [q], ':');
    OccursNot("b" + [q], ':');
    OccursNot([q], ':');
  }

  // ---- The text form of bytes ----

  function HexValue(c: char): nat {
    if '0' <= c <= '9' then c as nat - '0' as nat
    else if 'a' <= c <= 'f' then c as nat - 'a' as nat + 10
    else 0
  }

  /** Reads Python's escapes. */
  function Unescape(t: string): string {
    if t == [] then []
    else if t[0] != '\\' || |t| == 1 then [t[0]] + Unescape(t[1..])
    else if t[1] == 't' then ['\t'] + Unescape(t[2..])
    else if t[1] == 'n' then ['\n'] + Unescape(t[2..])
    else if t[1] == 'r' then ['\r'] + Unescape(t[2..])
    else if t[1] == 'x' && |t| >= 4 then
      [(16 * HexValue(t[2]) + HexValue(t[3])) as char] + Unescape(t[4..])
    else [t[1]] + Unescape(t[2..])
  }

  lemma UnescapeOne(c: char, rest: string, quote: char)
    requires c as nat < 256 && quote in ['\'', '"']
    ensures Unescape(Escape(c, quote) + rest) == [c] + Unescape(rest)
  {
    var e := Escape(c, quote);
    if |e| == 1 {
      assert (e + rest)[1..] == rest;
    } else if |e| == 2 {
      assert (e + rest)[2..] == rest;
    } else {
      assert e == "\\x" + [HexDigit(c as nat / 16 % 16), HexDigit(c as nat % 16)];
      assert (e + rest)[4..] == rest;
      HexPair(c as nat);
    }
  }

  lemma HexPair(n: nat)
    requires n < 256
    ensures 16 * HexValue(HexDigit(n / 16 % 16)) + HexValue(HexDigit(n % 16)) == n
  {
    HexDigitValue(n / 16 % 16);
    HexDigitValue(n % 16);
  }

  lemma HexDigitValue(d: nat)
    requires d < 16
    ensures HexValue(HexDigit(d)) == d
  {
  }

  /** The text form of bytes loses nothing: reading the escapes gives the bytes back. */
  lemma {:induction false} EscapesReadBack(s: string, quote: char)
    requires quote in ['\'', '"'] && forall i | 0 <= i < |s| :: s[i] as nat < 256
    ensures Unescape(EscapeAll(s, quote)) == s
  {
    if s != [] {
      EscapesReadBack(s[1..], quote);
      EscapeConcat([s[0]], s[1..], quote);
      assert s == [s[0]] + s[1..] && [s[0]][..0] == [] && EscapeAll([], quote) == [];
      assert EscapeAll([s[0]], quote) == Escape(s[0], quote);
      UnescapeOne(s[0], EscapeAll(s[1..], quote), quote);
    }
  }

  /** The quotes Python chooses, and its escapes, written out. */
  lemma QuoteExamples()
    ensures Quote("") == '\'' && Quote("it's") == '"' && Quote("say \"it's\"") == '\'' && Quote("\"") == '\''
    ensures BytesText("") == "b''"
  {
    assert "it's"[2] == '\'';
    assert "say \"it's\""[4] == '"' && "say \"it's\""[7] == '\'';
  }

  lemma EscapeExamples()
    ensures Escape('\t', '\'') == "\\t" && Escape('\n', '\'') == "\\n" && Escape('\r', '\'') == "\\r"
    ensures Escape(1 as char, '\'') == "\\x01" && Escape(0x7F as char, '\'') == "\\x7f"
    ensures Escape('\'', '\'') == "\\'" && Escape('"', '\'') == "\"" && Escape('\\', '\'') == "\\\\"
  {
  }

  // ---- readline ----

  /** readline takes everything up to the first line feed, or all there is. */
  lemma {:induction false} FirstLineTakes(wire: string)
    ensures FirstLine(wire) <= wire
    ensures if '\n' in wire
      then FirstLine(wire) != [] && FirstLine(wire)[|FirstLine(wire)| - 1] == '\n'
           && '\n' !in FirstLine(wire)[..|FirstLine(wire)| - 1]
      else FirstLine(wire) == wire
  {
    if wire != [] && wire[0] != '\n' {
      FirstLineTakes(wire[1..]);
      var rest := FirstLine(wire[1..]);
      assert FirstLine(wire) == [wire[0]] + rest;
      assert wire == [wire[0]] + wire[1..];
      if rest != [] {
        assert FirstLine(wire)[..|FirstLine(wire)| - 1] == [wire[0]] + rest[..|rest| - 1];
      }
    }
  }

  // ---- Which lines parse ----

  /** The comma-separated pieces behind the colon that are read as numbers: all but the last. */
  function NumberFields(line: string): seq<string> {
    var parts := Split(BytesText(line), ':');
    if |parts| != 2 then [] else Split(parts[1], ',')[..|Split(parts[1], ',')| - 1]
  }

  ghost predicate AllNumbers(fields: seq<string>) {
    forall i | 0 <= i < |fields| :: IsNumber(fields[i])
  }

  ghost predicate Numerals(fields: seq<string>, values: seq<int>) {
    |fields| == |values| && forall i | 0 <= i < |fields| :: IsNumeral(fields[i], values[i])
  }

  lemma AllNumbersSnoc(front: seq<string>, last: string)
    ensures AllNumbers(front + [last]) <==> AllNumbers(front) && IsNumber(last)
  {
    var fields := front + [last];
    assert fields[|front|] == last;
    assert forall i | 0 <= i < |front| :: fields[i] == front[i];
  }

  lemma {:induction false} ParseIntsIff(fields: seq<string>)
    ensures ParseInts(fields).Some? <==> AllNumbers(fields)
    ensures ParseInts(fields).Some? ==> Numerals(fields, ParseInts(fields).value)
  {
    if fields != [] {
      var front, last := fields[..|fields| - 1], fields[|fields| - 1];
      ParseIntsIff(front);
      ParseIntSome(last);
      AllNumbersSnoc(front, last);
      assert fields == front + [last];
    }
  }

  /**
   * A line parses if and only if it holds exactly one colon and all the pieces behind it but the last are numerals; the
   * samples are then their values. Every other line raises.
   */
  lemma ParsesIff(line: string)
    ensures Parse(line).Packet? <==> Occurs(line, ':') == 1 && AllNumbers(NumberFields(line))
    ensures Parse(line).Packet? ==> Numerals(NumberFields(line), Parse(line).samples)
  {
    TextKeepsColons(line);
    SplitJoins(BytesText(line), ':');
    ParseIntsIff(NumberFields(line));
  }

  // ---- The printed body ----

  function Decimals(samples: seq<nat>): seq<string> {
    seq(|samples|, i requires 0 <= i < |samples| => Decimal(samples[i]))
  }

  /** Behind each sample there is one comma and nothing else: splitting there gives back the numbers. */
  lemma {:induction false} BodySplits(samples: seq<nat>, tail: string)
    requires ',' !in tail
    ensures Split(Body(samples) + tail, ',') == Decimals(samples) + [tail]
  {
    if samples == [] {
      assert Body(samples) + tail == tail;
      SplitNone(tail, ',');
    } else {
      var front, last := samples[..|samples| - 1], Decimal(samples[|samples| - 1]);
      NoComma(last);
      BodySplits(front, last);
      assert Body(samples) + tail == (Body(front) + last) + [','] + tail;
      SplitConcat(Body(front) + last, tail, ',');
      SplitNone(tail, ',');
      assert Decimals(samples) == Decimals(front) + [last];
    }
  }
}
