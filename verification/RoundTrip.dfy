/** Parsing a printed line gives back header and samples, for exactly the channel names made of plain characters. */
module RoundTrip {
  import opened Sequences
  import opened Serial

  /** Printable, and free of the three characters that the reader treats specially. */
  ghost predicate Plain(name: string) {
    forall c | c in name :: Printable(c) && c != ':' && c != '\'' && c != '\\'
  }

  // ---- Escaping ----

  lemma {:induction false} EscapeConcat(s: string, t: string, quote: char)
    ensures EscapeAll(s + t, quote) == EscapeAll(s, quote) + EscapeAll(t, quote)
  {
    if t == [] {
      assert s + t == s;
    } else {
      var front, last := t[..|t| - 1], Escape(t[|t| - 1], quote);
      EscapeConcat(s, front, quote);
      assert (s + t)[..|s + t| - 1] == s + front;
      Associate(EscapeAll(s, quote), EscapeAll(front, quote), last);
    }
  }

  lemma Associate(a: string, b: string, c: string)
    ensures (a + b) + c == a + (b + c)
  {
  }

  ghost predicate Clean(s: string, quote: char) {
    forall c | c in s :: Printable(c) && c != quote && c != '\\'
  }

  lemma EscapeCleanChar(c: char, quote: char)
    requires Printable(c) && c != quote && c != '\\'
    ensures Escape(c, quote) == [c]
  {
  }

  lemma {:induction false} EscapeClean(s: string, quote: char)
    requires Clean(s, quote)
    ensures EscapeAll(s, quote) == s
  {
    if s != [] {
      EscapeClean(s[..|s| - 1], quote);
      EscapeCleanChar(s[|s| - 1], quote);
      assert s == s[..|s| - 1] + [s[|s| - 1]];
    }
  }

  /** Escaping never shortens, and lengthens as soon as one character needs it. */
  lemma {:induction false} EscapeLengthens(s: string, quote: char)
    ensures |EscapeAll(s, quote)| >= |s|
    ensures (quote in s || '\\' in s) ==> |EscapeAll(s, quote)| > |s|
  {
    if s != [] {
      EscapeLengthens(s[..|s| - 1], quote);
      assert forall c | c in s :: c in s[..|s| - 1] || c == s[|s| - 1];
    }
  }

  lemma EscapedChar(c: char, quote: char)
    requires Printable(quote)
    ensures forall d | d in Escape(c, quote) :: Printable(d)
    ensures c != ':' ==> ':' !in Escape(c, quote)
  {
  }

  lemma {:induction false} EscapePrintable(s: string, quote: char)
    requires Printable(quote)
    ensures forall c | c in EscapeAll(s, quote) :: Printable(c)
    ensures ':' !in s ==> ':' !in EscapeAll(s, quote)
  {
    if s != [] {
      EscapePrintable(s[..|s| - 1], quote);
      EscapedChar(s[|s| - 1], quote);
      JoinedChars(EscapeAll(s[..|s| - 1], quote), Escape(s[|s| - 1], quote));
    }
  }

  lemma JoinedChars(a: string, b: string)
    ensures forall c :: c in a + b <==> c in a || c in b
  {
  }

  // ---- Splitting ----

  /** One more character in front changes the first piece, or starts a new one; the later pieces `b` stay. */
  lemma SplitCons(c: char, u: string, a: seq<string>, b: seq<string>, sep: char)
    requires a != [] && Split(u, sep) == a + b
    ensures Split([c] + u, sep) == (if c == sep then [[]] + a else [[c] + a[0]] + a[1..]) + b
  {
    assert ([c] + u)[1..] == u;
    assert (a + b)[1..] == a[1..] + b;
  }

  lemma {:induction false} SplitConcat(s: string, t: string, sep: char)
    ensures Split(s + [sep] + t, sep) == Split(s, sep) + Split(t, sep)
  {
    if s == [] {
      assert [] + [sep] + t == [sep] + t;
      assert ([sep] + t)[1..] == t;
    } else {
      var rest := s[1..] + [sep] + t;
      SplitConcat(s[1..], t, sep);
      SplitCons(s[0], rest, Split(s[1..], sep), Split(t, sep), sep);
      assert s + [sep] + t == [s[0]] + rest;
    }
  }

  lemma {:induction false} SplitNone(s: string, sep: char)
    requires sep !in s
    ensures Split(s, sep) == [s]
  {
    if s != [] {
      SplitNone(s[1..], sep);
      assert s == [s[0]] + s[1..];
    }
  }

  lemma {:induction false} SplitParts(s: string, sep: char)
    ensures forall i, c | 0 <= i < |Split(s, sep)| && c in Split(s, sep)[i] :: c in s && c != sep
  {
    if s != [] {
      var rest, parts := Split(s[1..], sep), Split(s, sep);
      SplitParts(s[1..], sep);
      forall i, c | 0 <= i < |parts| && c in parts[i]
        ensures c in s && c != sep
      {
        assert forall d | d in s[1..] :: d in s;
        if s[0] == sep {
          assert i > 0 && parts[i] == rest[i - 1];
          assert c in rest[i - 1];
        } else if i > 0 {
          assert c in rest[i];
        } else {
          assert c == s[0] || c in rest[0];
        }
      }
    }
  }

  // ---- Stripping ----

  lemma {:induction false} StripShrinks(s: string, chars: string)
    ensures forall c | c in StripLeft(s, chars) :: c in s
    ensures forall c | c in StripRight(s, chars) :: c in s
    decreases |s|
  {
    if s != [] {
      StripShrinks(s[1..], chars);
      StripShrinks(s[..|s| - 1], chars);
    }
  }

  lemma StripNothing(s: string, chars: string)
    requires s != [] && s[0] !in chars && s[|s| - 1] !in chars
    ensures Strip(s, chars) == s
  {
  }

  // ---- Numbers ----

  lemma DigitsAreNoBlanks(s: string)
    requires s != [] && forall i | 0 <= i < |s| :: IsDigit(s[i])
    ensures Strip(s, SPACES) == s && Strip(" " + s, SPACES) == s
  {
    StripNothing(s, SPACES);
    assert (" " + s)[1..] == s;
    assert StripLeft(" " + s, SPACES) == StripLeft(s, SPACES);
  }

  lemma ParseDecimal(n: nat)
    ensures ParseInt(Decimal(n)) == Some(n) && ParseInt(" " + Decimal(n)) == Some(n)
  {
    DigitsAreNoBlanks(Decimal(n));
    ValueOfDecimal(n);
    assert IsDigit(Decimal(n)[0]);
  }

  /** The comma-separated pieces before the last one; the first keeps the blank that follows the colon. */
  function Fields(samples: seq<nat>): seq<string> {
    if samples == [] then [] else
      var last := Decimal(samples[|samples| - 1]);
      Fields(samples[..|samples| - 1]) + [if |samples| == 1 then " " + last else last]
  }

  lemma {:induction false} SplitBody(samples: seq<nat>, tail: string)
    requires ',' !in tail
    ensures Split(" " + Body(samples) + tail, ',')
      == Fields(samples) + [if samples == [] then " " + tail else tail]
  {
    if samples == [] {
      assert " " + Body(samples) + tail == " " + tail;
      SplitNone(" " + tail, ',');
    } else {
      var front, last := samples[..|samples| - 1], Decimal(samples[|samples| - 1]);
      NoComma(last);
      SplitBody(front, last);
      assert " " + Body(samples) + tail == (" " + Body(front) + last) + [','] + tail;
      SplitConcat(" " + Body(front) + last, tail, ',');
      SplitNone(tail, ',');
    }
  }

  lemma NoComma(s: string)
    requires forall i | 0 <= i < |s| :: IsDigit(s[i])
    ensures ',' !in s
  {
  }

  lemma ParseIntsSnoc(fields: seq<string>, last: string)
    requires ParseInts(fields).Some? && ParseInt(last).Some?
    ensures ParseInts(fields + [last]) == Some(ParseInts(fields).value + [ParseInt(last).value])
  {
    assert (fields + [last])[..|fields|] == fields;
  }

  lemma {:induction false} ParseFields(samples: seq<nat>)
    ensures ParseInts(Fields(samples)) == Some(samples)
  {
    if samples != [] {
      var front, last := samples[..|samples| - 1], samples[|samples| - 1];
      ParseFields(front);
      ParseDecimal(last);
      ParseIntsSnoc(Fields(front), if |samples| == 1 then " " + Decimal(last) else Decimal(last));
      assert samples == front + [last];
    }
  }

  // ---- One line ----

  lemma {:induction false} BodyChars(samples: seq<nat>)
    ensures forall c | c in Body(samples) :: IsDigit(c) || c == ','
  {
    if samples != [] {
      BodyChars(samples[..|samples| - 1]);
      var last := Decimal(samples[|samples| - 1]);
      assert forall c | c in last :: IsDigit(c);
    }
  }

  function Before(id: nat): string {
    "CHANNEL " + Decimal(id) + " ("
  }

  lemma BeforeChars(id: nat)
    ensures forall c | c in Before(id) :: Printable(c) && c !in [':', '\'', '"', '\\', '\n']
  {
    assert forall c | c in Decimal(id) :: IsDigit(c);
  }

  /** The header in Python's text form. */
  function EscapedHeader(id: nat, name: string, quote: char): string {
    Before(id) + EscapeAll(name, quote) + ")"
  }

  lemma EscapeHeader(id: nat, name: string, quote: char)
    requires quote in ['\'', '"']
    ensures EscapeAll(Header(id, name), quote) == EscapedHeader(id, name, quote)
  {
    BeforeChars(id);
    EscapeClean(Before(id), quote);
    EscapeClean(")", quote);
    assert Header(id, name) == Before(id) + name + ")";
    EscapeConcat(Before(id), name, quote);
    EscapeConcat(Before(id) + name, ")", quote);
  }

  lemma EscapeTail(samples: seq<nat>, quote: char)
    requires quote in ['\'', '"']
    ensures EscapeAll(": " + Body(samples) + "\r\n", quote) == ": " + Body(samples) + "\\r\\n"
  {
    BodyChars(samples);
    EscapeClean(": " + Body(samples), quote);
    EscapeLineEnd(quote);
    EscapeConcat(": " + Body(samples), "\r\n", quote);
  }

  /** The line in Python's text form, piece by piece. */
  lemma EscapedLine(id: nat, name: string, samples: seq<nat>, quote: char)
    requires quote in ['\'', '"']
    ensures EscapeAll(Line(id, name, samples), quote)
      == EscapedHeader(id, name, quote) + (": " + Body(samples) + "\\r\\n")
  {
    EscapeHeader(id, name, quote);
    EscapeTail(samples, quote);
    EscapeConcat(Header(id, name), ": " + Body(samples) + "\r\n", quote);
    LineHalves(id, name, samples);
  }

  lemma LineHalves(id: nat, name: string, samples: seq<nat>)
    ensures Line(id, name, samples) == Header(id, name) + (": " + Body(samples) + "\r\n")
  {
  }

  lemma EscapeLineEnd(quote: char)
    requires quote in ['\'', '"']
    ensures EscapeAll("\r\n", quote) == "\\r\\n"
  {
    assert "\r\n"[..1] == "\r" && "\r"[..0] == "";
    assert EscapeAll("\r", quote) == "\\r";
  }

  lemma QuoteOfLine(id: nat, name: string, samples: seq<nat>)
    ensures Quote(Line(id, name, samples)) == Quote(name)
  {
    BeforeChars(id);
    BodyChars(samples);
    var rest := "): " + Body(samples) + "\r\n";
    assert Line(id, name, samples) == Before(id) + name + rest;
    assert '\'' !in rest && '"' !in rest;
  }

  /** What the reader makes of the header: the opening quote is stripped if single, the closing one is elsewhere. */
  function HeaderText(id: nat, name: string): string {
    (if Quote(name) == '"' then "\"" else "") + EscapedHeader(id, name, Quote(name))
  }

  lemma StripQuoted(text: string, quote: char)
    requires text != [] && text[0] == 'C' && text[|text| - 1] == ')' && quote in ['\'', '"']
    ensures Strip("b" + [quote] + text, "b'") == (if quote == '"' then "\"" else "") + text
  {
    var s := "b" + [quote] + text;
    assert s[1..] == [quote] + text;
    if quote == '"' {
      assert StripLeft(s, "b'") == s[1..];
      StripNothing(s[1..], "b'");
    } else {
      assert s[1..][1..] == text;
      assert StripLeft(s, "b'") == StripLeft(s[1..], "b'") == StripLeft(text, "b'");
      StripNothing(text, "b'");
    }
  }

  lemma TextOfLine(id: nat, name: string, samples: seq<nat>)
    ensures var q := Quote(name);
      BytesText(Line(id, name, samples))
        == ("b" + [q] + EscapedHeader(id, name, q)) + [':'] + (" " + Body(samples) + ("\\r\\n" + [q]))
  {
    var q := Quote(name);
    QuoteOfLine(id, name, samples);
    EscapedLine(id, name, samples, q);
    Regroup("b" + [q], EscapedHeader(id, name, q), Body(samples), "\\r\\n", [q]);
  }

  lemma Regroup(a: string, b: string, c: string, d: string, e: string)
    ensures a + (b + (": " + c + d)) + e == (a + b) + [':'] + (" " + c + (d + e))
  {
  }

  /** The text form of the line falls into two parts at the colon. */
  lemma SplitLine(id: nat, name: string, samples: seq<nat>)
    requires ':' !in name
    ensures var q := Quote(name);
      Split(BytesText(Line(id, name, samples)), ':')
        == ["b" + [q] + EscapedHeader(id, name, q), " " + Body(samples) + ("\\r\\n" + [q])]
  {
    var q := Quote(name);
    var head, rest := "b" + [q] + EscapedHeader(id, name, q), " " + Body(samples) + ("\\r\\n" + [q]);
    TextOfLine(id, name, samples);
    NoColon(id, name, samples);
    SplitConcat(head, rest, ':');
    SplitNone(head, ':');
    SplitNone(rest, ':');
  }

  lemma NoColon(id: nat, name: string, samples: seq<nat>)
    requires ':' !in name
    ensures ':' !in "b" + [Quote(name)] + EscapedHeader(id, name, Quote(name))
    ensures ':' !in " " + Body(samples) + ("\\r\\n" + [Quote(name)])
  {
    BeforeChars(id);
    EscapePrintable(name, Quote(name));
    BodyChars(samples);
  }

  /** Any name without a colon parses; the samples always come back, the header as Python shows it. */
  lemma ParseLine(id: nat, name: string, samples: seq<nat>)
    requires ':' !in name
    ensures Parse(Line(id, name, samples)) == Packet(HeaderText(id, name), samples)
  {
    var q := Quote(name);
    var tail := "\\r\\n" + [q];
    SplitLine(id, name, samples);
    SplitBody(samples, tail);
    FieldsLength(samples);
    ParseFields(samples);
    assert Split(" " + Body(samples) + tail, ',')[..|samples|] == Fields(samples);
    StripQuoted(EscapedHeader(id, name, q), q);
  }

  lemma {:induction false} FieldsLength(samples: seq<nat>)
    ensures |Fields(samples)| == |samples|
  {
    if samples != [] {
      FieldsLength(samples[..|samples| - 1]);
    }
  }

  lemma {:induction false} FirstLineOf(s: string, rest: string)
    requires '\n' !in s
    ensures FirstLine(s + "\n" + rest) == s + "\n"
  {
    var all := s + "\n" + rest;
    if s != [] {
      FirstLineOf(s[1..], rest);
      assert all[1..] == s[1..] + "\n" + rest;
      assert s + "\n" == [s[0]] + (s[1..] + "\n");
    }
  }

  /** A parsed header holds printable characters only, and no colon. */
  lemma HeadersAreClean(line: string)
    ensures Parse(line).Packet? ==> forall c | c in Parse(line).header :: Printable(c) && c != ':'
  {
    var text := BytesText(line);
    EscapePrintable(line, Quote(line));
    assert forall c | c in text :: Printable(c);
    SplitParts(text, ':');
    var first := Split(text, ':')[0];
    StripShrinks(first, "b'");
    StripShrinks(StripLeft(first, "b'"), "b'");
  }

  lemma ReadLine(id: nat, name: string, samples: seq<nat>, rest: string)
    requires '\n' !in name
    ensures FirstLine(Line(id, name, samples) + rest) == Line(id, name, samples)
  {
    BeforeChars(id);
    BodyChars(samples);
    var s := Before(id) + name + "): " + Body(samples) + "\r";
    assert Line(id, name, samples) == s + "\n";
    assert Line(id, name, samples) + rest == s + "\n" + rest;
    FirstLineOf(s, rest);
  }

  lemma HeaderTextIff(id: nat, name: string)
    requires forall c | c in name :: Printable(c) && c != ':'
    ensures HeaderText(id, name) == Header(id, name) <==> Plain(name)
  {
    var q := Quote(name);
    EscapeLengthens(name, q);
    assert Header(id, name) == Before(id) + name + ")";
    if q == '"' {
      assert '\'' in name && !Plain(name);
      assert HeaderText(id, name)[0] == '"' && Header(id, name)[0] == 'C';
    } else if '\'' in name || '\\' in name {
      assert |HeaderText(id, name)| > |Header(id, name)|;
    } else {
      EscapeClean(name, q);
    }
  }

  /**
   * The round trip: whatever follows on the wire, the first line read parses to exactly the header and the samples
   * if and only if the channel name is plain.
   */
  lemma RoundTripIff(id: nat, name: string, samples: seq<nat>, rest: string)
    ensures Parse(FirstLine(Line(id, name, samples) + rest)) == Packet(Header(id, name), samples) <==> Plain(name)
  {
    if forall c | c in name :: Printable(c) && c != ':' {
      ReadLine(id, name, samples, rest);
      ParseLine(id, name, samples);
      HeaderTextIff(id, name);
    } else {
      var c :| c in name && !(Printable(c) && c != ':');
      assert c in Header(id, name);
      HeadersAreClean(FirstLine(Line(id, name, samples) + rest));
    }
  }

  /** From memory to the plot: the bytes of 16-bit samples come back as those samples. */
  lemma SamplesArrive(id: nat, name: string, samples: seq<nat>, rest: string)
    requires Plain(name) && forall i | 0 <= i < |samples| :: samples[i] < 0x1_0000
    ensures Parse(FirstLine(Line(id, name, Samples(Encode(samples), 2 * |samples|)) + rest))
      == Packet(Header(id, name), samples)
  {
    SamplesOfEncoded(samples);
    RoundTripIff(id, name, samples, rest);
  }
}
