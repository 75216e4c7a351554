/**
 * The text protocol of the serial logger: chibios_fsae_logger_write prints a record, read.py parses the line that
 * arrives. Characters stand for bytes.
 */
module Serial {
  import opened Sequences

  newtype Byte = x: int | 0 <= x < 256

  // ---- Decimal numbers ----

  function Digit(d: nat): char
    requires d < 10
  {
    ['0', '1', '2', '3', '4', '5', '6', '7', '8', '9'][d]
  }

  predicate IsDigit(c: char) {
    '0' <= c <= '9'
  }

  function DigitValue(c: char): nat
    requires IsDigit(c)
  {
    c as nat - '0' as nat
  }

  /** %d for a number that is not negative. */
  function Decimal(n: nat): (s: string)
    ensures s != [] && forall i | 0 <= i < |s| :: IsDigit(s[i])
  {
    if n < 10 then [Digit(n)] else Decimal(n / 10) + [Digit(n % 10)]
  }

  function Value(s: string): nat
    requires forall i | 0 <= i < |s| :: IsDigit(s[i])
  {
    if s == [] then 0 else Value(s[..|s| - 1]) * 10 + DigitValue(s[|s| - 1])
  }

  lemma {:induction false} ValueOfDecimal(n: nat)
    ensures Value(Decimal(n)) == n
  {
    if n >= 10 {
      ValueOfDecimal(n / 10);
      assert Decimal(n)[..|Decimal(n)| - 1] == Decimal(n / 10);
    } else {
      assert Decimal(n)[..0] == [];
    }
  }

  /** %d prints no leading zero. */
  lemma {:induction false} DecimalIsCanonical(n: nat)
    ensures |Decimal(n)| > 1 ==> Decimal(n)[0] != '0'
    ensures n > 0 ==> Decimal(n)[0] != '0'
  {
    if n >= 10 {
      DecimalIsCanonical(n / 10);
    }
  }

  lemma {:induction false} ValueIsPositive(s: string)
    requires s != [] && s[0] != '0' && forall i | 0 <= i < |s| :: IsDigit(s[i])
    ensures Value(s) > 0
  {
    if |s| > 1 {
      ValueIsPositive(s[..|s| - 1]);
    } else {
      assert s[..0] == [];
    }
  }

  /** The digits of a number are the only string of digits with its value and without leading zero. */
  lemma {:induction false} DecimalIsUnique(n: nat, s: string)
    requires s != [] && forall i | 0 <= i < |s| :: IsDigit(s[i])
    requires |s| > 1 ==> s[0] != '0'
    requires Value(s) == n
    ensures s == Decimal(n)
  {
    var front, last := s[..|s| - 1], s[|s| - 1];
    if front == [] {
      assert s == [last];
    } else {
      ValueIsPositive(front);
      DecimalIsUnique(Value(front), front);
      assert s == front + [last];
    }
  }

  // ---- The printer ----

  function Header(id: nat, name: string): string {
    "CHANNEL " + Decimal(id) + " (" + name + ")"
  }

  function Body(samples: seq<nat>): string {
    if samples == [] then [] else Body(samples[..|samples| - 1]) + Decimal(samples[|samples| - 1]) + ","
  }

  function Line(id: nat, name: string, samples: seq<nat>): string {
    Header(id, name) + ": " + Body(samples) + "\r\n"
  }

  /** The 16-bit little-endian samples in the first `size` bytes; an odd size takes one byte more. */
  function Samples(data: seq<Byte>, size: nat): (samples: seq<nat>)
    requires size + size % 2 <= |data|
    ensures |samples| == (size + 1) / 2
  {
    seq((size + 1) / 2, i requires 0 <= i < (size + 1) / 2 => data[2 * i] as nat + 0x100 * data[2 * i + 1] as nat)
  }

  /** A 16-bit sample as it lies in memory. */
  function Encode(samples: seq<nat>): (data: seq<Byte>)
    requires forall i | 0 <= i < |samples| :: samples[i] < 0x1_0000
    ensures |data| == 2 * |samples|
  {
    if samples == [] then [] else
      var last := samples[|samples| - 1];
      Encode(samples[..|samples| - 1]) + [(last % 0x100) as Byte, (last / 0x100) as Byte]
  }

  lemma {:induction false} SamplesOfEncoded(samples: seq<nat>)
    requires forall i | 0 <= i < |samples| :: samples[i] < 0x1_0000
    ensures Samples(Encode(samples), 2 * |samples|) == samples
  {
    if samples != [] {
      var front := samples[..|samples| - 1];
      SamplesOfEncoded(front);
      forall i | 0 <= i < |samples|
        ensures Samples(Encode(samples), 2 * |samples|)[i] == samples[i]
      {
        if i < |front| {
          assert Samples(Encode(front), 2 * |front|)[i] == front[i];
        }
      }
    }
  }

  lemma SampleAt(data: seq<Byte>, size: nat, i: nat)
    requires size + size % 2 <= |data| && i < size && i % 2 == 0
    ensures i + 1 < |data| && i / 2 < (size + 1) / 2
    ensures Samples(data, size)[i / 2] == data[i] as nat + 0x100 * data[i + 1] as nat
  {
  }

  lemma BodySnoc(prefix: string, samples: seq<nat>, n: nat)
    requires n < |samples|
    ensures prefix + Body(samples[..n + 1]) == prefix + Body(samples[..n]) + (Decimal(samples[n]) + ",")
  {
    assert samples[..n + 1][..n] == samples[..n];
  }

  lemma LineParts(sent: string, id: nat, name: string, samples: seq<nat>)
    ensures sent + ("CHANNEL " + Decimal(id) + " (" + name + "): ") == sent + Header(id, name) + ": "
    ensures sent + Header(id, name) + ": " + Body(samples) + "\r\n" == sent + Line(id, name, samples)
    ensures sent + Line(id, name, samples)
      == sent + ("CHANNEL " + Decimal(id) + " (" + name + "): " + Body(samples) + "\r\n")
  {
    assert "): " == ")" + ": ";
  }

  lemma DecimalExamples()
    ensures Decimal(1) == "1" && Decimal(2) == "2" && Decimal(7) == "7" && Decimal(12) == "12"
    ensures Decimal(4660) == "4660" && Decimal(65535) == "65535"
  {
    assert Decimal(46) == "46" && Decimal(466) == "466";
    assert Decimal(65) == "65" && Decimal(655) == "655" && Decimal(6553) == "6553";
  }

  lemma BodyOfOne(n: nat)
    ensures Body([n]) == Decimal(n) + ","
  {
    assert [n][..0] == [];
    assert Body([]) + Decimal(n) == Decimal(n);
  }

  lemma BodyOfTwo(m: nat, n: nat)
    ensures Body([m, n]) == Decimal(m) + "," + Decimal(n) + ","
  {
    BodyOfOne(m);
    assert [m, n][..1] == [m];
  }

  /** What goes over the wire, written out. */
  lemma CanLineExample()
    ensures Line(1, "ch_can", [7]) == "CHANNEL 1 (ch_can): 7,\r\n"
  {
    DecimalExamples();
    BodyOfOne(7);
  }

  lemma AnalogBodyExample()
    ensures Body([4660, 65535]) == "4660,65535,"
  {
    DecimalExamples();
    BodyOfTwo(4660, 65535);
  }

  lemma EmptyLineExample()
    ensures Line(12, "x", []) == "CHANNEL 12 (x): \r\n"
  {
    DecimalExamples();
  }

  lemma SamplesExample()
    ensures Samples([0x34, 0x12, 0xFF, 0xFF], 4) == [4660, 65535]
  {
  }

  class Port {
    var sent: string

    constructor ()
      ensures sent == ""
    {
      sent := "";
    }

    /** chibios_fsae_logger_write, with the record's bytes and the name found in the channel table. */
    method Write(data: seq<Byte>, size: nat, id: nat, name: string) returns (success: bool)
      requires size + size % 2 <= |data|
      modifies this
      ensures success && sent == old(sent) + Line(id, name, Samples(data, size))
      ensures sent == old(sent)
        + ("CHANNEL " + Decimal(id) + " (" + name + "): " + Body(Samples(data, size)) + "\r\n")
    {
      ghost var samples, prefix := Samples(data, size), sent + Header(id, name) + ": ";
      LineParts(sent, id, name, samples);
      sent := sent + ("CHANNEL " + Decimal(id) + " (" + name + "): ");
      var i := 0;
      while i < size
        invariant 0 <= i <= size + 1 && i % 2 == 0
        invariant sent == prefix + Body(samples[..i / 2])
      {
        SampleAt(data, size, i);
        BodySnoc(prefix, samples, i / 2);
        sent := sent + (Decimal(data[i] as nat + 0x100 * data[i + 1] as nat) + ",");
        i := i + 2;
      }
      assert samples[..i / 2] == samples;
      sent := sent + "\r\n";
      success := true;
    }
  }

  // ---- The reader ----

  /** serial.readline: up to and including the first line feed. */
  function FirstLine(stream: string): string {
    if stream == [] then [] else if stream[0] == '\n' then ['\n'] else [stream[0]] + FirstLine(stream[1..])
  }

  function HexDigit(d: nat): char
    requires d < 16
  {
    ['0', '1', '2', '3', '4', '5', '6', '7', '8', '9', 'a', 'b', 'c', 'd', 'e', 'f'][d]
  }

  predicate Printable(c: char) {
    ' ' <= c <= '~'
  }

  /** One byte in the text form Python gives a bytes object. */
  function Escape(c: char, quote: char): string {
    if c == quote || c == '\\' then ['\\', c]
    else if c == '\t' then "\\t"
    else if c == '\n' then "\\n"
    else if c == '\r' then "\\r"
    else if Printable(c) then [c]
    else "\\x" + [HexDigit(c as nat / 16 % 16), HexDigit(c as nat % 16)]
  }

  function EscapeAll(s: string, quote: char): string {
    if s == [] then [] else EscapeAll(s[..|s| - 1], quote) + Escape(s[|s| - 1], quote)
  }

  function Quote(s: string): char {
    if '\'' in s && '"' !in s then '"' else '\''
  }

  /** str(b'...'). */
  function BytesText(s: string): string {
    "b" + [Quote(s)] + EscapeAll(s, Quote(s)) + [Quote(s)]
  }

  /** s.split(sep): always at least one part. */
  function Split(s: string, sep: char): (parts: seq<string>)
    ensures |parts| >= 1
  {
    if s == [] then [[]]
    else
      var rest := Split(s[1..], sep);
      if s[0] == sep then [[]] + rest else [[s[0]] + rest[0]] + rest[1..]
  }

  function StripLeft(s: string, chars: string): string {
    if s != [] && s[0] in chars then StripLeft(s[1..], chars) else s
  }

  function StripRight(s: string, chars: string): string {
    if s != [] && s[|s| - 1] in chars then StripRight(s[..|s| - 1], chars) else s
  }

  function Strip(s: string, chars: string): string {
    StripRight(StripLeft(s, chars), chars)
  }

  const SPACES := " \t\n\r"

  function ParseDigits(s: string): Option<int> {
    if s == [] || exists i | 0 <= i < |s| :: !IsDigit(s[i]) then None else Some(Value(s))
  }

  /** Digits with an optional sign. */
  function ParseSigned(t: string): Option<int> {
    if t != [] && t[0] == '+' then ParseDigits(t[1..])
    else if t != [] && t[0] == '-' then
      match ParseDigits(t[1..])
      case None => None
      case Some(v) => Some(-v)
    else ParseDigits(t)
  }

  /** int(s) for decimal digits with an optional sign and surrounding blanks; None stands for ValueError. */
  function ParseInt(s: string): Option<int> {
    ParseSigned(Strip(s, SPACES))
  }

  function ParseInts(fields: seq<string>): Option<seq<int>> {
    if fields == [] then Some([])
    else
      var front, last := ParseInts(fields[..|fields| - 1]), ParseInt(fields[|fields| - 1]);
      if front.None? || last.None? then None else Some(front.value + [last.value])
  }

  datatype Parsed = Packet(header: string, samples: seq<int>) | ValueError

  /** Lines 31 to 34 of read.py on a received line that is not empty. */
  function Parse(line: string): Parsed {
    var parts := Split(BytesText(line), ':');
    if |parts| != 2 then ValueError
    else
      var fields := Split(parts[1], ',');
      var samples := ParseInts(fields[..|fields| - 1]);
      if samples.None? then ValueError else Packet(Strip(parts[0], "b'"), samples.value)
  }
}
