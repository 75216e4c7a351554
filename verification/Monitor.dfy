/** The packet loop of read.py: it tells packets apart, spreads analog samples over the channels, keeps a window. */
module Monitor {
  import opened Sequences
  import opened Serial
  import RoundTrip

  const NO_ANALOG_CHANNELS := 4
  const DATA_DISPLAYED := 4000
  const PACKETS_PER_ROUND := 10

  /** buffer[k::4]. */
  function Stride(buffer: seq<int>, k: nat): seq<int>
    decreases |buffer| - k
  {
    if k >= |buffer| then [] else [buffer[k]] + Stride(buffer, k + NO_ANALOG_CHANNELS)
  }

  /** "text" in s. */
  predicate Contains(s: string, text: string) {
    exists i | 0 <= i <= |s| :: text <= s[i..]
  }

  /** One channel's list after an analog packet. */
  function Slide(window: seq<int>, buffer: seq<int>, k: nat): seq<int> {
    KeepLast(window + Stride(buffer, k), DATA_DISPLAYED)
  }

  class Display {
    const data: array<seq<int>>
    var timeLabel: int
    var title: string

    constructor ()
      ensures data.Length == NO_ANALOG_CHANNELS && fresh(data)
      ensures forall k | 0 <= k < NO_ANALOG_CHANNELS :: data[k] == Zeros()
      ensures timeLabel == 1 && title == ""
    {
      timeLabel, title := 1, "";
      data := new seq<int>[NO_ANALOG_CHANNELS](_ => Zeros());
    }

    /** The analog branch: each list is extended and cut back to its last 4000 entries. */
    method Analog(buffer: seq<int>)
      requires data.Length == NO_ANALOG_CHANNELS
      modifies data
      ensures forall k | 0 <= k < NO_ANALOG_CHANNELS :: data[k] == Slide(old(data[k]), buffer, k)
    {
      var i := 0;
      while i < NO_ANALOG_CHANNELS
        invariant 0 <= i <= NO_ANALOG_CHANNELS
        invariant forall k | 0 <= k < i :: data[k] == Slide(old(data[k]), buffer, k)
        invariant forall k | i <= k < NO_ANALOG_CHANNELS :: data[k] == old(data[k])
      {
        data[i] := data[i] + Stride(buffer, i);
        if |data[i]| > DATA_DISPLAYED {
          data[i] := data[i][|data[i]| - DATA_DISPLAYED..];
        }
        i := i + 1;
      }
    }

    /**
     * One line from the port; false stands for the exception that ends the round. "can" is looked for first, so a
     * header that contains both words counts as a CAN packet.
     */
    method Receive(line: string) returns (ok: bool)
      requires data.Length == NO_ANALOG_CHANNELS
      modifies this, data
      ensures var effect := EffectOf(line);
        && ok == !effect.Raises?
        && (forall k | 0 <= k < NO_ANALOG_CHANNELS ::
              data[k] == if effect.Extends? then Slide(old(data[k]), effect.samples, k) else old(data[k]))
        && timeLabel == (if effect.Stamps? then effect.time else old(timeLabel))
        && title == (if effect.Extends? then effect.header else old(title))
    {
      ok := true;
      if BytesText(line) != "b''" {
        var packet := Parse(line);
        if packet.ValueError? {
          return false;
        }
        if Contains(packet.header, "can") {
          if packet.samples == [] {
            return false;
          }
          timeLabel := packet.samples[0];
        } else if Contains(packet.header, "analog") {
          title := packet.header;
          Analog(packet.samples);
        }
      }
    }

    /** Line n of a round. */
    method ReceiveNext(
        lines: seq<string>, n: nat, ghost windows: seq<seq<int>>, ghost time: int, ghost heading: string)
      returns (ok: bool)
      requires data.Length == NO_ANALOG_CHANNELS && n < |lines|
      requires Shown(lines, n, windows, time, heading, data[..], timeLabel, title)
      modifies this, data
      ensures ok == !RaisesAt(lines, n)
      ensures Shown(lines, if ok then n + 1 else n, windows, time, heading, data[..], timeLabel, title)
    {
      ok := Receive(lines[n]);
      if ok {
        NextShown(lines, n, windows, time, heading, old(data[..]), old(timeLabel), old(title),
          data[..], timeLabel, title);
      }
    }

    /** The reading part of one animate call: up to ten lines, fewer when one raises. */
    method Round(lines: seq<string>) returns (read: nat)
      requires data.Length == NO_ANALOG_CHANNELS && |lines| == 10
      modifies this, data
      ensures read <= |lines| && (read < |lines| ==> RaisesAt(lines, read))
      ensures Shown(lines, read, old(data[..]), old(timeLabel), old(title), data[..], timeLabel, title)
    {
      read := 0;
      while read < PACKETS_PER_ROUND
        invariant read <= |lines|
        invariant Shown(lines, read, old(data[..]), old(timeLabel), old(title), data[..], timeLabel, title)
      {
        var ok := ReceiveNext(lines, read, old(data[..]), old(timeLabel), old(title));
        if !ok {
          return;
        }
        read := read + 1;
      }
    }
  }

  ghost predicate RaisesAt(lines: seq<string>, n: nat) {
    n < |lines| && EffectOf(lines[n]).Raises?
  }

  /** None of the first n lines raises; they turn the windows, the time label and the title into those that follow. */
  ghost predicate Shown(
      lines: seq<string>, n: nat, windows: seq<seq<int>>, time: int, title: string,
      windows': seq<seq<int>>, time': int, title': string)
  {
    && n <= |lines| && |windows| == |windows'| == NO_ANALOG_CHANNELS
    && (forall i | 0 <= i < n :: !RaisesAt(lines, i))
    && (forall k | 0 <= k < NO_ANALOG_CHANNELS :: windows'[k] == AfterLines(windows[k], lines[..n], k))
    && time' == LabelAfter(time, lines[..n])
    && title' == TitleAfter(title, lines[..n])
  }

  lemma NextShown(
      lines: seq<string>, n: nat, windows: seq<seq<int>>, time: int, title: string,
      windows': seq<seq<int>>, time': int, title': string, windows'': seq<seq<int>>, time'': int, title'': string)
    requires n < |lines| && Shown(lines, n, windows, time, title, windows', time', title')
    requires !RaisesAt(lines, n) && |windows''| == NO_ANALOG_CHANNELS
    requires forall k | 0 <= k < NO_ANALOG_CHANNELS ::
      windows''[k]
        == if EffectOf(lines[n]).Extends? then Slide(windows'[k], EffectOf(lines[n]).samples, k) else windows'[k]
    requires time'' == if EffectOf(lines[n]).Stamps? then EffectOf(lines[n]).time else time'
    requires title'' == if EffectOf(lines[n]).Extends? then EffectOf(lines[n]).header else title'
    ensures Shown(lines, n + 1, windows, time, title, windows'', time'', title'')
  {
    assert lines[..n + 1][..n] == lines[..n];
  }

  function Zeros(): (zeros: seq<int>)
    ensures |zeros| == 4000 && forall i | 0 <= i < 4000 :: zeros[i] == 0
  {
    seq(DATA_DISPLAYED, _ => 0)
  }

  /** What a line does to the display. */
  datatype Effect = Ignored | Raises | Stamps(time: int) | Extends(header: string, samples: seq<int>)

  function EffectOf(line: string): Effect {
    if BytesText(line) == "b''" then Ignored
    else match Parse(line)
      case ValueError => Raises
      case Packet(header, samples) =>
        if Contains(header, "can") then (if samples == [] then Raises else Stamps(samples[0]))
        else if Contains(header, "analog") then Extends(header, samples)
        else Ignored
  }

  /** A channel's window after a run of lines; one that raises ends its round but leaves the windows alone. */
  function AfterLines(window: seq<int>, lines: seq<string>, k: nat): seq<int> {
    if lines == [] then window else
      var before := AfterLines(window, lines[..|lines| - 1], k);
      match EffectOf(lines[|lines| - 1])
      case Extends(_, samples) => Slide(before, samples, k)
      case _ => before
  }

  /** The time shown after these lines: that of the last one that stamps. */
  function LabelAfter(time: int, lines: seq<string>): int {
    if lines == [] then time else
      match EffectOf(lines[|lines| - 1])
      case Stamps(stamp) => stamp
      case _ => LabelAfter(time, lines[..|lines| - 1])
  }

  /** The title after these lines: the header of the last one that extends the windows. */
  function TitleAfter(title: string, lines: seq<string>): string {
    if lines == [] then title else
      match EffectOf(lines[|lines| - 1])
      case Extends(header, _) => header
      case _ => TitleAfter(title, lines[..|lines| - 1])
  }

  /**
   * An empty read is ignored. A line raises if it does not parse, or if it is a CAN packet without samples; a CAN
   * packet stamps its first sample; an analog packet that is no CAN packet extends the windows; others are ignored.
   */
  lemma EffectIff(line: string)
    ensures EffectOf(line).Raises? <==>
      && line != ""
      && (Parse(line).ValueError? || (Contains(Parse(line).header, "can") && Parse(line).samples == []))
    ensures forall time ::
      EffectOf(line) == Stamps(time) <==>
        && line != "" && Parse(line).Packet? && Contains(Parse(line).header, "can")
        && Parse(line).samples != [] && Parse(line).samples[0] == time
    ensures EffectOf(line).Extends? <==>
      && line != "" && Parse(line).Packet?
      && !Contains(Parse(line).header, "can") && Contains(Parse(line).header, "analog")
    ensures EffectOf(line).Extends? ==>
      EffectOf(line) == Extends(Parse(line).header, Parse(line).samples)
    ensures EffectOf("") == Ignored
  {
    EmptyText(line);
    EmptyText("");
  }

  lemma EmptyText(line: string)
    ensures BytesText(line) == "b''" <==> line == ""
  {
    if line != "" {
      RoundTrip.EscapeLengthens(line, Quote(line));
      assert |BytesText(line)| > 3;
    }
  }

  // ---- Any number of packets ----

  /** A channel's window after a run of analog packets. */
  function Window(packets: seq<seq<int>>, k: nat): seq<int> {
    if packets == [] then Zeros() else Slide(Window(packets[..|packets| - 1], k), packets[|packets| - 1], k)
  }

  /** The samples that the packets put on channel k, packet by packet. */
  function Shares(packets: seq<seq<int>>, k: nat): seq<int> {
    if packets == [] then [] else Shares(packets[..|packets| - 1], k) + Stride(packets[|packets| - 1], k)
  }

  function Stream(packets: seq<seq<int>>): seq<int> {
    if packets == [] then [] else Stream(packets[..|packets| - 1]) + packets[|packets| - 1]
  }

  /** The window always has 4000 entries: the last of the initial zeros followed by everything received. */
  lemma {:induction false} WindowKeepsLast(packets: seq<seq<int>>, k: nat)
    ensures Window(packets, k) == KeepLast(Zeros() + Shares(packets, k), DATA_DISPLAYED)
    ensures |Window(packets, k)| == 4000
  {
    if packets == [] {
      assert Zeros() + Shares(packets, k) == Zeros();
    } else {
      var front, share := packets[..|packets| - 1], Stride(packets[|packets| - 1], k);
      WindowKeepsLast(front, k);
      SlideOn(Zeros(), Shares(front, k), share);
    }
  }

  lemma SlideOn(zeros: seq<int>, received: seq<int>, share: seq<int>)
    requires |zeros| == DATA_DISPLAYED
    ensures KeepLast(KeepLast(zeros + received, DATA_DISPLAYED) + share, DATA_DISPLAYED)
      == KeepLast(zeros + (received + share), DATA_DISPLAYED)
    ensures |KeepLast(zeros + (received + share), DATA_DISPLAYED)| == DATA_DISPLAYED
  {
    KeepLastAbsorbs(zeros + received, share, DATA_DISPLAYED);
    assert zeros + received + share == zeros + (received + share);
  }

  /** Behind a prefix the stride goes on where the remainder of the prefix puts it. */
  lemma {:induction false} StrideBehind(a: seq<int>, b: seq<int>, k: nat)
    requires k >= |a|
    ensures Stride(a + b, k) == Stride(b, k - |a|)
    decreases |a| + |b| - k
  {
    if k < |a| + |b| {
      StrideBehind(a, b, k + NO_ANALOG_CHANNELS);
    }
  }

  lemma {:induction false} StrideConcat(a: seq<int>, b: seq<int>, k: nat, channel: nat)
    requires |a| % NO_ANALOG_CHANNELS == 0 && channel < NO_ANALOG_CHANNELS
    requires k % NO_ANALOG_CHANNELS == channel && k <= |a| + channel
    ensures Stride(a + b, k) == Stride(a, k) + Stride(b, channel)
    decreases |a| + channel - k
  {
    if k < |a| {
      StrideConcat(a, b, k + NO_ANALOG_CHANNELS, channel);
    } else {
      StrideBehind(a, b, k);
    }
  }

  /** Splitting packet by packet equals splitting the stream for all continuations exactly on whole frames of four. */
  lemma WholeFramesIff(a: seq<int>)
    ensures |a| % NO_ANALOG_CHANNELS == 0 <==>
      forall b, k | 0 <= k < NO_ANALOG_CHANNELS :: Stride(a + b, k) == Stride(a, k) + Stride(b, k)
  {
    if |a| % NO_ANALOG_CHANNELS == 0 {
      forall b, k | 0 <= k < NO_ANALOG_CHANNELS
        ensures Stride(a + b, k) == Stride(a, k) + Stride(b, k)
      {
        StrideConcat(a, b, k, k);
      }
    } else {
      BrokenFrame(a, [0]);
    }
  }

  /** The first sample behind an incomplete frame belongs to another channel than the packet boundary suggests. */
  lemma BrokenFrame(a: seq<int>, b: seq<int>)
    requires |a| % NO_ANALOG_CHANNELS != 0 && |b| == 1
    ensures Stride(a + b, 0) != Stride(a, 0) + Stride(b, 0)
  {
    StrideLength(a, 0);
    StrideLength(a + b, 0);
    StrideLength(b, 0);
    assert (|a| + 1 + 3) / 4 == (|a| + 3) / 4;
  }

  lemma {:induction false} StrideLength(a: seq<int>, k: nat)
    ensures |Stride(a, k)| == if k >= |a| then 0 else (|a| - k + NO_ANALOG_CHANNELS - 1) / NO_ANALOG_CHANNELS
    decreases |a| - k
  {
    if k < |a| {
      StrideLength(a, k + NO_ANALOG_CHANNELS);
    }
  }

  lemma {:induction false} SharesOfStream(packets: seq<seq<int>>, k: nat)
    requires k < NO_ANALOG_CHANNELS
    requires forall i | 0 <= i < |packets| - 1 :: |packets[i]| % NO_ANALOG_CHANNELS == 0
    ensures Shares(packets, k) == Stride(Stream(packets), k)
    ensures (forall i | 0 <= i < |packets| :: |packets[i]| % NO_ANALOG_CHANNELS == 0) ==>
      |Stream(packets)| % NO_ANALOG_CHANNELS == 0
  {
    if packets != [] {
      var front, last := packets[..|packets| - 1], packets[|packets| - 1];
      SharesOfStream(front, k);
      StrideConcat(Stream(front), last, k, k);
    }
  }

  /**
   * The plot shows the stream: while packets hold whole frames (the last one need not), channel k's window is the last
   * 4000 of 4000 zeros followed by the samples at the stream positions congruent to k modulo 4.
   */
  lemma WindowShowsStream(packets: seq<seq<int>>, k: nat)
    requires k < NO_ANALOG_CHANNELS
    requires forall i | 0 <= i < |packets| - 1 :: |packets[i]| % NO_ANALOG_CHANNELS == 0
    ensures Window(packets, k) == KeepLast(Zeros() + Stride(Stream(packets), k), DATA_DISPLAYED)
    ensures |Window(packets, k)| == 4000
  {
    WindowKeepsLast(packets, k);
    SharesOfStream(packets, k);
  }

  /** Element j of a stride is element k + 4j of the sequence. */
  lemma {:induction false} StrideAt(buffer: seq<int>, k: nat, j: nat)
    requires j < |Stride(buffer, k)|
    ensures k + 4 * j < |buffer| && Stride(buffer, k)[j] == buffer[k + 4 * j]
    decreases |buffer| - k
  {
    if j > 0 {
      StrideAt(buffer, k + NO_ANALOG_CHANNELS, j - 1);
    }
  }
}
