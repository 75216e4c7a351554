/** From the DMA buffer to the display: the pieces put together. */
module EndToEnd {
  import opened Sequences
  import opened Records
  import opened AtomicLogger
  import opened Serial
  import opened Monitor
  import AnalogChannel
  import Names
  import Reg = Registry
  import RoundTrip

  // ---- What a printed line does ----

  lemma PrefixAt(s: string, i: nat, text: string)
    requires i <= |s|
    ensures text <= s[i..] <==> i + |text| <= |s| && forall j | 0 <= j < |text| :: s[i + j] == text[j]
  {
    if i + |text| <= |s| && forall j | 0 <= j < |text| :: s[i + j] == text[j] {
      assert s[i..][..|text|] == text;
    } else if text <= s[i..] {
      forall j | 0 <= j < |text|
        ensures s[i + j] == text[j]
      {
        assert s[i..][j] == s[i + j];
      }
    }
  }

  lemma FoundInside(before: string, s: string, after: string, text: string, i: nat)
    requires text != [] && forall c | c in text :: c !in before && c !in after
    requires i <= |before + s + after| && text <= (before + s + after)[i..]
    ensures Contains(s, text)
  {
    var all := before + s + after;
    PrefixAt(all, i, text);
    assert all[i] == text[0] && all[i + |text| - 1] == text[|text| - 1];
    assert text[0] in text && text[|text| - 1] in text;
    assert |before| <= i && i + |text| <= |before| + |s|;
    PrefixAt(s, i - |before|, text);
  }

  /** A text that shares no character with its surroundings occurs only inside. */
  lemma ContainsInside(before: string, s: string, after: string, text: string)
    requires text != [] && forall c | c in text :: c !in before && c !in after
    ensures Contains(before + s + after, text) <==> Contains(s, text)
  {
    var all := before + s + after;
    if Contains(all, text) {
      var i :| 0 <= i <= |all| && text <= all[i..];
      FoundInside(before, s, after, text, i);
    }
    if Contains(s, text) {
      var i :| 0 <= i <= |s| && text <= s[i..];
      PrefixAt(s, i, text);
      PrefixAt(all, |before| + i, text);
    }
  }

  lemma HeaderContains(id: nat, name: string)
    ensures Contains(Header(id, name), "can") <==> Contains(name, "can")
    ensures Contains(Header(id, name), "analog") <==> Contains(name, "analog")
  {
    var before := RoundTrip.Before(id);
    assert Header(id, name) == before + name + ")";
    assert forall c | c in Decimal(id) :: IsDigit(c);
    assert forall c | c in before :: c in "CHANNEL (" || IsDigit(c);
    ContainsInside(before, name, ")", "can");
    ContainsInside(before, name, ")", "analog");
  }

  /** The effect that a channel's name and samples call for. */
  function Intended(id: nat, name: string, samples: seq<nat>): Effect {
    if Contains(name, "can") then (if samples == [] then Raises else Stamps(samples[0]))
    else if Contains(name, "analog") then Extends(Header(id, name), samples)
    else Ignored
  }

  /**
   * For every plain channel name, a printed line stamps the time, extends the plots, raises or is ignored according
   * to the channel's own name and the number of samples, and to nothing else in the line.
   */
  lemma PrintedEffect(id: nat, name: string, samples: seq<nat>, rest: string)
    requires RoundTrip.Plain(name)
    ensures EffectOf(FirstLine(Line(id, name, samples) + rest)) == Intended(id, name, samples)
  {
    RoundTrip.RoundTripIff(id, name, samples, rest);
    RoundTrip.ReadLine(id, name, samples, rest);
    RoundTrip.TextOfLine(id, name, samples);
    assert |BytesText(Line(id, name, samples))| > 3;
    HeaderContains(id, name);
  }

  /** analog_channel_name and can_channel_name. */
  const ANALOG_NAME := "ch_analog"
  const CAN_NAME := "ch_can"

  lemma NotIn(s: string, text: string)
    requires |text| >= 2 && forall i | 0 <= i < |s| - 1 :: s[i] == text[0] ==> s[i + 1] != text[1]
    ensures !Contains(s, text)
  {
    forall i | 0 <= i <= |s|
      ensures !(text <= s[i..])
    {
      PrefixAt(s, i, text);
      if i + |text| <= |s| {
        assert s[i] == text[0] ==> s[i + 1] != text[1];
      }
    }
  }

  lemma ChannelNames()
    ensures RoundTrip.Plain(ANALOG_NAME) && !Contains(ANALOG_NAME, "can") && Contains(ANALOG_NAME, "analog")
    ensures RoundTrip.Plain(CAN_NAME) && Contains(CAN_NAME, "can")
  {
    NotIn(ANALOG_NAME, "can");
    PrefixAt(ANALOG_NAME, 3, "analog");
    PrefixAt(CAN_NAME, 3, "can");
  }

  /** The two channels of the application: analog lines extend the plots, a CAN line with a sample stamps the time. */
  lemma ApplicationLines(id: nat, samples: seq<nat>, rest: string)
    ensures EffectOf(FirstLine(Line(id, "ch_analog", samples) + rest)) == Extends(Header(id, "ch_analog"), samples)
    ensures samples != [] ==> EffectOf(FirstLine(Line(id, "ch_can", samples) + rest)) == Stamps(samples[0])
  {
    ChannelNames();
    PrintedEffect(id, ANALOG_NAME, samples, rest);
    PrintedEffect(id, CAN_NAME, samples, rest);
  }

  // ---- Lines on the wire ----

  /** Everything sent, line after line. */
  function Wire(lines: seq<string>): string {
    if lines == [] then [] else lines[0] + Wire(lines[1..])
  }

  /** What readline returns until the wire is empty. */
  function ReadAll(wire: string): seq<string>
    decreases |wire|
  {
    if wire == [] then [] else
      var line := FirstLine(wire);
      if |line| == 0 || |line| > |wire| then [] else [line] + ReadAll(wire[|line|..])
  }

  ghost predicate IsLine(s: string) {
    s != [] && s[|s| - 1] == '\n' && '\n' !in s[..|s| - 1]
  }

  lemma {:induction false} ReadAllOfWire(lines: seq<string>)
    requires forall i | 0 <= i < |lines| :: IsLine(lines[i])
    ensures ReadAll(Wire(lines)) == lines
  {
    if lines != [] {
      var line, rest := lines[0], Wire(lines[1..]);
      assert IsLine(line);
      assert line == line[..|line| - 1] + "\n";
      RoundTrip.FirstLineOf(line[..|line| - 1], rest);
      assert line + rest == line[..|line| - 1] + "\n" + rest;
      assert (line + rest)[|line|..] == rest;
      ReadAllOfWire(lines[1..]);
    }
  }

  lemma PrintedIsLine(id: nat, name: string, samples: seq<nat>)
    requires RoundTrip.Plain(name)
    ensures IsLine(Line(id, name, samples))
  {
    RoundTrip.BeforeChars(id);
    RoundTrip.BodyChars(samples);
    var s := RoundTrip.Before(id) + name + "): " + Body(samples) + "\r";
    assert Line(id, name, samples) == s + "\n";
    assert Line(id, name, samples)[..|s|] == s;
  }

  // ---- A whole run ----

  lemma AnalogRecordsStep(cap: nat, id: nat, s: AnalogChannel.System, m: AnalogChannel.Move, i: nat)
    requires i < |s.logger.log| && AnalogChannel.IsAnalog(s.logger.log[i]) ==> s.logger.log[i].id == id
    ensures var log := AnalogChannel.Step(cap, id, s, m).logger.log;
      i < |log| && AnalogChannel.IsAnalog(log[i]) ==> log[i].id == id
  {
  }

  /** The analog records of a run are those of the conversion callback. */
  lemma {:induction false} AnalogRecords(
      cap: nat, id: nat, s: AnalogChannel.System, schedule: seq<AnalogChannel.Move>, i: nat)
    requires AnalogChannel.Starts(s)
    ensures var log := AnalogChannel.Exec(cap, id, s, schedule).logger.log;
      i < |log| && AnalogChannel.IsAnalog(log[i]) ==> log[i].id == id
  {
    if schedule != [] {
      var front, last := schedule[..|schedule| - 1], schedule[|schedule| - 1];
      AnalogRecords(cap, id, s, front, i);
      AnalogRecordsStep(cap, id, AnalogChannel.Exec(cap, id, s, front), last, i);
    }
  }

  /** The k-th finished write is of a logged record; an analog one has printed what was captured when it was queued. */
  ghost predicate IntactAt(t: AnalogChannel.System, id: nat, k: nat) {
    && k < |t.logger.written| && k < |t.logger.pops| && k < |t.payloads|
    && t.logger.pops[k] < |t.logger.log| && t.logger.pops[k] < |t.snapshots|
    && t.logger.written[k].record == t.logger.log[t.logger.pops[k]]
    && (AnalogChannel.IsAnalog(t.logger.written[k].record) ==>
          && t.logger.written[k].record.id == id
          && t.logger.written[k].record.size == AnalogChannel.HALF_BYTES == |t.payloads[k]|
          && t.payloads[k] == t.snapshots[t.logger.pops[k]])
  }

  ghost predicate Intact(t: AnalogChannel.System, id: nat) {
    forall k | 0 <= k < |t.logger.written| :: IntactAt(t, id, k)
  }

  lemma TimelyIntact(cap: nat, id: nat, s: AnalogChannel.System, schedule: seq<AnalogChannel.Move>)
    requires 1 <= cap && AnalogChannel.Starts(s) && AnalogChannel.Timely(cap, id, s, schedule)
    ensures Intact(AnalogChannel.Exec(cap, id, s, schedule), id)
  {
    var t := AnalogChannel.Exec(cap, id, s, schedule);
    AtomicLogger.InitialInv(cap);
    AnalogChannel.FreshInv(cap, s);
    AnalogChannel.ExecInv(cap, id, s, schedule);
    forall k | 0 <= k < |t.logger.written|
      ensures IntactAt(t, id, k)
    {
      AnalogRecords(cap, id, s, schedule, t.logger.pops[k]);
      assert AnalogChannel.PayloadOk(t, k);
    }
  }

  // ---- Printing, reading and plotting a whole run ----

  /** The name that _write finds in the table for an id. */
  function NameAt<C>(r: Reg.State<C>, names: C -> string, id: nat): string {
    if 1 <= id <= |r.table| && r.table[id - 1].Some? then names(r.table[id - 1].value) else ""
  }

  /** A record whose id resolves is printed under the name of the channel that carries this id. */
  lemma NameFromTable<C>(r: Reg.State<C>, names: C -> string, record: Record)
    requires Names.Resolves(r, record)
    ensures exists c :: c in r.ids && r.ids[c] == record.id && NameAt(r, names, record.id) == names(c)
  {
    var c := r.table[record.id - 1].value;
    assert c in r.ids;
  }

  /**
   * The bytes the k-th finished write has read: of an analog record what the model's _write read, of another channel
   * `others(k)`, since the memory of those is not modelled.
   */
  function BytesAt(t: AnalogChannel.System, others: nat -> seq<Byte>, k: nat): seq<Byte>
    requires k < |t.logger.written| && k < |t.payloads|
  {
    if AnalogChannel.IsAnalog(t.logger.written[k].record) then t.payloads[k] else others(k)
  }

  /** There are as many bytes as the record says. */
  ghost predicate CoveredAt(t: AnalogChannel.System, others: nat -> seq<Byte>, k: nat)
    requires k < |t.logger.written| && k < |t.payloads|
  {
    t.logger.written[k].record.size + t.logger.written[k].record.size % 2 <= |BytesAt(t, others, k)|
  }

  ghost predicate Covered(t: AnalogChannel.System, others: nat -> seq<Byte>) {
    && |t.logger.written| == |t.payloads|
    && forall k | 0 <= k < |t.payloads| :: CoveredAt(t, others, k)
  }

  /** What the k-th finished write prints: its samples, under the name in the table. */
  ghost function PrintedAt<C>(
      t: AnalogChannel.System, r: Reg.State<C>, names: C -> string, others: nat -> seq<Byte>, k: nat): string
    requires k < |t.logger.written| && k < |t.payloads| && CoveredAt(t, others, k)
  {
    var record := t.logger.written[k].record;
    Line(record.id, NameAt(r, names, record.id), Samples(BytesAt(t, others, k), record.size))
  }

  ghost function Printed<C>(
      t: AnalogChannel.System, r: Reg.State<C>, names: C -> string, others: nat -> seq<Byte>): (lines: seq<string>)
    requires Covered(t, others)
    ensures |lines| == |t.payloads|
    ensures forall k | 0 <= k < |lines| :: CoveredAt(t, others, k) && lines[k] == PrintedAt(t, r, names, others, k)
  {
    seq(|t.payloads|, k requires 0 <= k < |t.payloads| =>
      assert CoveredAt(t, others, k); PrintedAt(t, r, names, others, k))
  }

  method PrintWrite<C>(
      port: Port, t: AnalogChannel.System, r: Reg.State<C>, names: C -> string, others: nat -> seq<Byte>, k: nat)
    requires k < |t.logger.written| && k < |t.payloads| && CoveredAt(t, others, k)
    modifies port
    ensures port.sent == old(port.sent) + PrintedAt(t, r, names, others, k)
  {
    var record := t.logger.written[k].record;
    var _ := port.Write(BytesAt(t, others, k), record.size, record.id, NameAt(r, names, record.id));
  }

  /** The finished writes of a run, one after the other, send exactly these lines. */
  method PrintRun<C>(
      port: Port, t: AnalogChannel.System, r: Reg.State<C>, names: C -> string, others: nat -> seq<Byte>)
    requires Covered(t, others)
    modifies port
    ensures port.sent == old(port.sent) + Wire(Printed(t, r, names, others))
  {
    ghost var lines := Printed(t, r, names, others);
    NothingSent(old(port.sent), lines);
    for k := 0 to |t.payloads|
      invariant Sent(old(port.sent), lines, k, port.sent)
    {
      PrintNext(port, t, r, names, others, k, old(port.sent), lines);
    }
    assert lines[..|lines|] == lines;
  }

  method PrintNext<C>(
      port: Port, t: AnalogChannel.System, r: Reg.State<C>, names: C -> string, others: nat -> seq<Byte>, k: nat,
      ghost before: string, ghost lines: seq<string>)
    requires Covered(t, others) && k < |t.payloads| == |lines| && CoveredAt(t, others, k)
    requires lines[k] == PrintedAt(t, r, names, others, k)
    requires Sent(before, lines, k, port.sent)
    modifies port
    ensures Sent(before, lines, k + 1, port.sent)
  {
    PrintWrite(port, t, r, names, others, k);
    MoreSent(before, lines, k, old(port.sent), port.sent);
  }

  /** The first n of these lines have gone over the wire. */
  ghost predicate Sent(before: string, lines: seq<string>, n: nat, sent: string) {
    n <= |lines| && sent == before + Wire(lines[..n])
  }

  lemma NothingSent(before: string, lines: seq<string>)
    ensures Sent(before, lines, 0, before)
  {
    assert lines[..0] == [] && Wire([]) == [];
  }

  lemma MoreSent(before: string, lines: seq<string>, n: nat, sent: string, sent': string)
    requires n < |lines| && Sent(before, lines, n, sent) && sent' == sent + lines[n]
    ensures Sent(before, lines, n + 1, sent')
  {
    WireSnoc(lines, n);
    assert before + (Wire(lines[..n]) + lines[n]) == before + Wire(lines[..n]) + lines[n];
  }

  lemma {:induction false} WireSnoc(lines: seq<string>, k: nat)
    requires k < |lines|
    ensures Wire(lines[..k + 1]) == Wire(lines[..k]) + lines[k]
  {
    if k == 0 {
      assert lines[..1] == [lines[0]] && lines[..1][1..] == [];
    } else {
      WireSnoc(lines[1..], k - 1);
      assert lines[..k + 1][1..] == lines[1..][..k] && lines[..k][1..] == lines[1..][..k - 1];
      assert lines[0] + (Wire(lines[1..][..k - 1]) + lines[k]) == lines[0] + Wire(lines[1..][..k - 1]) + lines[k];
    }
  }

  /** The half-buffer that the k-th finished write was queued with, if it is an analog record. */
  function CapturedAt(t: AnalogChannel.System, k: nat): seq<seq<int>>
    requires k < |t.logger.written| && k < |t.logger.pops| && t.logger.pops[k] < |t.snapshots|
  {
    var snapshot := t.snapshots[t.logger.pops[k]];
    if AnalogChannel.IsAnalog(t.logger.written[k].record) && |snapshot| == AnalogChannel.HALF_BYTES
    then [Samples(snapshot, |snapshot|)] else []
  }

  /** All of them, in the order of the writes. */
  ghost function Captured(t: AnalogChannel.System, id: nat): (captured: seq<seq<seq<int>>>)
    requires Intact(t, id)
    ensures |captured| == |t.logger.written|
  {
    seq(|t.logger.written|, k requires 0 <= k < |t.logger.written| => assert IntactAt(t, id, k); CapturedAt(t, k))
  }

  function Flatten(groups: seq<seq<seq<int>>>): seq<seq<int>> {
    if groups == [] then [] else Flatten(groups[..|groups| - 1]) + groups[|groups| - 1]
  }

  /**
   * The application's registry: records carry ids of registered channels with plain names, the analog channel's id is
   * used for analog records only, and no other channel's line would be taken for an analog one.
   */
  ghost predicate WellNamed<C>(t: AnalogChannel.System, r: Reg.State<C>, names: C -> string, id: nat) {
    && (forall c | c in r.ids :: RoundTrip.Plain(names(c)))
    && !Contains(NameAt(r, names, id), "can") && Contains(NameAt(r, names, id), "analog")
    && (forall i | 0 <= i < |t.logger.log| :: RecordNamed(r, names, t.logger.log[i]))
  }

  ghost predicate RecordNamed<C>(r: Reg.State<C>, names: C -> string, record: Record) {
    && Names.Resolves(r, record)
    && (!AnalogChannel.IsAnalog(record) ==>
          Contains(NameAt(r, names, record.id), "can") || !Contains(NameAt(r, names, record.id), "analog"))
  }

  /** One line that extends the windows by this packet of whole frames, or by none. */
  ghost predicate ExtendsBy(line: string, packet: seq<seq<int>>) {
    && IsLine(line)
    && match EffectOf(line)
       case Extends(_, samples) => packet == [samples] && |samples| % NO_ANALOG_CHANNELS == 0
       case _ => packet == []
  }

  lemma WholeLineEffect(id: nat, name: string, samples: seq<nat>)
    requires RoundTrip.Plain(name)
    ensures IsLine(Line(id, name, samples)) && EffectOf(Line(id, name, samples)) == Intended(id, name, samples)
  {
    PrintedEffect(id, name, samples, "");
    RoundTrip.ReadLine(id, name, samples, "");
    assert Line(id, name, samples) + "" == Line(id, name, samples);
    PrintedIsLine(id, name, samples);
  }

  /** An analog line extends the windows by its samples. */
  lemma AnalogLine(id: nat, name: string, samples: seq<nat>)
    requires RoundTrip.Plain(name) && !Contains(name, "can") && Contains(name, "analog")
    requires |samples| % NO_ANALOG_CHANNELS == 0
    ensures ExtendsBy(Line(id, name, samples), [samples])
  {
    WholeLineEffect(id, name, samples);
  }

  lemma OtherLine(id: nat, name: string, samples: seq<nat>)
    requires RoundTrip.Plain(name) && (Contains(name, "can") || !Contains(name, "analog"))
    ensures ExtendsBy(Line(id, name, samples), [])
  {
    WholeLineEffect(id, name, samples);
  }

  /** A printed line extends the windows by the captured half, or leaves them alone. */
  lemma PrintedEffectAt<C>(
      t: AnalogChannel.System, id: nat, r: Reg.State<C>, names: C -> string, others: nat -> seq<Byte>, k: nat)
    requires IntactAt(t, id, k) && WellNamed(t, r, names, id) && CoveredAt(t, others, k)
    ensures ExtendsBy(PrintedAt(t, r, names, others, k), CapturedAt(t, k))
  {
    var record := t.logger.written[k].record;
    var name, samples := NameAt(r, names, record.id), Samples(BytesAt(t, others, k), record.size);
    assert RecordNamed(r, names, t.logger.log[t.logger.pops[k]]);
    if AnalogChannel.IsAnalog(record) {
      AnalogLine(record.id, name, samples);
    } else {
      OtherLine(record.id, name, samples);
    }
  }

  lemma {:induction false} LinesShow(lines: seq<string>, packets: seq<seq<seq<int>>>, channel: nat)
    requires |lines| == |packets| && forall k | 0 <= k < |lines| :: ExtendsBy(lines[k], packets[k])
    ensures AfterLines(Zeros(), lines, channel) == Window(Flatten(packets), channel)
    ensures forall i | 0 <= i < |Flatten(packets)| :: |Flatten(packets)[i]| % NO_ANALOG_CHANNELS == 0
  {
    if lines != [] {
      var n := |lines| - 1;
      LinesShow(lines[..n], packets[..n], channel);
      assert ExtendsBy(lines[n], packets[n]);
      var before := Flatten(packets[..n]);
      if EffectOf(lines[n]).Extends? {
        assert (before + packets[n])[..|before|] == before;
      } else {
        assert before + packets[n] == before;
      }
    }
  }

  lemma AllLines(lines: seq<string>, packets: seq<seq<seq<int>>>)
    requires |lines| == |packets| && forall k | 0 <= k < |lines| :: ExtendsBy(lines[k], packets[k])
    ensures forall k | 0 <= k < |lines| :: IsLine(lines[k])
  {
    forall k | 0 <= k < |lines|
      ensures IsLine(lines[k])
    {
      assert ExtendsBy(lines[k], packets[k]);
    }
  }

  lemma ReadAllShows(lines: seq<string>, packets: seq<seq<seq<int>>>, channel: nat)
    requires |lines| == |packets| && forall k | 0 <= k < |lines| :: ExtendsBy(lines[k], packets[k])
    requires channel < NO_ANALOG_CHANNELS
    ensures AfterLines(Zeros(), ReadAll(Wire(lines)), channel)
      == KeepLast(Zeros() + Stride(Stream(Flatten(packets)), channel), DATA_DISPLAYED)
  {
    AllLines(lines, packets);
    LinesShow(lines, packets, channel);
    ReadAllOfWire(lines);
    WindowShowsStream(Flatten(packets), channel);
  }

  lemma AllPrinted<C>(
      t: AnalogChannel.System, id: nat, r: Reg.State<C>, names: C -> string, others: nat -> seq<Byte>)
    requires Intact(t, id) && WellNamed(t, r, names, id) && Covered(t, others)
    ensures forall k | 0 <= k < |t.payloads| :: ExtendsBy(Printed(t, r, names, others)[k], Captured(t, id)[k])
  {
    forall k | 0 <= k < |t.payloads|
      ensures ExtendsBy(Printed(t, r, names, others)[k], Captured(t, id)[k])
    {
      assert IntactAt(t, id, k) && CoveredAt(t, others, k);
      PrintedEffectAt(t, id, r, names, others, k);
    }
  }

  lemma AllCovered(t: AnalogChannel.System, id: nat, others: nat -> seq<Byte>)
    requires Intact(t, id) && |t.logger.written| == |t.payloads| && OthersCovered(t, others)
    ensures Covered(t, others)
  {
    forall k | 0 <= k < |t.payloads|
      ensures CoveredAt(t, others, k)
    {
      assert IntactAt(t, id, k);
    }
  }

  ghost predicate OthersCovered(t: AnalogChannel.System, others: nat -> seq<Byte>) {
    forall k | 0 <= k < |t.logger.written| && !AnalogChannel.IsAnalog(t.logger.written[k].record) ::
      t.logger.written[k].record.size + t.logger.written[k].record.size % 2 <= |others(k)|
  }

  /**
   * From the ADC to the plot, for every timely run: once everything printed has been read, the window of analog channel
   * k is the last 4000 of 4000 zeros followed by the samples at the positions congruent to k modulo 4 of the
   * half-buffers written, each as it was when its conversion ended. Records of other channels may be interleaved, and
   * the names come from the channel table.
   */
  lemma DisplayShowsCaptured<C>(
      cap: nat, id: nat, s: AnalogChannel.System, schedule: seq<AnalogChannel.Move>,
      r: Reg.State<C>, names: C -> string, others: nat -> seq<Byte>, channel: nat)
    requires 1 <= cap && AnalogChannel.Starts(s) && AnalogChannel.Timely(cap, id, s, schedule)
    requires WellNamed(AnalogChannel.Exec(cap, id, s, schedule), r, names, id) && channel < NO_ANALOG_CHANNELS
    requires OthersCovered(AnalogChannel.Exec(cap, id, s, schedule), others)
    ensures var t := AnalogChannel.Exec(cap, id, s, schedule);
      && Intact(t, id) && Covered(t, others)
      && AfterLines(Zeros(), ReadAll(Wire(Printed(t, r, names, others))), channel)
           == KeepLast(Zeros() + Stride(Stream(Flatten(Captured(t, id))), channel), DATA_DISPLAYED)
  {
    var t := AnalogChannel.Exec(cap, id, s, schedule);
    TimelyIntact(cap, id, s, schedule);
    PayloadPerWrite(cap, id, s, schedule);
    AllCovered(t, id, others);
    AllPrinted(t, id, r, names, others);
    ReadAllShows(Printed(t, r, names, others), Captured(t, id), channel);
  }

  lemma PayloadPerWrite(cap: nat, id: nat, s: AnalogChannel.System, schedule: seq<AnalogChannel.Move>)
    requires 1 <= cap && AnalogChannel.Starts(s) && AnalogChannel.Timely(cap, id, s, schedule)
    ensures |AnalogChannel.Exec(cap, id, s, schedule).payloads|
      == |AnalogChannel.Exec(cap, id, s, schedule).logger.written|
  {
    AtomicLogger.InitialInv(cap);
    AnalogChannel.FreshInv(cap, s);
    AnalogChannel.ExecInv(cap, id, s, schedule);
  }
}
