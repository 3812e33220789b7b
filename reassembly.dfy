/** The fixed-length reassembler of Serial_counter_monbb.py. The counter's report is 26
    bytes long. A read of exactly 26 bytes is decoded on its own; shorter reads are
    collected in `prevData` (each one `rstrip`ped) while `prevCount` adds up their byte
    counts, and the collected text is decoded when that sum is exactly 26. */
module Reassembly {
  import opened Common
  import opened PyStr
  import opened CounterLine

  /** The length of a whole report, in bytes. */
  const ReportBytes: nat := 26

  /** One read: its byte count and its UTF-8 decoding, None where decoding raises. */
  datatype RawChunk = RawChunk(count: nat, text: Option<string>)

  /** A report line printed by the loop; `rebuilt` marks one collected from short reads. */
  datatype Printed = Printed(report: Report, rebuilt: bool)

  /** The loop's globals, the accumulators `prev_data_rb` and `prev_rb_count_int`; whether
      `main`'s local `counter` has been bound by a successful two-field split; and whether
      the process has ended. */
  datatype RbState = RbState(prevData: string, prevCount: nat, counterBound: bool, halted: bool)

  /** The state the loop starts in. */
  const Empty: RbState := RbState("", 0, false, false)

  datatype RbStep = RbStep(state: RbState, printed: Option<Printed>)

  function AsPrinted(r: Option<Report>, rebuilt: bool): (p: Option<Printed>)
    ensures p.Some? <==> r.Some?
    ensures p.Some? ==> p.value == Printed(r.value, rebuilt)
  {
    if r.None? then None else Some(Printed(r.value, rebuilt))
  }

  /** `(gate, counter) = line.split(',')` unpacks, and so binds `counter`. */
  predicate SplitsInTwo(line: string)
  {
    CountChar(line, ',') == 1
  }

  /** One pass of the read loop. When the collected text fails to split in two, the
      `except` handler prints `counter`; before any split has bound it, that raises
      UnboundLocalError and the process ends. */
  function RbNext(s: RbState, c: RawChunk): (r: RbStep)
    ensures s.halted ==> r == RbStep(s, None)
    ensures r.printed.Some? ==> c.text.Some? && (c.count == ReportBytes || s.prevCount + c.count == ReportBytes)
    ensures r.printed.Some? ==> (r.printed.value.rebuilt <==> c.count < ReportBytes)
    ensures r.state.halted <==>
              s.halted ||
              (0 < c.count < ReportBytes && c.text.Some? && s.prevCount + c.count == ReportBytes &&
               !s.counterBound && !SplitsInTwo(s.prevData + RStrip(c.text.value)))
    ensures s.counterBound ==> r.state.counterBound
    ensures !s.halted && c.count == ReportBytes && c.text.Some? ==>
              r.printed == AsPrinted(DecodeLine(RStrip(c.text.value)), false)
    ensures !s.halted && 0 < c.count < ReportBytes && c.text.Some? && s.prevCount + c.count == ReportBytes ==>
              r.printed == (if SplitsInTwo(s.prevData + RStrip(c.text.value))
                            then AsPrinted(DecodeLine(s.prevData + RStrip(c.text.value)), true) else None)
  {
    if s.halted then RbStep(s, None)
    else if 0 < c.count < ReportBytes then
      if c.text.None? then RbStep(s, None)
      else
        var data := s.prevData + RStrip(c.text.value);
        var count := s.prevCount + c.count;
        if count != ReportBytes then RbStep(RbState(data, count, s.counterBound, false), None)
        else if SplitsInTwo(data) then RbStep(RbState(data, count, true, false), AsPrinted(DecodeLine(data), true))
        else RbStep(RbState(data, count, s.counterBound, !s.counterBound), None)
    else if c.count == ReportBytes then
      var bound := s.counterBound || (c.text.Some? && SplitsInTwo(RStrip(c.text.value)));
      RbStep(RbState("", 0, bound, false), if c.text.None? then None else AsPrinted(DecodeLine(RStrip(c.text.value)), false))
    else RbStep(s, None)
  }

  /** A short read that decodes is added to the collection, whether or not the collected
      text then decodes; a short read that does not decode, an empty read and an
      over-long read change nothing. */
  lemma ShortReads(s: RbState, c: RawChunk)
    requires !s.halted
    ensures 0 < c.count < ReportBytes && c.text.Some? ==>
              RbNext(s, c).state.prevData == s.prevData + RStrip(c.text.value) &&
              RbNext(s, c).state.prevCount == s.prevCount + c.count
    ensures (0 < c.count < ReportBytes && c.text.None?) || c.count == 0 || c.count > ReportBytes ==>
              RbNext(s, c) == RbStep(s, None)
  {
  }

  /** A whole report empties the collection and is decoded on its own; a line that splits
      in two binds `counter`. */
  lemma WholeReport(s: RbState, text: string)
    requires !s.halted
    ensures RbNext(s, RawChunk(ReportBytes, Some(text))) ==
              RbStep(RbState("", 0, s.counterBound || SplitsInTwo(RStrip(text)), false),
                     AsPrinted(DecodeLine(RStrip(text)), false))
  {
  }

  /** The collection is decoded exactly when the byte counts add up to 26; a successful
      decode of the collection does not empty it. */
  lemma RebuiltDecode(s: RbState, c: RawChunk)
    requires !s.halted && 0 < c.count < ReportBytes && c.text.Some? && s.prevCount + c.count == ReportBytes
    ensures RbNext(s, c).printed == AsPrinted(DecodeLine(s.prevData + RStrip(c.text.value)), true)
    ensures RbNext(s, c).state.prevData == s.prevData + RStrip(c.text.value)
    ensures RbNext(s, c).state.prevCount == ReportBytes
  {
  }

  /** Collected text of 26 bytes that does not split in two, before any split has bound
      `counter`, ends the process without printing. */
  lemma UnboundCounterEndsProcess(s: RbState, c: RawChunk)
    requires !s.halted && !s.counterBound && 0 < c.count < ReportBytes && c.text.Some?
    requires s.prevCount + c.count == ReportBytes && !SplitsInTwo(s.prevData + RStrip(c.text.value))
    ensures RbNext(s, c) == RbStep(RbState(s.prevData + RStrip(c.text.value), ReportBytes, false, true), None)
  {
  }

  /** The state after a run of reads. */
  function RbRun(s: RbState, cs: seq<RawChunk>): RbState
    decreases |cs|
  {
    if cs == [] then s else RbRun(RbNext(s, cs[0]).state, cs[1..])
  }

  /** The line one read prints, as a sequence of none or one. */
  function LinesOf(p: Option<Printed>): seq<Printed>
  {
    if p.Some? then [p.value] else []
  }

  /** Every line the loop prints along a run, in order. */
  function RbPrinted(s: RbState, cs: seq<RawChunk>): seq<Printed>
    decreases |cs|
  {
    if cs == [] then []
    else
      var step := RbNext(s, cs[0]);
      LinesOf(step.printed) + RbPrinted(step.state, cs[1..])
  }

  /** The first read of a run: the state it leaves, and the line it prints moved into
      what has been printed so far. */
  lemma RbAdvance(s: RbState, cs: seq<RawChunk>, lines: seq<Printed>)
    requires cs != []
    ensures RbRun(s, cs) == RbRun(RbNext(s, cs[0]).state, cs[1..])
    ensures var step := RbNext(s, cs[0]);
            lines + RbPrinted(s, cs) == (lines + LinesOf(step.printed)) + RbPrinted(step.state, cs[1..])
  {
    var step := RbNext(s, cs[0]);
    var rest := RbPrinted(step.state, cs[1..]);
    assert RbPrinted(s, cs) == LinesOf(step.printed) + rest;
    assert lines + (LinesOf(step.printed) + rest) == (lines + LinesOf(step.printed)) + rest;
  }

  /** No read of `cs` is a whole report. */
  predicate NoWholeReport(cs: seq<RawChunk>)
  {
    forall k :: 0 <= k < |cs| ==> cs[k].count != ReportBytes
  }

  /** Once the collected byte count has passed 26, nothing is printed again and the count
      stays past 26 until a whole report arrives. */
  lemma {:induction false} OvershootSticks(s: RbState, cs: seq<RawChunk>)
    requires s.prevCount > ReportBytes && NoWholeReport(cs)
    ensures RbPrinted(s, cs) == []
    ensures RbRun(s, cs).prevCount >= s.prevCount
    decreases |cs|
  {
    if cs != [] {
      var step := RbNext(s, cs[0]);
      assert step.printed == None && step.state.prevCount >= s.prevCount;
      assert NoWholeReport(cs[1..]) by {
        forall k | 0 <= k < |cs[1..]| ensures cs[1..][k].count != ReportBytes {
          assert cs[1..][k] == cs[k + 1];
        }
      }
      OvershootSticks(step.state, cs[1..]);
    }
  }

  /** Once the process has ended, no read changes anything and nothing is printed. */
  lemma {:induction false} HaltedStays(s: RbState, cs: seq<RawChunk>)
    requires s.halted
    ensures RbRun(s, cs) == s && RbPrinted(s, cs) == []
    decreases |cs|
  {
    if cs != [] {
      HaltedStays(s, cs[1..]);
    }
  }

  /** Once a split has bound `counter`, the process never ends on the handler's print. */
  lemma {:induction false} BoundNeverExits(s: RbState, cs: seq<RawChunk>)
    requires s.counterBound && !s.halted
    ensures RbRun(s, cs).counterBound && !RbRun(s, cs).halted
    decreases |cs|
  {
    if cs != [] {
      BoundNeverExits(RbNext(s, cs[0]).state, cs[1..]);
    }
  }

  /** From the start, two short reads that add up to 26 bytes and whose text holds two
      commas end the process, and nothing is printed. */
  lemma FirstRebuiltThreeFieldsEnds(t1: string, t2: string, n1: nat, n2: nat)
    requires 0 < n1 && 0 < n2 && n1 + n2 == ReportBytes
    requires CountChar(RStrip(t1) + RStrip(t2), ',') == 2
    ensures RbRun(Empty, [RawChunk(n1, Some(t1)), RawChunk(n2, Some(t2))]).halted
    ensures RbPrinted(Empty, [RawChunk(n1, Some(t1)), RawChunk(n2, Some(t2))]) == []
  {
    var c1, c2 := RawChunk(n1, Some(t1)), RawChunk(n2, Some(t2));
    var s1 := RbState(RStrip(t1), n1, false, false);
    assert RbNext(Empty, c1) == RbStep(s1, None) by {
      assert "" + RStrip(t1) == RStrip(t1);
    }
    var s2 := RbState(RStrip(t1) + RStrip(t2), ReportBytes, false, true);
    UnboundCounterEndsProcess(s1, c2);
    HaltedStays(s2, []);
    assert [c1, c2][1..] == [c2] && [c2][1..] == [];
  }

  /** The loop's globals `prev_data_rb` and `prev_rb_count_int`, whether `counter` is
      bound, and whether the process has ended. */
  class Reassembler {
    var prevData: string
    var prevCount: nat
    var counterBound: bool
    var halted: bool

    function State(): RbState
      reads this
    {
      RbState(prevData, prevCount, counterBound, halted)
    }

    constructor ()
      ensures State() == Empty
    {
      prevData, prevCount, counterBound, halted := "", 0, false, false;
    }

    /** One read of `count` bytes whose decoding is `text`. */
    method Step(count: nat, text: Option<string>) returns (printed: Option<Printed>)
      modifies this
      ensures RbStep(State(), printed) == RbNext(old(State()), RawChunk(count, text))
    {
      printed := None;
      if halted {
        return;
      }
      if 0 < count < ReportBytes && text.Some? {
        printed := ReadPart(count, text.value);
      } else if count == ReportBytes {
        printed := ReadWhole(text);
      }
    }

    /** A short read: its text is added to the accumulators, and the accumulated text
        is decoded once the byte count reaches a whole report. */
    method ReadPart(count: nat, text: string) returns (printed: Option<Printed>)
      requires !halted && 0 < count < ReportBytes
      modifies this
      ensures RbStep(State(), printed) == RbNext(old(State()), RawChunk(count, Some(text)))
    {
      var dataRb := prevData + RStrip(text);
      var rbCount := prevCount + count;
      var bound, ended := counterBound, false;
      printed := None;
      if rbCount == ReportBytes {
        if SplitsInTwo(dataRb) {
          bound := true;
          printed := AsPrinted(DecodeLine(dataRb), true);
        } else if !counterBound {
          // printing the unbound `counter` raises: the process ends
          ended := true;
        }
      }
      prevData, prevCount, counterBound, halted := dataRb, rbCount, bound, ended;
    }

    /** A whole report in one read: both accumulators are emptied, then the text is decoded. */
    method ReadWhole(text: Option<string>) returns (printed: Option<Printed>)
      requires !halted
      modifies this
      ensures RbStep(State(), printed) == RbNext(old(State()), RawChunk(ReportBytes, text))
    {
      printed := None;
      prevData := "";
      prevCount := 0;
      if text.Some? {
        var dataS := RStrip(text.value);
        if SplitsInTwo(dataS) {
          counterBound := true;
        }
        var line := DecodeLine(dataS);
        if line.Some? {
          printed := Some(Printed(line.value, false));
        }
      }
    }

    /** A finite stretch of reads; the lines printed, in order. */
    method Feed(chunks: seq<RawChunk>) returns (lines: seq<Printed>)
      modifies this
      ensures State() == RbRun(old(State()), chunks)
      ensures lines == RbPrinted(old(State()), chunks)
    {
      lines := [];
      var i := 0;
      assert chunks[i..] == chunks;
      while i < |chunks|
        invariant 0 <= i <= |chunks|
        invariant RbRun(old(State()), chunks) == RbRun(State(), chunks[i..])
        invariant RbPrinted(old(State()), chunks) == lines + RbPrinted(State(), chunks[i..])
      {
        ghost var before := State();
        var p := Step(chunks[i].count, chunks[i].text);
        assert chunks[i..][0] == RawChunk(chunks[i].count, chunks[i].text) && chunks[i..][1..] == chunks[i + 1..];
        RbAdvance(before, chunks[i..], lines);
        lines := lines + LinesOf(p);
        i := i + 1;
      }
    }
  }
}
