/** The GPS monitor of serial_bb_gps.py: it assembles NMEA sentences from the bit-banged
    serial line, picks out the GGA fixes and keeps the satellite count in a snapshot for
    the display driver. */
module GpsMonitor {
  import opened Common
  import opened PyStr
  import opened PyNum
  import opened FrameAssembly

  /** An NMEA sentence starts with '$'. */
  const Bol: char := '$'

  /** The fields of a parsed GGA sentence that the monitor uses: the UTC time and the
      satellite count as pynmea2 hands them over (None for an empty field). */
  datatype GgaFix = GgaFix(hour: int, minute: int, second: int, numSats: Option<string>)

  /** The sentence parser (pynmea2.parse): None where it raises ParseError. */
  type Parser = string -> Option<GgaFix>

  /** What `parseGPS` does with one sentence. */
  datatype GpsOutcome =
    | NotCandidate    // no "GGA" after the first character: ignored
    | ParseFailed     // ParseError reported, nothing written
    | SatsRaised      // `int(num_sats)` raises and the process ends
    | Reported(hour: int, minute: int, second: int, sats: Option<int>)  // local time; the count written, if any

  /** A sentence is a GGA candidate when "GGA" first occurs after its first character. */
  predicate IsCandidate(xstr: string)
  {
    Find(xstr, "GGA") > 0
  }

  /** Daylight saving adds two hours to UTC, standard time one. */
  function DstOffset(isDst: bool): (r: int)
    ensures r == 1 || r == 2
    ensures r == 2 <==> isDst
  {
    if isDst then 2 else 1
  }

  /** `parseGPS` in serial_bb_gps.py, with the parser and `is_dst` as inputs. */
  function ParseGps(xstr: string, parse: Parser, isDst: bool): (r: GpsOutcome)
    ensures r.NotCandidate? <==> !IsCandidate(xstr)
    ensures r.ParseFailed? <==> IsCandidate(xstr) && parse(xstr).None?
    ensures r.SatsRaised? <==>
              IsCandidate(xstr) && parse(xstr).Some? &&
              (parse(xstr).value.numSats.None? || ParseInt(parse(xstr).value.numSats.value).None?)
    ensures r.Reported? ==>
              && parse(xstr).Some? && parse(xstr).value.numSats.Some?
              && r.hour == parse(xstr).value.hour + DstOffset(isDst)
              && r.minute == parse(xstr).value.minute && r.second == parse(xstr).value.second
              && var n := ParseInt(parse(xstr).value.numSats.value);
                 n.Some? && (r.sats.Some? <==> n.value > 0) && (r.sats.Some? ==> r.sats.value == n.value)
  {
    if !IsCandidate(xstr) then NotCandidate
    else match parse(xstr)
      case None => ParseFailed
      case Some(fix) =>
        if fix.numSats.None? then SatsRaised
        else match ParseInt(fix.numSats.value)
          case None => SatsRaised
          case Some(n) =>
            Reported(fix.hour + DstOffset(isDst), fix.minute, fix.second, if n > 0 then Some(n) else None)
  }

  /** A sentence starting with "GGA" is not a candidate; "$GPGGA" is. */
  lemma CandidateTest(t: string)
    ensures !IsCandidate("GGA" + t)
    ensures IsCandidate("$GPGGA" + t)
  {
    var a := "GGA" + t;
    assert a[0..3] == "GGA";
    assert OccursAt(a, "GGA", 0);
    FindSpec(a, "GGA");
    var g := "$GPGGA" + t;
    assert g[3..6] == "GGA";
    assert OccursAt(g, "GGA", 3);
    assert g[0..3][0] == '$' && g[1..4][1] == 'P' && g[2..5][0] == 'P';
    assert !OccursAt(g, "GGA", 0) && !OccursAt(g, "GGA", 1) && !OccursAt(g, "GGA", 2);
    FindSpec(g, "GGA");
  }

  /** The local hour is not wrapped: under daylight saving it is the UTC hour plus two,
      so 23 UTC becomes 25. */
  lemma HourNotWrapped(xstr: string, parse: Parser, fix: GgaFix, d: string)
    requires IsCandidate(xstr) && parse(xstr) == Some(fix) && fix.numSats == Some(d)
    requires d != [] && AllDigits(d)
    ensures ParseGps(xstr, parse, true).Reported?
    ensures ParseGps(xstr, parse, true).hour == fix.hour + 2
    ensures fix.hour == 23 ==> ParseGps(xstr, parse, true).hour == 25
  {
    ParseDigits(d);
  }

  /** `write_json_data(num_sats)`: only "sat_nbr" is set; every other key keeps its value. */
  function WriteSats(d: map<string, JsonValue>, n: int): (r: map<string, JsonValue>)
    ensures r.Keys == d.Keys + {"sat_nbr"}
    ensures r["sat_nbr"] == JInt(n)
    ensures forall k :: k in d && k != "sat_nbr" ==> r[k] == d[k]
  {
    d["sat_nbr" := JInt(n)]
  }

  /** One read together with the daylight-saving flag at the time it completes. */
  datatype Reading = Reading(chunk: Chunk, isDst: bool)

  /** The monitor's whole state: the assembler, the snapshot, and whether the process has
      ended on an exception. */
  datatype MonState = MonState(asm: AsmState, display: map<string, JsonValue>, halted: bool)

  /** One pass of the read loop: a completed sentence whose count is positive writes it,
      a count `int` cannot read ends the process, and anything else leaves the snapshot. */
  function MonitorStep(m: MonState, parse: Parser, r: Reading): (n: MonState)
    ensures m.halted || r.chunk.count == 0 ==> n == m
    ensures !m.halted ==> n.asm == Next(m.asm, Bol, r.chunk).state
    ensures !m.halted ==>
              var st := Next(m.asm, Bol, r.chunk);
              n.halted == (st.sentence.Some? && ParseGps(st.sentence.value, parse, r.isDst).SatsRaised?)
    ensures !m.halted ==>
              var st := Next(m.asm, Bol, r.chunk);
              var o := if st.sentence.Some? then ParseGps(st.sentence.value, parse, r.isDst) else NotCandidate;
              n.display == if o.Reported? && o.sats.Some? then WriteSats(m.display, o.sats.value) else m.display
  {
    if m.halted then m
    else
      var step := Next(m.asm, Bol, r.chunk);
      match step.sentence
      case None => MonState(step.state, m.display, false)
      case Some(s) =>
        match ParseGps(s, parse, r.isDst)
        case Reported(_, _, _, Some(n)) => MonState(step.state, WriteSats(m.display, n), false)
        case SatsRaised => MonState(step.state, m.display, true)
        case _ => MonState(step.state, m.display, false)
  }

  /** A completed GGA sentence whose satellite field is a digit string publishes that
      count when it is positive and leaves the snapshot as it was when it is zero. */
  lemma SatsPublished(m: MonState, parse: Parser, r: Reading, s: string, fix: GgaFix, d: string)
    requires !m.halted && Next(m.asm, Bol, r.chunk).sentence == Some(s)
    requires IsCandidate(s) && parse(s) == Some(fix) && fix.numSats == Some(d)
    requires d != [] && AllDigits(d)
    ensures !MonitorStep(m, parse, r).halted
    ensures DigitsValue(d) > 0 ==> MonitorStep(m, parse, r).display == WriteSats(m.display, DigitsValue(d))
    ensures DigitsValue(d) == 0 ==> MonitorStep(m, parse, r).display == m.display
  {
    ParseDigits(d);
  }

  function MonitorRun(m: MonState, parse: Parser, rs: seq<Reading>): MonState
    decreases |rs|
  {
    if rs == [] then m else MonitorRun(MonitorStep(m, parse, rs[0]), parse, rs[1..])
  }

  /** A stored satellite count is a positive integer. */
  predicate SatsPositive(d: map<string, JsonValue>)
  {
    "sat_nbr" in d ==> d["sat_nbr"].JInt? && d["sat_nbr"].i > 0
  }

  /** One pass changes at most "sat_nbr", and only to a positive count. */
  lemma StepTouchesOnlySats(m: MonState, parse: Parser, r: Reading)
    requires SatsPositive(m.display)
    ensures SatsPositive(MonitorStep(m, parse, r).display)
    ensures MonitorStep(m, parse, r).display.Keys <= m.display.Keys + {"sat_nbr"}
    ensures forall k :: k in m.display && k != "sat_nbr" ==>
              k in MonitorStep(m, parse, r).display && MonitorStep(m, parse, r).display[k] == m.display[k]
  {
  }

  /** Over any run, every key other than "sat_nbr" keeps its value, no other key appears,
      and a stored satellite count stays positive. */
  lemma {:induction false} RunTouchesOnlySats(m: MonState, parse: Parser, rs: seq<Reading>)
    requires SatsPositive(m.display)
    ensures SatsPositive(MonitorRun(m, parse, rs).display)
    ensures MonitorRun(m, parse, rs).display.Keys <= m.display.Keys + {"sat_nbr"}
    ensures forall k :: k in m.display && k != "sat_nbr" ==>
              k in MonitorRun(m, parse, rs).display && MonitorRun(m, parse, rs).display[k] == m.display[k]
    decreases |rs|
  {
    if rs != [] {
      var m1 := MonitorStep(m, parse, rs[0]);
      StepTouchesOnlySats(m, parse, rs[0]);
      RunTouchesOnlySats(m1, parse, rs[1..]);
    }
  }

  /** The running monitor: its assembler (begin marker '$'), the snapshot, and whether
      the process has ended. */
  class Monitor {
    const asm: FrameAssembler
    const parse: Parser
    var displayData: map<string, JsonValue>
    var halted: bool

    function State(): MonState
      reads this, asm
    {
      MonState(asm.State(), displayData, halted)
    }

    /** Start-up: a fresh assembler and an empty snapshot. */
    constructor (parse: Parser)
      ensures fresh(asm) && asm.bol == Bol && this.parse == parse
      ensures State() == MonState(Initial, map[], false)
    {
      asm := new FrameAssembler(Bol);
      this.parse := parse;
      displayData := map[];
      halted := false;
    }

    /** One pass of the read loop, with `parseGPS` on a completed sentence. */
    method Poll(r: Reading)
      requires asm.bol == Bol
      modifies this, asm
      ensures State() == MonitorStep(old(State()), parse, r)
    {
      if halted {
        return;
      }
      var sentence := asm.Step(r.chunk.count, r.chunk.text);
      if sentence.Some? {
        match ParseGps(sentence.value, parse, r.isDst)
        case Reported(_, _, _, Some(n)) =>
          displayData := WriteSats(displayData, n);
        case SatsRaised =>
          halted := true;
        case _ =>
      }
    }

    /** A finite stretch of the read loop. */
    method Listen(rs: seq<Reading>)
      requires asm.bol == Bol
      modifies this, asm
      ensures State() == MonitorRun(old(State()), parse, rs)
    {
      var i := 0;
      assert rs[i..] == rs;
      while i < |rs|
        invariant 0 <= i <= |rs|
        invariant MonitorRun(old(State()), parse, rs) == MonitorRun(State(), parse, rs[i..])
      {
        assert rs[i..][0] == rs[i] && rs[i..][1..] == rs[i + 1..];
        Poll(rs[i]);
        i := i + 1;
      }
    }
  }
}
