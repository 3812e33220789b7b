/** The counter monitor of serial_bb_counter.py: it assembles the counter's reports from
    the bit-banged serial line, takes them apart and keeps a three-key snapshot for the
    display driver. */
module CounterMonitor {
  import opened Common
  import opened PyStr
  import opened FrameAssembly

  /** A counter report starts with "Gate". */
  const Bol: char := 'G'

  /** The gate period chosen by `set_gate`: mode 10 selects the long gate. */
  function GateFor(mode: int): (r: string)
    ensures r == "10000s" <==> mode == 10
    ensures r == "1000s" <==> mode != 10
  {
    if mode == 10 then "10000s" else "1000s"
  }

  /** What `process_data` does with one assembled report. */
  datatype Processed =
    | NotThreeFields   // reported, nothing written
    | BadCounterField  // ValueError caught and reported, nothing written
    | GateFieldRaised  // ValueError escapes and ends the process
    | Decoded(count: string, gate: string)  // the tokens handed to write_json_data

  /** The comma fields and space tokens of a well-formed report: a gate field
      `gateTitle + " " + gate`, a satellite field, and a counter field `count + " " + suffix`. */
  predicate ReportOf(rcv: string, gateTitle: string, gate: string, sat: string, count: string, suffix: string)
  {
    && rcv == gateTitle + " " + gate + "," + sat + "," + count + " " + suffix
    && ',' !in gateTitle && ',' !in gate && ',' !in sat && ',' !in count && ',' !in suffix
    && ' ' !in gateTitle && ' ' !in gate && ' ' !in count && ' ' !in suffix
  }

  /** `process_data`: exactly three comma fields, a gate field of exactly two space tokens
      (anything else raises), and a counter field of exactly two space tokens (anything else
      is caught). */
  function ProcessData(rcv: string): (r: Processed)
    ensures r.NotThreeFields? <==> CountChar(rcv, ',') != 2
    ensures r.GateFieldRaised? <==> CountChar(rcv, ',') == 2 && CountChar(Split(rcv, ',')[0], ' ') != 1
    ensures r.BadCounterField? <==>
              CountChar(rcv, ',') == 2 && CountChar(Split(rcv, ',')[0], ' ') == 1 && CountChar(Split(rcv, ',')[2], ' ') != 1
    ensures r.Decoded? ==> ' ' !in r.count && ' ' !in r.gate
  {
    var fields := Split(rcv, ',');
    if |fields| != 3 then NotThreeFields
    else
      var gateTokens := Split(fields[0], ' ');
      if |gateTokens| != 2 then GateFieldRaised
      else
        var counterTokens := Split(fields[2], ' ');
        if |counterTokens| != 2 then BadCounterField
        else Decoded(counterTokens[0], gateTokens[1])
  }

  /** A well-formed report decodes to its count token, verbatim, and its gate literal. */
  lemma ProcessWellFormed(rcv: string, gateTitle: string, gate: string, sat: string, count: string, suffix: string)
    requires ReportOf(rcv, gateTitle, gate, sat, count, suffix)
    ensures ProcessData(rcv) == Decoded(count, gate)
  {
    var gateField := gateTitle + " " + gate;
    var counterField := count + " " + suffix;
    assert rcv == Join([gateField, sat, counterField], ',') by {
      assert Join([counterField], ',') == counterField;
      JoinCons(sat, [counterField], ',');
      JoinCons(gateField, [sat, counterField], ',');
      assert [gateField] + [sat, counterField] == [gateField, sat, counterField];
      assert [sat] + [counterField] == [sat, counterField];
    }
    assert ',' !in gateField && ',' !in counterField;
    SplitJoin([gateField, sat, counterField], ',');
    SplitWords(gateTitle, gate);
    SplitWords(count, suffix);
  }

  /** Two space-free words joined by one space split back into those two words. */
  lemma SplitWords(a: string, b: string)
    requires ' ' !in a && ' ' !in b
    ensures Split(a + " " + b, ' ') == [a, b]
  {
    assert a + " " + b == a + [' '] + b;
    SplitPrefix(a, ' ', b);
    SplitNoSep(b, ' ');
  }

  /** Every decoded report is well formed: the count and the gate are the tokens in those
      places of the report. */
  lemma DecodedIsWellFormed(rcv: string)
    requires ProcessData(rcv).Decoded?
    ensures exists gateTitle, sat, suffix ::
              ReportOf(rcv, gateTitle, ProcessData(rcv).gate, sat, ProcessData(rcv).count, suffix)
  {
    var fields := Split(rcv, ',');
    var g := Split(fields[0], ' ');
    var c := Split(fields[2], ' ');
    SplitThree(rcv, ',');
    SplitTwo(fields[0], ' ');
    SplitTwo(fields[2], ' ');
    NotInParts(',', g[0] + " ", g[1]);
    NotInParts(',', g[0], " ");
    NotInParts(',', c[0] + " ", c[1]);
    NotInParts(',', c[0], " ");
    assert rcv == g[0] + " " + g[1] + "," + fields[1] + "," + c[0] + " " + c[1];
    assert ReportOf(rcv, g[0], g[1], fields[1], c[0], c[1]);
  }

  /** `write_json_data(gate, counter, tstamp)` on the snapshot: it assigns exactly the
      keys "counter", "gate" and "tstamp", and every other key keeps its value. */
  function WriteJsonData(d: map<string, JsonValue>, gate: JsonValue, counter: JsonValue, tstamp: int): (r: map<string, JsonValue>)
    ensures r.Keys == d.Keys + {"counter", "gate", "tstamp"}
    ensures r["counter"] == counter && r["gate"] == gate && r["tstamp"] == JInt(tstamp)
    ensures forall k :: k in d && k != "counter" && k != "gate" && k != "tstamp" ==> r[k] == d[k]
  {
    d["counter" := counter]["gate" := gate]["tstamp" := JInt(tstamp)]
  }

  /** Writing the snapshot twice with the same values is writing it once. */
  lemma WriteIdempotent(d: map<string, JsonValue>, gate: JsonValue, counter: JsonValue, tstamp: int)
    ensures WriteJsonData(WriteJsonData(d, gate, counter, tstamp), gate, counter, tstamp) == WriteJsonData(d, gate, counter, tstamp)
  {
    var once := WriteJsonData(d, gate, counter, tstamp);
    var twice := WriteJsonData(once, gate, counter, tstamp);
    assert forall k :: k in twice <==> k in once;
    assert forall k :: k in twice ==> twice[k] == once[k];
  }

  /** A later write replaces everything an earlier one wrote. */
  lemma WriteOverwrites(d: map<string, JsonValue>, g1: JsonValue, c1: JsonValue, t1: int, g2: JsonValue, c2: JsonValue, t2: int)
    ensures WriteJsonData(WriteJsonData(d, g1, c1, t1), g2, c2, t2) == WriteJsonData(d, g2, c2, t2)
  {
    var later := WriteJsonData(WriteJsonData(d, g1, c1, t1), g2, c2, t2);
    var direct := WriteJsonData(d, g2, c2, t2);
    assert forall k :: k in later <==> k in direct;
    assert forall k :: k in later ==> later[k] == direct[k];
  }

  /** One read together with the minute (`int(time.time()/60)`) at which it completes. */
  datatype Reading = Reading(chunk: Chunk, minute: int)

  /** The monitor's whole state: the assembler, the snapshot, and whether the process
      has ended on an escaped ValueError. */
  datatype MonState = MonState(asm: AsmState, display: map<string, JsonValue>, halted: bool)

  /** The snapshot a decoded report writes, as written in the source: `write_json_data`
      is called as `(count, gate, tstamp)` against parameters `(gate, counter, tstamp)`. */
  function Snapshot(d: map<string, JsonValue>, p: Processed, minute: int): map<string, JsonValue>
    requires p.Decoded?
  {
    WriteJsonData(d, JStr(p.count), JStr(p.gate), minute)
  }

  /** One pass of the read loop, including `process_data` on a completed report. */
  function MonitorStep(m: MonState, r: Reading): (n: MonState)
    ensures m.halted || r.chunk.count == 0 ==> n == m
    ensures !m.halted ==> n.asm == Next(m.asm, Bol, r.chunk).state
    ensures !m.halted && Next(m.asm, Bol, r.chunk).sentence.None? ==> n.display == m.display && !n.halted
    ensures !m.halted && Next(m.asm, Bol, r.chunk).sentence.Some? ==>
              var p := ProcessData(Next(m.asm, Bol, r.chunk).sentence.value);
              && n.halted == p.GateFieldRaised?
              && n.display == if p.Decoded? then Snapshot(m.display, p, r.minute) else m.display
  {
    if m.halted then m
    else
      var step := Next(m.asm, Bol, r.chunk);
      match step.sentence
      case None => MonState(step.state, m.display, false)
      case Some(s) =>
        var p := ProcessData(s);
        if p.Decoded? then MonState(step.state, Snapshot(m.display, p, r.minute), false)
        else MonState(step.state, m.display, p.GateFieldRaised?)
  }

  /** A completed well-formed report writes its count and gate literal, swapped as the
      call site swaps them, and keeps the process running. */
  lemma ReportWritten(m: MonState, r: Reading, rcv: string, gateTitle: string, gate: string, sat: string, count: string, suffix: string)
    requires !m.halted && Next(m.asm, Bol, r.chunk).sentence == Some(rcv)
    requires ReportOf(rcv, gateTitle, gate, sat, count, suffix)
    ensures !MonitorStep(m, r).halted
    ensures MonitorStep(m, r).display == WriteJsonData(m.display, JStr(count), JStr(gate), r.minute)
  {
    ProcessWellFormed(rcv, gateTitle, gate, sat, count, suffix);
  }

  function MonitorRun(m: MonState, rs: seq<Reading>): MonState
    decreases |rs|
  {
    if rs == [] then m else MonitorRun(MonitorStep(m, rs[0]), rs[1..])
  }

  /** The snapshot always holds the three keys the display driver reads. */
  predicate HasKeys(d: map<string, JsonValue>)
  {
    "counter" in d && "gate" in d && "tstamp" in d
  }

  /** The snapshot the monitor starts with: `write_json_data(gate, 0, tstamp)` after
      `set_gate(1)`. */
  function InitialDisplay(minute: int): (d: map<string, JsonValue>)
    ensures d.Keys == {"counter", "gate", "tstamp"}
    ensures d["counter"] == JInt(0) && d["gate"] == JStr("1000s") && d["tstamp"] == JInt(minute)
  {
    WriteJsonData(map[], JStr(GateFor(1)), JInt(0), minute)
  }

  /** One pass keeps the snapshot's keys when it already holds the three. */
  lemma StepKeepsKeys(m: MonState, r: Reading)
    requires HasKeys(m.display)
    ensures MonitorStep(m, r).display.Keys == m.display.Keys
  {
  }

  /** The snapshot keeps its three keys, and never gains any other, over any run. */
  lemma {:induction false} RunKeepsKeys(m: MonState, rs: seq<Reading>)
    requires HasKeys(m.display)
    ensures MonitorRun(m, rs).display.Keys == m.display.Keys
    decreases |rs|
  {
    if rs != [] {
      var m1 := MonitorStep(m, rs[0]);
      StepKeepsKeys(m, rs[0]);
      RunKeepsKeys(m1, rs[1..]);
    }
  }

  /** As written, a well-formed report leaves its gate literal under "counter" and its
      count under "gate". */
  lemma SwappedKeys(m: MonState, r: Reading, rcv: string, gateTitle: string, gate: string, sat: string, count: string, suffix: string)
    requires !m.halted && Next(m.asm, Bol, r.chunk).sentence == Some(rcv)
    requires ReportOf(rcv, gateTitle, gate, sat, count, suffix)
    ensures MonitorStep(m, r).display == WriteJsonData(m.display, JStr(count), JStr(gate), r.minute)
    ensures MonitorStep(m, r).display["counter"] == JStr(gate)
    ensures MonitorStep(m, r).display["gate"] == JStr(count)
    ensures MonitorStep(m, r).display["tstamp"] == JInt(r.minute)
  {
    ProcessWellFormed(rcv, gateTitle, gate, sat, count, suffix);
  }

  /** The snapshot the call evidently intends: the count under "counter" and the gate
      under "gate". */
  function IntendedSnapshot(d: map<string, JsonValue>, p: Processed, minute: int): (r: map<string, JsonValue>)
    requires p.Decoded?
    ensures r.Keys == d.Keys + {"counter", "gate", "tstamp"}
    ensures r["counter"] == JStr(p.count) && r["gate"] == JStr(p.gate) && r["tstamp"] == JInt(minute)
  {
    WriteJsonData(d, JStr(p.gate), JStr(p.count), minute)
  }

  /** With the intended call, a well-formed report's count lands under "counter" and its
      gate under "gate". */
  lemma IntendedKeys(rcv: string, gateTitle: string, gate: string, sat: string, count: string, suffix: string, d: map<string, JsonValue>, minute: int)
    requires ReportOf(rcv, gateTitle, gate, sat, count, suffix)
    ensures ProcessData(rcv).Decoded? && IntendedSnapshot(d, ProcessData(rcv), minute)["counter"] == JStr(count)
    ensures ProcessData(rcv).Decoded? && IntendedSnapshot(d, ProcessData(rcv), minute)["gate"] == JStr(gate)
  {
    ProcessWellFormed(rcv, gateTitle, gate, sat, count, suffix);
  }

  /** The running monitor: its assembler (begin marker 'G'), the gate chosen by
      `set_gate`, the snapshot and whether the process has ended. */
  class Monitor {
    const asm: FrameAssembler
    var gate: string
    var displayData: map<string, JsonValue>
    var halted: bool

    function State(): MonState
      reads this, asm
    {
      MonState(asm.State(), displayData, halted)
    }

    /** Start-up at minute `minute`: `set_gate(1)`, a fresh assembler, and the first
        snapshot with a zero count. */
    constructor (minute: int)
      ensures fresh(asm) && asm.bol == Bol
      ensures State() == MonState(Initial, InitialDisplay(minute), false)
      ensures gate == "1000s"
    {
      asm := new FrameAssembler(Bol);
      gate := GateFor(1);
      halted := false;
      new;
      displayData := WriteJsonData(map[], JStr(gate), JInt(0), minute);
    }

    /** `set_gate(mode)`: only the global gate changes (the pin is not modelled). */
    method SetGate(mode: int)
      modifies this
      ensures gate == GateFor(mode)
      ensures displayData == old(displayData) && halted == old(halted)
    {
      if mode == 10 {
        gate := "10000s";
      } else {
        gate := "1000s";
      }
    }

    /** One pass of the read loop. */
    method Poll(r: Reading)
      requires asm.bol == Bol
      modifies this, asm
      ensures State() == MonitorStep(old(State()), r)
      ensures gate == old(gate)
    {
      if halted {
        return;
      }
      var sentence := asm.Step(r.chunk.count, r.chunk.text);
      if sentence.Some? {
        var p := ProcessData(sentence.value);
        match p
        case Decoded(count, g) =>
          displayData := WriteJsonData(displayData, JStr(count), JStr(g), r.minute);
        case GateFieldRaised =>
          halted := true;
        case _ =>
      }
    }

    /** A finite stretch of the read loop. */
    method Listen(rs: seq<Reading>)
      requires asm.bol == Bol
      modifies this, asm
      ensures State() == MonitorRun(old(State()), rs)
      ensures gate == old(gate)
    {
      var i := 0;
      assert rs[i..] == rs;
      while i < |rs|
        invariant 0 <= i <= |rs|
        invariant MonitorRun(old(State()), rs) == MonitorRun(State(), rs[i..])
        invariant gate == old(gate)
      {
        assert rs[i..][0] == rs[i] && rs[i..][1..] == rs[i + 1..];
        Poll(rs[i]);
        i := i + 1;
      }
    }
  }
}
