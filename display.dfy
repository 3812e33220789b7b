/** The display driver oled_driver.py: it reads the two snapshots the monitors keep and
    lays out the counter reading, the satellite count, the gate and the minutes until the
    next reading. The drawing itself is not modelled; a `Frame` holds what is drawn. */
module OledDisplay {
  import opened Common
  import opened PyStr
  import opened PyNum
  import CounterMonitor
  import GpsMonitor
  import FrameAssembly

  /** A snapshot file as the driver finds it: absent, not valid JSON, or a JSON object. */
  datatype FileState = Missing | Corrupt | Loaded(data: map<string, JsonValue>)

  /** `read_json_nmea`: the stored satellite count; 0 when the file is absent or unreadable
      or has no count; the text "  " when the stored count is null. */
  function ReadJsonNmea(f: FileState): (r: JsonValue)
    ensures r != JNull
    ensures !f.Loaded? ==> r == JInt(0)
    ensures f.Loaded? && "sat_nbr" !in f.data ==> r == JInt(0)
    ensures f.Loaded? && "sat_nbr" in f.data ==>
              r == if f.data["sat_nbr"] == JNull then JStr("  ") else f.data["sat_nbr"]
  {
    var satNbr := if f.Loaded? && "sat_nbr" in f.data then f.data["sat_nbr"] else JInt(0);
    if satNbr != JNull then satNbr else JStr("  ")
  }

  /** The driver reads back the count the GPS monitor wrote, whatever else the file holds. */
  lemma NmeaRoundTrip(d: map<string, JsonValue>, n: int)
    ensures ReadJsonNmea(Loaded(GpsMonitor.WriteSats(d, n))) == JInt(n)
  {
  }

  /** What `read_json_counter` hands back. */
  datatype CounterRead =
    | Triple(counter: JsonValue, gate: JsonValue, tstamp: JsonValue)
    | NoneReturned    // the file is not valid JSON: the function falls off its end
    | KeyErrorRaised  // "counter" is present but "gate" or "tstamp" is not

  /** `read_json_counter`: (0, 0, 0) when the file is absent or has no "counter" key;
      otherwise the three stored values. */
  function ReadJsonCounter(f: FileState): (r: CounterRead)
    ensures f.Missing? ==> r == Triple(JInt(0), JInt(0), JInt(0))
    ensures f.Corrupt? ==> r == NoneReturned
    ensures f.Loaded? && "counter" !in f.data ==> r == Triple(JInt(0), JInt(0), JInt(0))
    ensures r.KeyErrorRaised? <==> f.Loaded? && "counter" in f.data && ("gate" !in f.data || "tstamp" !in f.data)
    ensures f.Loaded? && r.Triple? && "counter" in f.data ==>
              r == Triple(f.data["counter"], f.data["gate"], f.data["tstamp"])
  {
    match f
    case Missing => Triple(JInt(0), JInt(0), JInt(0))
    case Corrupt => NoneReturned
    case Loaded(d) =>
      if "counter" in d then
        if "gate" in d && "tstamp" in d then Triple(d["counter"], d["gate"], d["tstamp"])
        else KeyErrorRaised
      else Triple(JInt(0), JInt(0), JInt(0))
  }

  /** The driver reads back the three values `write_json_data` stored. */
  lemma CounterRoundTrip(d: map<string, JsonValue>, gate: JsonValue, counter: JsonValue, tstamp: int)
    ensures ReadJsonCounter(Loaded(CounterMonitor.WriteJsonData(d, gate, counter, tstamp))) == Triple(counter, gate, JInt(tstamp))
  {
  }

  /** Python's `float(x)` on a stored value; None where it raises. */
  function JsonFloat(v: JsonValue): (r: Option<Decimal>)
    ensures v.JInt? ==> r == Some(Decimal(v.i, 0))
    ensures v.JNull? ==> r.None?
  {
    match v
    case JNull => None
    case JInt(i) => Some(Decimal(i, 0))
    case JStr(s) => ParseFloat(s)
  }

  /** How a gate is shown: the decimals of the count (None: the count as Python prints a
      float), the label, and the gate period in whole minutes. */
  datatype GateFormat = GateFormat(decimals: Option<nat>, caption: string, minutes: int)

  /** The gate table: "1000s" shows 3 decimals, "1Ks" and 16 minutes; "10000s" shows
      4 decimals, "10Ks" and 166 minutes; any other gate no label and 0 minutes. */
  function FormatGate(gate: JsonValue): (r: GateFormat)
    ensures gate == JStr("1000s") ==> r == GateFormat(Some(3), "1Ks", 1000 / 60) && r.minutes == 16
    ensures gate == JStr("10000s") ==> r == GateFormat(Some(4), "10Ks", 10000 / 60) && r.minutes == 166
    ensures gate != JStr("1000s") && gate != JStr("10000s") ==> r == GateFormat(None, "", 0)
  {
    if gate == JStr("1000s") then GateFormat(Some(3), "1Ks", 1000 / 60)
    else if gate == JStr("10000s") then GateFormat(Some(4), "10Ks", 10000 / 60)
    else GateFormat(None, "", 0)
  }

  /** Minutes until the next reading: the gate period less the minutes since the stamp. */
  function MinutesLeft(gateMinutes: int, now: int, tstamp: int): (r: int)
    ensures r + (now - tstamp) == gateMinutes
  {
    gateMinutes - (now - tstamp)
  }

  /** The count runs down one per minute from the full gate period at the stamp, and
      reaches zero one gate period after it. */
  lemma MinutesRunDown(gateMinutes: int, now: int, tstamp: int)
    ensures MinutesLeft(gateMinutes, tstamp, tstamp) == gateMinutes
    ensures MinutesLeft(gateMinutes, now + 1, tstamp) == MinutesLeft(gateMinutes, now, tstamp) - 1
    ensures MinutesLeft(gateMinutes, tstamp + gateMinutes, tstamp) == 0
  {
  }

  /** The spaces in front of the count, chosen by its integer part: exactly one of five
      buckets applies. */
  function PadWidth(p: int): (r: nat)
    ensures p < 10000 <==> r == 7
    ensures 10000 <= p < 100000 <==> r == 6
    ensures 100000 <= p < 1000000 <==> r == 5
    ensures 1000000 <= p < 10000000 <==> r == 3
    ensures p >= 10000000 <==> r == 2
  {
    if p < 10000 then 7
    else if p < 100000 then 6
    else if p < 1000000 then 5
    else if p < 10000000 then 3
    else 2
  }

  /** The number of decimal digits of `n`. */
  function DigitCount(n: nat): (r: nat)
    ensures r >= 1
  {
    if n < 10 then 1 else 1 + DigitCount(n / 10)
  }

  lemma {:induction false} DigitCountRange(n: nat, k: nat)
    requires k >= 1 && Pow10(k - 1) <= n < Pow10(k)
    ensures DigitCount(n) == k
    decreases k
  {
    if k > 1 {
      var lo := Pow10(k - 2);
      assert Pow10(k - 1) == 10 * lo && Pow10(k) == 10 * Pow10(k - 1);
      assert n >= 10 && lo <= n / 10 < Pow10(k - 1);
      DigitCountRange(n / 10, k - 1);
    }
  }

  /** The width of `p` printed with a ',' between groups of three digits. */
  function GroupedWidth(p: nat): nat
  {
    DigitCount(p) + (DigitCount(p) - 1) / 3
  }

  /** The padding right-justifies the integer part: from 1000 up to 99,999,999 the
      padding and the grouped integer part together are always 12 characters wide. */
  lemma PaddingRightJustifies(p: nat)
    requires 1000 <= p < 100000000
    ensures PadWidth(p) + GroupedWidth(p) == 12
  {
    assert Pow10(3) == 1000 && Pow10(4) == 10000 && Pow10(5) == 100000;
    assert Pow10(6) == 1000000 && Pow10(7) == 10000000 && Pow10(8) == 100000000;
    if p < 10000 {
      DigitCountRange(p, 4);
    } else if p < 100000 {
      DigitCountRange(p, 5);
    } else if p < 1000000 {
      DigitCountRange(p, 6);
    } else if p < 10000000 {
      DigitCountRange(p, 7);
    } else {
      DigitCountRange(p, 8);
    }
  }

  /** The satellite text as written: `int(sat_nbr)`, one leading space below 9, and "  "
      when the value is not an integer. None where `int` raises something other than
      ValueError (a null value). */
  function SatText(v: JsonValue): (r: Option<string>)
    ensures r.None? <==> v.JNull?
    ensures v.JStr? && ParseInt(v.s).None? ==> r == Some("  ")
    ensures v.JInt? ==> r.Some? && ParseInt(r.value) == Some(v.i) && (r.value[0] == ' ' <==> v.i < 9)
    ensures v.JStr? && ParseInt(v.s).Some? ==>
              r.Some? && ParseInt(r.value) == ParseInt(v.s) && (r.value[0] == ' ' <==> ParseInt(v.s).value < 9)
  {
    match v
    case JNull => None
    case JInt(n) =>
      PaddedIntRoundTrip(n);
      IntRoundTrip(n);
      Some(if n < 9 then " " + IntToString(n) else IntToString(n))
    case JStr(s) =>
      match ParseInt(s)
      case None => Some("  ")
      case Some(n) =>
        PaddedIntRoundTrip(n);
        IntRoundTrip(n);
        Some(if n < 9 then " " + IntToString(n) else IntToString(n))
  }

  /** `str(n)` for `0 <= n < 100` is one digit below 10 and two digits from 10 on. */
  lemma SmallIntWidth(n: int)
    requires 0 <= n < 100
    ensures |IntToString(n)| == if n < 10 then 1 else 2
  {
    if n < 10 {
      assert NatToDigits(n) == [DigitChar(n)];
    } else {
      assert NatToDigits(n / 10) == [DigitChar(n / 10)];
    }
  }

  /** Counts 0 to 8 and 10 to 99 are shown two characters wide, but 9 is shown as "9",
      one character wide, because the test is `< 9`. */
  lemma NineNotJustified(n: int)
    requires 0 <= n < 100
    ensures n != 9 ==> |SatText(JInt(n)).value| == 2
    ensures SatText(JInt(9)) == Some("9")
  {
    SmallIntWidth(n);
    assert NatToDigits(9) == "9";
  }

  /** The satellite text as evidently intended: one leading space below 10. */
  function SatTextIntended(v: JsonValue): (r: Option<string>)
    ensures r.None? <==> v.JNull?
    ensures v.JStr? && ParseInt(v.s).None? ==> r == Some("  ")
    ensures v.JInt? ==> r.Some? && ParseInt(r.value) == Some(v.i) && (r.value[0] == ' ' <==> v.i < 10)
    ensures v.JStr? && ParseInt(v.s).Some? ==>
              r.Some? && ParseInt(r.value) == ParseInt(v.s) && (r.value[0] == ' ' <==> ParseInt(v.s).value < 10)
  {
    match v
    case JNull => None
    case JInt(n) =>
      PaddedIntRoundTrip(n);
      IntRoundTrip(n);
      Some(if n < 10 then " " + IntToString(n) else IntToString(n))
    case JStr(s) =>
      match ParseInt(s)
      case None => Some("  ")
      case Some(n) =>
        PaddedIntRoundTrip(n);
        IntRoundTrip(n);
        Some(if n < 10 then " " + IntToString(n) else IntToString(n))
  }

  /** With the intended test every count from 0 to 99 is shown two characters wide. */
  lemma IntendedSatWidth(n: int)
    requires 0 <= n < 100
    ensures |SatTextIntended(JInt(n)).value| == 2
  {
    SmallIntWidth(n);
  }

  /** What one pass of the driver's loop draws. */
  datatype Frame = Frame(padding: nat, value: Decimal, decimals: Option<nat>, sats: string, gateLabel: string, minutesLeft: int)

  /** One pass draws a frame, or the driver ends on an exception. */
  datatype Shown = Shown(frame: Frame) | Crashed

  /** One pass of the driver's loop on the two snapshot files at minute `now`. */
  function DisplayFrame(counterFile: FileState, nmeaFile: FileState, now: int): (r: Shown)
    ensures ReadJsonCounter(counterFile).Triple? && JsonFloat(ReadJsonCounter(counterFile).counter).None? ==> r == Crashed
    ensures r.Shown? ==> r.frame.padding == PadWidth(r.frame.value.Trunc())
    ensures r.Shown? <==>
              && ReadJsonCounter(counterFile).Triple?
              && JsonFloat(ReadJsonCounter(counterFile).counter).Some?
              && ReadJsonCounter(counterFile).tstamp.JInt?
    ensures r.Shown? ==> ReadJsonCounter(counterFile).Triple? &&
                         r.frame.gateLabel == FormatGate(ReadJsonCounter(counterFile).gate).caption
    ensures r.Shown? ==>
              var c := ReadJsonCounter(counterFile);
              var g := FormatGate(c.gate);
              && r.frame.value == JsonFloat(c.counter).value
              && r.frame.decimals == g.decimals
              && r.frame.sats == SatText(ReadJsonNmea(nmeaFile)).value
              && r.frame.minutesLeft == MinutesLeft(g.minutes, now, c.tstamp.i)
  {
    match ReadJsonCounter(counterFile)
    case Triple(counter, gate, tstamp) =>
      (match JsonFloat(counter)
       case None => Crashed
       case Some(value) =>
         match SatText(ReadJsonNmea(nmeaFile))
         case None => Crashed
         case Some(sats) =>
           var g := FormatGate(gate);
           if tstamp.JInt? then
             Shown(Frame(PadWidth(value.Trunc()), value, g.decimals, sats, g.caption, MinutesLeft(g.minutes, now, tstamp.i)))
           else Crashed)
    case _ => Crashed
  }

  /** The satellite column never fails: the reader never hands on null. */
  lemma SatsNeverCrash(f: FileState)
    ensures SatText(ReadJsonNmea(f)).Some?
  {
  }

  /** At start-up the counter monitor's first snapshot shows a zero count after seven
      spaces, with the 1000 s gate and its full 16 minutes. */
  lemma StartupFrame(minute: int, nmeaFile: FileState)
    ensures var sats := SatText(ReadJsonNmea(nmeaFile)).value;
            DisplayFrame(Loaded(CounterMonitor.InitialDisplay(minute)), nmeaFile, minute) ==
              Shown(Frame(7, Decimal(0, 0), Some(3), sats, "1Ks", 16))
  {
    var d := CounterMonitor.InitialDisplay(minute);
    assert ReadJsonCounter(Loaded(d)) == Triple(JInt(0), JStr("1000s"), JInt(minute));
    assert Decimal(0, 0).Trunc() == 0;
  }

  lemma GateLiteralIsNotANumber()
    ensures ParseFloat("1000s") == None
    ensures ParseFloat("10000s") == None
  {
    var a, b := "1000s", "10000s";
    assert a[0] == '1' && a[4] == 's' && !IsDigit(a[4]);
    assert '.' !in a;
    NotAFloat(a);
    assert b[0] == '1' && b[5] == 's' && !IsDigit(b[5]);
    assert '.' !in b;
    NotAFloat(b);
  }

  /** As written, the first well-formed report of the 1000 s gate leaves "1000s" under
      "counter", and the display ends on `float("1000s")`. */
  lemma SwappedReportCrashesDisplay(m: CounterMonitor.MonState, r: CounterMonitor.Reading, rcv: string,
                                    gateTitle: string, sat: string, count: string, suffix: string, nmeaFile: FileState, now: int)
    requires !m.halted && FrameAssembly.Next(m.asm, CounterMonitor.Bol, r.chunk).sentence == Some(rcv)
    requires CounterMonitor.ReportOf(rcv, gateTitle, "1000s", sat, count, suffix)
    ensures DisplayFrame(Loaded(CounterMonitor.MonitorStep(m, r).display), nmeaFile, now) == Crashed
  {
    CounterMonitor.SwappedKeys(m, r, rcv, gateTitle, "1000s", sat, count, suffix);
    GateLiteralIsNotANumber();
  }

  /** With the intended call a decoded count on the 1000 s gate is shown with three
      decimals, the "1Ks" label and a full gate period left at the minute it arrived. */
  lemma IntendedCountShows(d: map<string, JsonValue>, count: string, nmeaFile: FileState, minute: int)
    requires IsNumeral(count) && ParseUnsigned(count).Some?
    ensures var v := ParseUnsigned(count).value;
            var sats := SatText(ReadJsonNmea(nmeaFile)).value;
            DisplayFrame(Loaded(CounterMonitor.IntendedSnapshot(d, CounterMonitor.Decoded(count, "1000s"), minute)), nmeaFile, minute) ==
              Shown(Frame(PadWidth(v.Trunc()), v, Some(3), sats, "1Ks", 16))
  {
    var snap := CounterMonitor.IntendedSnapshot(d, CounterMonitor.Decoded(count, "1000s"), minute);
    assert ReadJsonCounter(Loaded(snap)) == Triple(JStr(count), JStr("1000s"), JInt(minute));
    FloatOfNumeral(count);
    assert JsonFloat(JStr(count)) == ParseUnsigned(count);
    assert FormatGate(JStr("1000s")) == GateFormat(Some(3), "1Ks", 16);
    SatsNeverCrash(nmeaFile);
  }

  /** With the intended call the same report is shown: its count, three decimals, the
      "1Ks" label and a full gate period left at the minute it arrived. */
  lemma IntendedReportShows(d: map<string, JsonValue>, rcv: string, gateTitle: string, sat: string,
                            count: string, suffix: string, nmeaFile: FileState, minute: int)
    requires CounterMonitor.ReportOf(rcv, gateTitle, "1000s", sat, count, suffix)
    requires IsNumeral(count) && ParseUnsigned(count).Some?
    ensures CounterMonitor.ProcessData(rcv) == CounterMonitor.Decoded(count, "1000s")
    ensures var v := ParseUnsigned(count).value;
            var sats := SatText(ReadJsonNmea(nmeaFile)).value;
            DisplayFrame(Loaded(CounterMonitor.IntendedSnapshot(d, CounterMonitor.ProcessData(rcv), minute)), nmeaFile, minute) ==
              Shown(Frame(PadWidth(v.Trunc()), v, Some(3), sats, "1Ks", 16))
  {
    CounterMonitor.ProcessWellFormed(rcv, gateTitle, "1000s", sat, count, suffix);
    IntendedCountShows(d, count, nmeaFile, minute);
  }
}
