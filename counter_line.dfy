/** The report-line decoder of the older counter loggers (Serial_counter_mon3.py, and
    Serial_counter_monbb.py once a report is complete): a report line is
    "<gate>,<count>Hz"; the gate name is shortened and the count is read as a number. */
module CounterLine {
  import opened Common
  import opened PyStr
  import opened PyNum

  /** The characters `rstrip('Hz')` removes: any trailing run of them, not the suffix "Hz". */
  const HzChars: set<char> := {'H', 'z'}

  /** The short gate names shown in the log; other gate texts are shown as they are. */
  function MapGate(gate: string): (r: string)
    ensures gate == "Gate 1000s" ==> r == "Gate 1K"
    ensures gate == "Gate 10000s" ==> r == "Gate 10K"
    ensures gate != "Gate 1000s" && gate != "Gate 10000s" ==> r == gate
  {
    if gate == "Gate 1000s" then "Gate 1K"
    else if gate == "Gate 10000s" then "Gate 10K"
    else gate
  }

  /** A decoded report line: the gate as shown, the count, and whether the count is
      printed with one leading space. */
  datatype Report = Report(gate: string, value: Decimal, leadingSpace: bool)

  /** A count below 100000 is printed after one leading space, any other without. */
  function Padded(value: Decimal): (b: bool)
    ensures b <==> value.mantissa < 100000 * Pow10(value.scale)
  {
    value.Below(100000)
  }

  /** The decode of one line (already `rstrip`ped): exactly two comma fields, and a second
      field that reads as a number once its trailing 'H'/'z' run is removed. None where the
      loggers skip the line. */
  function DecodeLine(line: string): (r: Option<Report>)
    ensures CountChar(line, ',') != 1 ==> r.None?
    ensures r.Some? ==> r.value.leadingSpace == Padded(r.value.value)
    ensures r.Some? ==> r.value.gate == MapGate(Split(line, ',')[0])
  {
    var fields := Split(line, ',');
    if |fields| != 2 then None
    else match ParseFloat(RStripChars(fields[1], HzChars))
      case None => None
      case Some(v) => Some(Report(MapGate(fields[0]), v, Padded(v)))
  }

  /** A line `gate + "," + number + hz`, where `hz` is any run of 'H' and 'z' and the
      number is plain digits with at most one '.', decodes to that gate and number. */
  lemma DecodeWellFormed(gate: string, number: string, hz: string)
    requires ',' !in gate && IsNumeral(number) && ParseUnsigned(number).Some?
    requires forall k :: 0 <= k < |hz| ==> hz[k] in HzChars
    ensures var v := ParseUnsigned(number).value;
            DecodeLine(gate + "," + number + hz) == Some(Report(MapGate(gate), v, Padded(v)))
  {
    NumberField(gate, number, hz);
  }

  /** Leading zeros on the count do not change the decode. */
  lemma DecodeLeadingZero(gate: string, number: string, hz: string)
    requires ',' !in gate && IsNumeral(number)
    requires forall k :: 0 <= k < |hz| ==> hz[k] in HzChars
    ensures DecodeLine(gate + "," + "0" + number + hz) == DecodeLine(gate + "," + number + hz)
  {
    var z := "0" + number;
    assert z[0] == '0' && z[1..] == number;
    assert IsNumeral(z) by {
      forall k | 0 <= k < |z| ensures IsDigit(z[k]) || z[k] == '.' {
        if k > 0 {
          assert z[k] == number[k - 1];
        }
      }
    }
    NumberField(gate, number, hz);
    NumberField(gate, z, hz);
    LeadingZeroUnsigned(number);
    assert gate + "," + "0" + number + hz == gate + "," + z + hz;
  }

  /** A line with one comma splits into the text before it and the text after it. */
  lemma TwoFields(gate: string, field: string)
    requires ',' !in gate && ',' !in field
    ensures Split(gate + "," + field, ',') == [gate, field]
  {
    assert gate + "," + field == gate + [','] + field;
    SplitPrefix(gate, ',', field);
    SplitNoSep(field, ',');
  }

  /** A numeral followed by a run of 'H' and 'z' holds no comma, and `rstrip('Hz')`
      gives back the numeral. */
  lemma NumberText(number: string, hz: string)
    requires IsNumeral(number)
    requires forall k :: 0 <= k < |hz| ==> hz[k] in HzChars
    ensures ',' !in number + hz
    ensures RStripChars(number + hz, HzChars) == number
  {
    var field := number + hz;
    assert forall k :: 0 <= k < |field| ==> field[k] == (if k < |number| then number[k] else hz[k - |number|]);
    assert IsDigit(number[|number| - 1]) || number[|number| - 1] == '.';
    RStripCharsSuffix(number, hz, HzChars);
  }

  /** The second field of such a line is read by `float` as the numeral alone. */
  lemma NumberField(gate: string, number: string, hz: string)
    requires ',' !in gate && IsNumeral(number)
    requires forall k :: 0 <= k < |hz| ==> hz[k] in HzChars
    ensures DecodeLine(gate + "," + number + hz) ==
              match ParseUnsigned(number)
              case None => None
              case Some(v) => Some(Report(MapGate(gate), v, Padded(v)))
  {
    NumberText(number, hz);
    TwoFields(gate, number + hz);
    assert gate + "," + number + hz == gate + "," + (number + hz);
    FloatOfNumeral(number);
  }

  /** A line without exactly one comma is skipped, whatever else it holds. */
  lemma NotTwoFields(line: string)
    requires CountChar(line, ',') != 1
    ensures DecodeLine(line) == None
  {
  }

  /** The per-line loop of Serial_counter_mon3.py: a read that fails to decode is skipped;
      otherwise the line is `rstrip`ped and decoded. */
  function Mon3Line(received: Option<string>): (r: Option<Report>)
    ensures received.None? ==> r.None?
    ensures received.Some? ==> r == DecodeLine(RStrip(received.value))
  {
    if received.None? then None else DecodeLine(RStrip(received.value))
  }

  /** Trailing whitespace after the "Hz", as in a line read with its "\r\n", does not
      change the decode. */
  lemma Mon3TrailingNewline(gate: string, number: string)
    requires ',' !in gate && IsNumeral(number) && ParseUnsigned(number).Some?
    ensures var v := ParseUnsigned(number).value;
            Mon3Line(Some(gate + "," + number + "Hz\r\n")) == Some(Report(MapGate(gate), v, Padded(v)))
  {
    var line := gate + "," + number + "Hz";
    assert line[|line| - 1] == 'z';
    assert gate + "," + number + "Hz\r\n" == line + "\r\n";
    RStripCharsSuffix(line, "\r\n", Whitespace);
    DecodeWellFormed(gate, number, "Hz");
  }
}
