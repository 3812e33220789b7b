# GPSDO monitoring: serial frame assembly, report decoding and display layout

This project models the data path of the GPSDO monitoring scripts. It has four parts.

**Frame assemblers.** A bit-banged serial line hands over short, irregular chunks. One frame assembler rebuilds whole lines from them:
- it skips zero-count reads;
- it puts the leftover of the previous line in front of each chunk read while searching for a begin marker;
- it cuts at the begin marker, or at the second one when there are several;
- it appends chunks until one holds the end marker '\r';
- it hands the line on and keeps the tail as the next leftover.

The newer assembler is shared by the counter monitor (`serial_bb_counter.py`, begin marker 'G') and the GPS monitor (`serial_bb_gps.py`, begin marker '$'). The older GPS logger (`Serial_gps_bb.py`) has its own variant.

**Decoders.**
- The counter monitor splits a frequency-counter report into gate and count and writes them to a JSON snapshot.
- The GPS monitor picks out the GGA sentences and stores the satellite count in its own snapshot.
- The older counter loggers (`Serial_counter_monbb.py` and `Serial_counter_mon3.py`) decode two-field lines. The bit-banged one first rebuilds 26-byte reports from short reads.

**Display.** The display driver (`oled_driver.py`) reads both snapshots back and lays out one frame:
- the padded count;
- the satellite column;
- the gate label;
- the minutes left until the next reading.

**Python semantics.** Python's string and number operations are modelled where the scripts rely on them. Slices use negative and clamped bounds. The model also covers `find`, `count`, `split`, `rstrip`/`strip`, `int()`, `str()` and `float()` on decimal text.

Modules:
- `Common`: Option, JSON values, chunks.
- `PyStr`: Python string operations.
- `PyNum`: Python `int`, `str` and `float` on decimal text. Numbers are exact decimals.
- `FrameAssembly`: the newer assembler.
  - A pure one-read function `Next` and its fold `Run`.
  - The class `FrameAssembler`, whose `Step` and `Feed` methods are proved equal to `Next` and `Run`.
- `CounterMonitor`: `process_data`, `write_json_data` and `set_gate` of the counter monitor, and its read loop (`Monitor`).
- `GpsMonitor`: `parseGPS` and `write_json_data` of the GPS monitor, and its read loop (`Monitor`).
- `LegacyGps`: the older GPS logger's assembler (`LegacyAssembler`) and its `parseGPS`, compared with the newer ones.
- `CounterLine`: the two-field line decode of the older counter loggers.
- `Reassembly`: the 26-byte reassembly of `Serial_counter_monbb.py` (`Reassembler`).
- `OledDisplay`: the display driver's readers and layout rules.

Behaviour of the code worth noting:
- After a resync the sentence starts at the second begin marker, not the last. A third marker stays inside the sentence (`FrameAssembly.CutAtSecond`).
- The chunk that brings in the begin marker is not searched for '\r'. A start and an end in one chunk do not complete a line at once (`FrameAssembly.Next`, `FrameAssembly.NextSearching`).
- The begin marker is kept in the line handed on (`FrameAssembly.SentencesStartWithMarker`).
- The leftover is everything after the first '\r', so it may hold further '\r' characters.
- A chunk without a begin marker empties the partial line but keeps the leftover, which is put in front of every later chunk read while searching, and is replaced only when a line ends (`FrameAssembly.NextSearching`, `FrameAssembly.BuildingAppends`).
- In `Serial_counter_monbb.py`, collected text of 26 bytes that does not split into two fields prints `counter` (line 141). Until some split has bound `counter`, that print raises `UnboundLocalError`, and the process ends through the handler at line 200 (`Reassembly.RbNext`, `Reassembly.UnboundCounterEndsProcess`).
- Only the bucket padding of `oled_driver.py` is modelled for the display. The one-space rule of the older loggers is modelled for their log line (`CounterLine.Padded`).

## Model

| member | source | states |
|---|---|---|
| PyStr.RightLeftAreSlices | serial_bb_counter.py:219-223 | `right(s, a)` is `s[a:]` and `left(s, a)` is `s[:a]`, with Python's negative and clamped bounds |
| PyStr.LeftRight | serial_bb_gps.py:163-167 | `left(s, a) + right(s, a)` is `s` for every `a`, negative or out of range included |
| PyStr.Mid | serial_bb_counter.py:225-226 | `mid(s, offset, amount)` is the `amount` characters from 1-based `offset`; empty when `amount` is 0; the rest of the string when it runs past the end |
| PyStr.FindSpec | serial_bb_gps.py:115 | `find` returns -1 or an index where the needle occurs, and it occurs at no earlier index |
| PyStr.FindChar | serial_bb_counter.py:279-281 | for one character, `find` is not -1 exactly when `c in s` holds, and it is the first index of `c` |
| PyStr.FindAt | serial_bb_counter.py:311 | `find` of a character returns the index of its first occurrence |
| PyStr.FirstIndexUnique | serial_bb_counter.py:311 | a character's first index is unique |
| PyStr.CountIsMultiplicity | serial_bb_counter.py:285 | `s.count(c)` is the number of occurrences of `c` in `s` |
| PyStr.CountPositive | serial_bb_counter.py:285 | the count is positive exactly when the character occurs |
| PyStr.Split | serial_bb_counter.py:171 | `split(sep)` gives one more field than separators, and no field holds the separator |
| PyStr.JoinSplit | serial_bb_counter.py:171-173 | joining the fields of a split with the separator gives the string back |
| PyStr.SplitJoin | serial_bb_counter.py:171-173 | splitting a join of separator-free fields gives the fields back |
| PyStr.SplitTwo | serial_bb_counter.py:175 | a string with two fields is the first field, the separator and the second |
| PyStr.SplitThree | serial_bb_counter.py:173 | a string with three fields is the three fields separated by the separator |
| PyStr.SplitNoSep | Serial_counter_mon3.py:118 | a string without the separator splits into itself alone |
| PyStr.SplitPrefix | Serial_counter_mon3.py:118 | a separator-free prefix followed by the separator is the first field, and the rest splits on its own |
| PyStr.RStripChars | Serial_counter_mon3.py:123 | `rstrip(chars)` gives a prefix of the text, drops only characters of `chars`, and leaves no trailing one |
| PyStr.RStripCharsSuffix | Serial_counter_mon3.py:123 | `rstrip('Hz')` removes any trailing run of 'H' and 'z', not only the suffix "Hz" |
| PyStr.LStripChars | oled_driver.py:127 | `lstrip(chars)` gives a suffix of the text, drops only characters of `chars`, and leaves no leading one |
| PyStr.StripUnchanged | oled_driver.py:127 | text that neither starts nor ends with whitespace is its own `strip()` |
| PyNum.LeadingZero | serial_bb_counter.py:164-166 | a leading '0' does not change the value of a digit string |
| PyNum.NatToDigits | oled_driver.py:130-132 | `str(n)` of a natural number is a digit string of value `n`, with no leading zero |
| PyNum.ParseDigits | serial_bb_gps.py:135 | `int()` reads a digit string as its value |
| PyNum.ParseNegDigits | serial_bb_gps.py:135 | `int()` reads a minus sign and a digit string as the negated value |
| PyNum.IntRoundTrip | oled_driver.py:127-132 | `int(str(i)) == i` for every integer |
| PyNum.PaddedIntRoundTrip | oled_driver.py:127-130 | `str(i)` does not start with whitespace, and `int(" " + str(i)) == i` for every integer |
| PyNum.ParseUnsigned | oled_driver.py:117 | an unsigned numeral is read as a non-negative decimal |
| PyNum.DigitsValueConcat | oled_driver.py:117 | the value of digits `a` followed by digits `b` is `a * 10^|b| + b` |
| PyNum.ParseUnsignedValue | oled_driver.py:117 | `float(a + "." + b)` of digit strings is `a + b / 10^|b|`, held exactly with `|b|` places |
| PyNum.ParseUnsignedInteger | oled_driver.py:117 | `float(a)` of a non-empty digit string is the integer `a` |
| PyNum.LeadingZeroUnsigned | serial_bb_counter.py:164-166 | a leading '0' on an unsigned numeral leaves the number exactly as it was |
| PyNum.NotAFloat | oled_driver.py:117 | text with no sign, no '.' and no surrounding whitespace that is not all digits makes the decimal-only `float` of this model raise |
| PyNum.FloatOfNumeral | Serial_counter_mon3.py:123 | on digits and dots, `float` does nothing but read the numeral |
| PyNum.LeadingZeroFloat | oled_driver.py:117 | `float("0" + b) == float(b)` for a numeral `b`, so a count kept with leading zeros reads the same |
| FrameAssembly.CutIndex | serial_bb_counter.py:281-290 | the sentence starts at an index of leftover + chunk that holds the begin marker |
| FrameAssembly.CutShape | serial_bb_counter.py:281-290 | the cut is a suffix of leftover + chunk that starts with the begin marker |
| FrameAssembly.CutAtFirst | serial_bb_counter.py:281-283 | with a single begin marker at `i`, the sentence starts at `i` |
| FrameAssembly.CutAtSecond | serial_bb_counter.py:285-290 | with a second begin marker at `j`, the sentence starts at `j`, and a third marker stays inside it |
| FrameAssembly.Next | serial_bb_counter.py:262-340 | a zero-count read changes nothing; a sentence is handed on exactly when building and the read holds '\r'; searching keeps the leftover |
| FrameAssembly.NextSearching | serial_bb_counter.py:276-291 | searching: without a begin marker the partial is emptied and the leftover kept; with one, building starts from the cut |
| FrameAssembly.NextBuilding | serial_bb_counter.py:309-332 | building: a chunk without '\r' is appended whole; at the first '\r' the sentence is partial + prefix, the leftover is the text after it, and a lone "\n" becomes "" |
| FrameAssembly.ZeroReadsIgnored | serial_bb_counter.py:265-266 | zero-count reads, in either loop, change neither the final state nor the sentences handed on |
| FrameAssembly.BuildingAppends | serial_bb_counter.py:330-332 | while building, chunks without '\r' are appended whole, begin markers included, and nothing is handed on |
| FrameAssembly.RunAppend | serial_bb_counter.py:259-340 | a run over `a + b` is the run over `a` followed by the run over `b` |
| FrameAssembly.SentenceEnds | serial_bb_counter.py:309-329 | while building, reads without '\r' and then one with it hand on the partial, those texts and the prefix before the '\r' |
| FrameAssembly.OneSentence | serial_bb_counter.py:276-329 | a whole sentence is the cut, every later chunk and the prefix before '\r', however it was split into chunks and whatever zero-count reads came between |
| FrameAssembly.SentencesStartWithMarker | serial_bb_counter.py:283-290 | every sentence handed on starts with the begin marker, and the partial sentence keeps doing so |
| FrameAssembly.SingleChunkSentenceWaits | serial_bb_counter.py:294-314 | a chunk that holds both the begin marker and '\r' does not end the sentence; it is appended unchecked |
| FrameAssembly.FrameAssembler.constructor | serial_bb_counter.py:249-250 | the assembler starts searching, with empty `str_s` and `str_r` |
| FrameAssembly.FrameAssembler.Step | serial_bb_counter.py:262-340 | one read changes the state and hands on a sentence exactly as `Next` says |
| FrameAssembly.FrameAssembler.Feed | serial_bb_counter.py:259-340 | a finite stretch of reads ends in the state of `Run` and hands on its sentences, in order |
| CounterMonitor.GateFor | serial_bb_counter.py:125-137 | `set_gate(10)` selects "10000s", and every other mode selects "1000s" |
| CounterMonitor.ProcessData | serial_bb_counter.py:171-188 | no write without exactly three comma fields; a gate field without exactly one space raises; a counter field without exactly one space is caught; a decoded count and gate hold no space |
| CounterMonitor.ProcessWellFormed | serial_bb_counter.py:171-185 | a well-formed report decodes to its count token, verbatim, and its gate literal |
| CounterMonitor.SplitWords | serial_bb_counter.py:175-179 | two space-free words joined by one space split back into those two words |
| CounterMonitor.DecodedIsWellFormed | serial_bb_counter.py:171-185 | every decoded report is well formed, with the count and the gate being the tokens in those places |
| CounterMonitor.WriteJsonData | serial_bb_counter.py:203-205 | `write_json_data` sets exactly "counter", "gate" and "tstamp", and every other key keeps its value |
| CounterMonitor.WriteIdempotent | serial_bb_counter.py:203-205 | writing the snapshot twice with the same values is writing it once |
| CounterMonitor.WriteOverwrites | serial_bb_counter.py:203-205 | a later write replaces everything an earlier one wrote |
| CounterMonitor.MonitorStep | serial_bb_counter.py:155-340 | a halted monitor or a zero-count read changes nothing; the assembler moves as `Next` says; without a completed report the snapshot is kept and the process goes on; with one, the process ends exactly when `process_data` raises on the gate field, and the snapshot is rewritten exactly when the report decodes |
| CounterMonitor.ReportWritten | serial_bb_counter.py:171-185 | a completed well-formed report is written with its count and gate literal in the swapped order of the call, and the process goes on |
| CounterMonitor.InitialDisplay | serial_bb_counter.py:244-255 | the first snapshot holds exactly a zero count, the gate "1000s" and the start minute |
| CounterMonitor.StepKeepsKeys | serial_bb_counter.py:185 | one pass keeps the snapshot's keys once it holds the three |
| CounterMonitor.RunKeepsKeys | serial_bb_counter.py:255-340 | over any run the snapshot keeps its three keys and gains no other |
| CounterMonitor.SwappedKeys | serial_bb_counter.py:185 | as written, a well-formed report leaves its gate literal under "counter" and its count under "gate" |
| CounterMonitor.IntendedSnapshot | serial_bb_counter.py:192-205 | the call as evidently intended puts the count under "counter" and the gate under "gate" |
| CounterMonitor.IntendedKeys | serial_bb_counter.py:185 | with the intended call a well-formed report's count lands under "counter" and its gate under "gate" |
| CounterMonitor.Monitor.constructor | serial_bb_counter.py:244-255 | start-up selects the 1000 s gate, a fresh assembler and the first snapshot |
| CounterMonitor.Monitor.SetGate | serial_bb_counter.py:117-137 | only the global gate changes, to the mode's gate |
| CounterMonitor.Monitor.Poll | serial_bb_counter.py:262-340 | one pass of the loop moves the monitor as `MonitorStep` says, and the gate is unchanged |
| CounterMonitor.Monitor.Listen | serial_bb_counter.py:258-340 | a finite stretch of the loop ends where `MonitorRun` says |
| GpsMonitor.DstOffset | serial_bb_gps.py:124-128 | the offset is 2 under daylight saving and 1 otherwise |
| GpsMonitor.ParseGps | serial_bb_gps.py:113-142 | a sentence is ignored unless "GGA" first occurs after index 0; a parse error writes nothing; a missing or non-integer count raises; otherwise the hour is UTC plus the offset, and a count is written exactly when it is positive |
| GpsMonitor.CandidateTest | serial_bb_gps.py:115 | a sentence starting with "GGA" is no candidate, while "$GPGGA…" is |
| GpsMonitor.HourNotWrapped | serial_bb_gps.py:124-130 | under daylight saving the reported hour is the UTC hour plus two, so 23 UTC becomes 25: there is no wrap |
| GpsMonitor.WriteSats | serial_bb_gps.py:148 | only "sat_nbr" is set; every other key keeps its value |
| GpsMonitor.MonitorStep | serial_bb_gps.py:195-262 | a halted monitor or a zero-count read changes nothing; the assembler moves as `Next` says; the process ends exactly when a completed sentence's satellite count cannot be read; the snapshot's "sat_nbr" is written exactly when a completed sentence reports a positive count, and nothing else changes it |
| GpsMonitor.SatsPublished | serial_bb_gps.py:135-148 | a completed GGA sentence whose satellite field is a digit string publishes that count when it is positive, keeps the snapshot when it is zero, and does not end the process |
| GpsMonitor.StepTouchesOnlySats | serial_bb_gps.py:135-137 | one pass changes at most "sat_nbr", and only to a positive count |
| GpsMonitor.RunTouchesOnlySats | serial_bb_gps.py:192-269 | over any run only "sat_nbr" changes, no other key appears, and a stored count stays positive |
| GpsMonitor.Monitor.constructor | serial_bb_gps.py:187-188 | start-up gives a fresh assembler with marker '$' and an empty snapshot |
| GpsMonitor.Monitor.Poll | serial_bb_gps.py:195-262 | one pass moves the monitor as `MonitorStep` says |
| GpsMonitor.Monitor.Listen | serial_bb_gps.py:192-269 | a finite stretch of the loop ends where `MonitorRun` says |
| LegacyGps.LegacyCutIsCut | Serial_gps_bb.py:168-179 | `right(str_s[1:], pos)` is the newer cut `right(str_s, pos+1)` |
| LegacyGps.LegacyNext | Serial_gps_bb.py:150-218 | a sentence is handed on exactly when building and the read holds '\r'; a zero-count read while searching changes nothing; searching keeps the leftover |
| LegacyGps.SearchingAgrees | Serial_gps_bb.py:153-170 | while searching the older loop does what the newer one does |
| LegacyGps.ZeroReadAbandons | Serial_gps_bb.py:184-191 | a zero-count read while building leaves the inner loop without handing the sentence on |
| LegacyGps.LegacyLeftover | Serial_gps_bb.py:196-203 | the sentence is the partial plus the prefix before '\r'; the leftover starts one before the '\r', or is only the last character when '\r' comes first |
| LegacyGps.LostSentenceStart | Serial_gps_bb.py:203 | with '\r' first in the chunk, the older loop keeps only the chunk's last character while the newer keeps all that follows the '\r' |
| LegacyGps.ZeroReadLosesSentence | Serial_gps_bb.py:184-209 | a sentence interrupted by an empty read is never handed on by the older loop |
| LegacyGps.ZeroReadKeepsSentence | serial_bb_gps.py:231-233 | the newer loop skips the empty read and hands the whole sentence on |
| LegacyGps.LegacyParseGps | Serial_gps_bb.py:97-111 | the same candidate test, a parse error reported, and a fixed two-hour offset; nothing is written |
| LegacyGps.LegacyOffsetIsSummerTime | Serial_gps_bb.py:105 | the older offset is the newer one under daylight saving, whatever the season |
| LegacyGps.LegacyAssembler.constructor | Serial_gps_bb.py:142-143 | the assembler starts searching, with empty `str_s` and `str_r` |
| LegacyGps.LegacyAssembler.Step | Serial_gps_bb.py:150-218 | one read changes the state and hands on a sentence exactly as `LegacyNext` says |
| LegacyGps.LegacyAssembler.Feed | Serial_gps_bb.py:147-218 | a finite stretch of reads ends in the state of `LegacyRun` and hands on its sentences, in order |
| CounterLine.MapGate | Serial_counter_mon3.py:129-133 | "Gate 1000s" is shown as "Gate 1K" and "Gate 10000s" as "Gate 10K"; any other gate is shown as it is |
| CounterLine.Padded | Serial_counter_mon3.py:124-127 | a count below 100000 gets one leading space, and any other count none |
| CounterLine.DecodeLine | Serial_counter_mon3.py:117-133 | a line without exactly one comma is skipped; a decoded line has its padding rule and its mapped gate |
| CounterLine.DecodeWellFormed | Serial_counter_mon3.py:117-133 | a line `gate,number` followed by any run of 'H' and 'z' decodes to that gate and number |
| CounterLine.DecodeLeadingZero | Serial_counter_mon3.py:123 | leading zeros on the count do not change the decode |
| CounterLine.NumberField | Serial_counter_mon3.py:118-123 | the second field is read by `float` as the numeral alone |
| CounterLine.NotTwoFields | Serial_counter_mon3.py:117-121 | a line without exactly one comma is skipped, whatever else it holds |
| CounterLine.Mon3Line | Serial_counter_mon3.py:106-121 | a read that fails to decode is skipped; otherwise the line is `rstrip`ped and decoded |
| CounterLine.Mon3TrailingNewline | Serial_counter_mon3.py:108 | trailing whitespace after the "Hz" does not change the decode |
| Reassembly.AsPrinted | Serial_counter_monbb.py:154 | a line is printed exactly when the decode succeeds, with its rebuilt mark |
| Reassembly.RbNext | Serial_counter_monbb.py:117-208 | a line is printed only for a decoded read of 26 bytes or when the collected count reaches exactly 26; a 26-byte read with text prints its own `rstrip`ped decode, and a short read that completes 26 bytes prints the decode of the collected text exactly when that splits in two; it is marked rebuilt exactly when the read was short; the process ends exactly when collected text of 26 bytes fails to split in two before any split has bound `counter`; once bound, `counter` stays bound |
| Reassembly.ShortReads | Serial_counter_monbb.py:121-132 | a decoded short read is appended, `rstrip`ped, and its byte count added; an undecodable short read, an empty read or an over-long read changes nothing |
| Reassembly.WholeReport | Serial_counter_monbb.py:159-182 | a 26-byte read empties both accumulators, is decoded on its own, binds `counter` when it splits in two, and never ends the process |
| Reassembly.RebuiltDecode | Serial_counter_monbb.py:134-156 | the collection is decoded when the counts reach 26, and a successful decode does not empty it |
| Reassembly.UnboundCounterEndsProcess | Serial_counter_monbb.py:134-142 | collected text of 26 bytes that does not split in two, before `counter` is bound, ends the process and prints nothing |
| Reassembly.RbAdvance | Serial_counter_monbb.py:115-189 | a run is its first read followed by the rest, in the state it leaves and in the lines printed |
| Reassembly.HaltedStays | Serial_counter_monbb.py:200-208 | once the process has ended, no read changes anything and nothing is printed |
| Reassembly.BoundNeverExits | Serial_counter_monbb.py:136-142 | once a split has bound `counter`, no later read ends the process |
| Reassembly.FirstRebuiltThreeFieldsEnds | Serial_counter_monbb.py:121-142 | from start-up, two short reads of 26 bytes in all whose text holds two commas end the process without printing |
| Reassembly.OvershootSticks | Serial_counter_monbb.py:129-156 | once the count passes 26 nothing more is printed, and the count stays past 26, until a whole report arrives |
| Reassembly.Reassembler.constructor | Serial_counter_monbb.py:40-42 | both accumulators start empty, `counter` unbound and the process running |
| Reassembly.Reassembler.Step | Serial_counter_monbb.py:117-187 | one read changes the state and prints exactly as `RbNext` says |
| Reassembly.Reassembler.ReadPart | Serial_counter_monbb.py:121-156 | a short read with text changes the state and prints exactly as `RbNext` says |
| Reassembly.Reassembler.ReadWhole | Serial_counter_monbb.py:159-186 | a 26-byte read changes the state and prints exactly as `RbNext` says |
| Reassembly.Reassembler.Feed | Serial_counter_monbb.py:115-189 | a finite stretch of reads ends in the state of `RbRun` and prints the lines of `RbPrinted`, in order |
| OledDisplay.ReadJsonNmea | oled_driver.py:49-71 | the count is 0 when the file is absent, unreadable or has no count; a null count is the text "  "; null is never handed on |
| OledDisplay.NmeaRoundTrip | oled_driver.py:64-68 | the driver reads back the satellite count the GPS monitor wrote |
| OledDisplay.ReadJsonCounter | oled_driver.py:74-98 | (0, 0, 0) when the file is absent or has no "counter"; nothing returned when it is not JSON; a KeyError exactly when "counter" lacks "gate" or "tstamp"; otherwise the stored values |
| OledDisplay.CounterRoundTrip | oled_driver.py:89-98 | the driver reads back the three values `write_json_data` stored |
| OledDisplay.JsonFloat | oled_driver.py:117 | `float` of a stored integer is that integer, and of null it raises |
| OledDisplay.FormatGate | oled_driver.py:140-151 | "1000s" gives 3 decimals, "1Ks" and 16 minutes; "10000s" gives 4 decimals, "10Ks" and 166 minutes; any other gate no label and 0 minutes |
| OledDisplay.MinutesLeft | oled_driver.py:154 | minutes left plus minutes since the stamp is the gate period |
| OledDisplay.MinutesRunDown | oled_driver.py:154 | the minutes left start at the full period, fall by one each minute, and reach zero one period after the stamp |
| OledDisplay.PadWidth | oled_driver.py:157-166 | 7, 6, 5, 3 or 2 spaces by the integer part's bucket, each bucket exactly |
| OledDisplay.DigitCount | oled_driver.py:157-166 | every number has at least one digit |
| OledDisplay.PaddingRightJustifies | oled_driver.py:157-166 | from 1000 to 99,999,999 the padding and the grouped integer part are always 12 characters wide |
| OledDisplay.SatText | oled_driver.py:126-135 | a non-integer text is shown as "  "; only a null value fails; an integer, or a text `int` reads, is shown as text that `int` reads back as the same number, with a leading space exactly when it is below 9 |
| OledDisplay.NineNotJustified | oled_driver.py:129 | counts 0 to 8 and 10 to 99 are two characters wide, but 9 is shown as "9" |
| OledDisplay.SatTextIntended | oled_driver.py:126-135 | the satellite column with the test `< 10`: the same error cases, and the number read back, with a leading space exactly when it is below 10 |
| OledDisplay.IntendedSatWidth | oled_driver.py:129 | with the test `< 10` every count from 0 to 99 is two characters wide |
| OledDisplay.DisplayFrame | oled_driver.py:112-168 | a frame is drawn exactly when the counter file gives three values, `float` reads the count and the stamp is an integer; a drawn frame holds that number with the padding of its integer part, the decimals and label of its gate, the satellite text and the minutes left of the gate period |
| OledDisplay.SatsNeverCrash | oled_driver.py:123-135 | the satellite column never fails |
| OledDisplay.StartupFrame | oled_driver.py:115-166 | the counter monitor's first snapshot shows a zero count after seven spaces, the 1000 s gate and its full 16 minutes |
| OledDisplay.GateLiteralIsNotANumber | oled_driver.py:117 | `float("1000s")` and `float("10000s")` raise |
| OledDisplay.SwappedReportCrashesDisplay | oled_driver.py:117 | as written, the first well-formed 1000 s report leaves "1000s" under "counter", and the display ends on `float("1000s")` |
| OledDisplay.IntendedCountShows | oled_driver.py:115-166 | with the intended call a 1000 s count is shown with three decimals, "1Ks" and a full gate period left |
| OledDisplay.IntendedReportShows | oled_driver.py:115-166 | with the intended call a well-formed 1000 s report is shown with its count, three decimals, "1Ks" and a full gate period left |

## Left out

- Serial and GPIO I/O are inputs, not calls. This covers pigpio open, close and read, the gate and reset pins, `reset_counter`'s sleep and pyserial `readline`. A read is a chunk: a byte count and its decoded text.
- UTF-8 decoding is not modelled. A chunk's text is given already decoded.
  - In `Serial_counter_monbb.py` a failed decode is `None` (`RawChunk.text`). A short read that fails to decode is skipped. A 26-byte read that fails to decode still empties both accumulators first (lines 159-162), and prints nothing.
  - In `Serial_counter_mon3.py` a failed read or decode is `None` (`Mon3Line`).
  - The `except ValueError.ParseError` and `except AttributeError` handlers around the decodes are not modelled. A decode with "ignore" does not raise.
- The NMEA parser (`pynmea2.parse`) is a function-typed parameter `Parser`. It returns the sentence's time and satellite field, or None where it raises `ParseError`. It always returns a GGA fix: a candidate sentence that `pynmea2` reads as another sentence type, whose `num_sats` then raises `AttributeError` and ends the process, is not modelled. Latitude, longitude and altitude are only printed, and are left out. A fix whose `timestamp` is None is not modelled.
- The clock and the time zone are inputs:
  - `time.time()` is a minute count per read (`Reading.minute`) and per display pass (`now`);
  - `datetime.now()` and `pytz` enter as the daylight-saving flag `Reading.isDst`.
- Snapshot files are values.
  - The monitors' snapshot is an in-memory map.
  - `json.dump`, and its `ValueError` handler, are not modelled.
  - The display sees a file as `FileState`: missing, not JSON, or a loaded object.
  - Only integer, string and null JSON values are modelled, because those are all the scripts store.
- Floating point is not modelled. A number is an exact `Decimal`.
  - `float` reads decimal text without exponents, `inf`, `nan` or underscores. `int` reads no underscores either (`"1_0"` is 10 in Python and an error here).
  - `"{:,.4f}"`/`"{:,.3f}"` formatting, rounding and the `lstrip('0')` of the formatted count (oled_driver.py:144, 149) are left out.
  - The frame keeps the number and the number of decimals instead.
  - `OledDisplay.PaddingRightJustifies` measures the grouped integer part with `GroupedWidth`, not the formatted text.
- Unicode digits other than '0' to '9' are not modelled: `int()` and `float()` accept ASCII digits only.
- Printing and logging are left out: `print`, `MyLogger`, the rotating log handler and the debug output. So is the drawing on the OLED (PIL, Adafruit).
- The endless `while True` loops and process exit are modelled as follows.
  - The loops run over finite sequences of reads.
  - An exception that ends a monitor is the flag `halted`. This covers the `ValueError` of a bad gate field in `process_data`, the failing `int(msg.num_sats)`, and the print of an unbound `counter` in `Serial_counter_monbb.py`.
  - An exception that ends the display is `Crashed`.
  - `KeyboardInterrupt` and `os._exit` are left out.
- The start-up of `Serial_counter_monbb.py`: `DEBUG` is `True` (line 26) and `status` is a local of `main`, assigned only at lines 193 and 203. So the test of `status` at line 111 raises `UnboundLocalError` on every run, before the loop, and the loop is unreachable as written. The evident intent is `status = pi.bb_serial_read_open(serial_port, 9600)` at line 108. The start-up is left out, and the read loop is modelled from line 115 on, as that fix would reach it.
- `CounterMonitor.Monitor.SetGate`: the pin levels written by `set_gate` are not modelled, only the global `gate`.
- `OledDisplay.DisplayFrame`: the frame records the padding and the number, not the drawn text. For the satellite column it records the text.
- `CounterMonitor.MonitorStep` and `OledDisplay.DisplayFrame` model the scripts as written. The swapped `write_json_data` call stays in the monitor's loop. The intended call is modelled beside it by `CounterMonitor.IntendedSnapshot`.
- `GpsMonitor.ParseGps`: the local time is reported as hour, minute and second numbers, not the formatted `"h:m:s"` text.

## Findings

| source | as written | input that shows it | evidently intended | confidence | as-written member | corrected member |
|---|---|---|---|---|---|---|
| Serial_gps_bb.py:203 | the leftover after '\r' is `right(data_s, pos-1)`, which keeps the character before the '\r' and, when '\r' is first in the chunk, only the chunk's last character | partial "$GPGGA" and then the chunk "\r\n$GP": the older loop keeps "P", so the next sentence's "$" is lost | keep what follows the '\r', as `right(data_s, pos+1)` in serial_bb_gps.py:251 | not executed | LegacyGps.LostSentenceStart | FrameAssembly.NextBuilding |
| serial_bb_counter.py:185 | `write_json_data(count, gate, tstamp)` against the parameters `(gate, counter, tstamp)` at line 192, so the count is stored under "gate" and the gate literal under "counter" | the report "Gate 1000s,,10000000.000 Hz": "counter" becomes "1000s", and the display's `float(counter)` at oled_driver.py:117 raises | `write_json_data(gate, count, tstamp)` | not executed | CounterMonitor.SwappedKeys, OledDisplay.SwappedReportCrashesDisplay | CounterMonitor.IntendedKeys, OledDisplay.IntendedReportShows |
| oled_driver.py:129 | `if sat_nbr < 9` pads counts below 9 only | 9 satellites are shown as "9", one character wide, while 8 and 10 are two wide | `if sat_nbr < 10` | not executed | OledDisplay.NineNotJustified | OledDisplay.IntendedSatWidth |
