/** The older GPS logger, Serial_gps_bb.py. Its `main` runs the same two loops as the
    newer monitors with begin marker '$', with three differences: a zero-count read while
    a sentence is being built ends the inner loop and abandons the sentence, the text
    kept after the end marker starts one character before it, and a lone "\n" is not
    dropped. Its `parseGPS` only prints. */
module LegacyGps {
  import opened Common
  import opened PyStr
  import opened FrameAssembly
  import GpsMonitor

  const Bol: char := '$'

  /** The cut of the older script: the second marker is found in `str_s[1:]` and the
      sentence is `right(str_s[1:], pos)`. */
  function LegacyCut(data: string): string
  {
    var s := Right(data, Find(data, [Bol]));
    if CountChar(s, Bol) > 1 then
      var tail := Right(s, 1);
      Right(tail, Find(tail, [Bol]))
    else s
  }

  /** Slicing `str_s[1:]` at the second marker is slicing `str_s` one further on: the
      older cut is the newer one. */
  lemma LegacyCutIsCut(data: string)
    requires Bol in data
    ensures LegacyCut(data) == Cut(data, Bol)
  {
    FindChar(data, Bol);
    var s := data[Find(data, [Bol])..];
    if CountChar(s, Bol) > 1 {
      var t := s[1..];
      assert CountChar(t, Bol) > 0;
      CountPositive(t, Bol);
      FindChar(t, Bol);
      assert t[Find(t, [Bol])..] == s[Find(t, [Bol]) + 1..];
    }
  }

  /** One read of the older loops. The inner loop checks every read for '\r', appends it
      otherwise, and leaves when the read was empty. */
  function LegacyNext(s: AsmState, c: Chunk): (r: StepResult)
    ensures r.sentence.Some? <==> s.phase == Building && EOL in c.text
    ensures s.phase == Searching && c.count == 0 ==> r == StepResult(s, None)
    ensures s.phase == Searching && c.count > 0 ==> r.state.leftover == s.leftover
  {
    match s.phase
    case Searching =>
      if c.count == 0 then StepResult(s, None)
      else
        var data := s.leftover + c.text;
        if Bol in data then StepResult(AsmState(Building, LegacyCut(data), s.leftover), None)
        else StepResult(AsmState(Searching, "", s.leftover), None)
    case Building =>
      if EOL in c.text then
        var pos := Find(c.text, [EOL]);
        var sentence := s.partial + Left(c.text, pos);
        StepResult(AsmState(Searching, sentence, Right(c.text, pos - 1)), Some(sentence))
      else
        StepResult(AsmState(if c.count > 0 then Building else Searching, s.partial + c.text, s.leftover), None)
  }

  function LegacyRun(s: AsmState, cs: seq<Chunk>): RunResult
    decreases |cs|
  {
    if cs == [] then RunResult(s, [])
    else
      var step := LegacyNext(s, cs[0]);
      var rest := LegacyRun(step.state, cs[1..]);
      RunResult(rest.state, Emitted(step.sentence) + rest.sentences)
  }

  /** The first read of a run moves into what has been handed on so far. */
  lemma LegacyRunStep(s: AsmState, cs: seq<Chunk>, handed: seq<string>)
    requires cs != []
    ensures var step := LegacyNext(s, cs[0]); var r := LegacyRun(s, cs); var rest := LegacyRun(step.state, cs[1..]);
            RunResult(r.state, handed + r.sentences) == RunResult(rest.state, (handed + Emitted(step.sentence)) + rest.sentences)
  {
    var step := LegacyNext(s, cs[0]);
    var rest := LegacyRun(step.state, cs[1..]);
    assert handed + (Emitted(step.sentence) + rest.sentences) == (handed + Emitted(step.sentence)) + rest.sentences;
  }

  /** While searching, the older loop does what the newer one does. */
  lemma SearchingAgrees(s: AsmState, c: Chunk)
    requires s.phase == Searching
    ensures LegacyNext(s, c) == Next(s, Bol, c)
  {
    if c.count > 0 && Bol in s.leftover + c.text {
      LegacyCutIsCut(s.leftover + c.text);
    }
  }

  /** A zero-count read while building, without '\r', ends the inner loop: the sentence
      is not handed on, and the next read with data starts searching afresh. */
  lemma ZeroReadAbandons(s: AsmState, c: Chunk)
    requires s.phase == Building && c.count == 0 && EOL !in c.text
    ensures LegacyNext(s, c) == StepResult(AsmState(Searching, s.partial + c.text, s.leftover), None)
  {
  }

  /** The text kept after the end marker at `pos` starts at `pos - 1`, so it holds the
      character before the '\r' and the '\r' itself, and no "\n" is dropped; at `pos == 0`
      the slice from -1 keeps only the last character of the chunk. */
  lemma LegacyLeftover(s: AsmState, c: Chunk, pos: nat)
    requires s.phase == Building && pos < |c.text| && c.text[pos] == EOL && EOL !in c.text[..pos]
    ensures LegacyNext(s, c).sentence == Some(s.partial + c.text[..pos])
    ensures pos >= 1 ==> LegacyNext(s, c).state.leftover == c.text[pos - 1..]
    ensures pos == 0 ==> LegacyNext(s, c).state.leftover == [c.text[|c.text| - 1]]
  {
    FindChar(c.text, EOL);
    FirstIndexUnique(c.text, EOL, pos, Find(c.text, [EOL]));
    assert c.text[|c.text| - 1..] == [c.text[|c.text| - 1]];
  }

  /** A sentence ending right at the start of a chunk, with the next sentence's start in
      that same chunk: the older loop keeps only the chunk's last character, so the next
      sentence is lost unless the chunk ends with its '$'; the newer loop keeps all that
      follows the '\r'. */
  lemma LostSentenceStart(p: string, l: string, t: string, n: nat)
    requires t != [] && t != "\n" && n > 0
    ensures LegacyNext(AsmState(Building, p, l), Chunk(n, [EOL] + t)) ==
              StepResult(AsmState(Searching, p, [t[|t| - 1]]), Some(p))
    ensures Next(AsmState(Building, p, l), Bol, Chunk(n, [EOL] + t)) ==
              StepResult(AsmState(Searching, p, t), Some(p))
  {
    var s, c := AsmState(Building, p, l), Chunk(n, [EOL] + t);
    assert c.text[0] == EOL && c.text[..0] == [] && c.text[1..] == t && p + [] == p;
    LegacyLeftover(s, c, 0);
    NextBuilding(s, Bol, c, 0);
  }

  /** A sentence `'$' + a + b` read as `'$' + a`, an empty read, and `b + '\r'`. */
  function Interrupted(a: string, b: string, n1: nat, n2: nat): seq<Chunk>
  {
    [Chunk(n1, [Bol] + a)] + ([Chunk(0, "")] + [Chunk(n2, b + [EOL])])
  }

  /** A run of the older loop over one read followed by more. */
  lemma LegacyRunHead(s: AsmState, c: Chunk, cs: seq<Chunk>)
    ensures var step := LegacyNext(s, c); var rest := LegacyRun(step.state, cs);
            LegacyRun(s, [c] + cs) == RunResult(rest.state, Emitted(step.sentence) + rest.sentences)
  {
    assert ([c] + cs)[0] == c && ([c] + cs)[1..] == cs;
  }

  /** The older loop abandons the sentence at the empty read and then searches afresh,
      so the '\r' that ends it goes unseen and nothing is handed on. */
  lemma ZeroReadLosesSentence(a: string, b: string, n1: nat, n2: nat)
    requires Bol !in a && Bol !in b && n1 > 0 && n2 > 0
    ensures LegacyRun(Initial, Interrupted(a, b, n1, n2)).sentences == []
  {
    var first, zero, last := Chunk(n1, [Bol] + a), Chunk(0, ""), Chunk(n2, b + [EOL]);
    var s1 := AsmState(Building, first.text, "");
    var s2 := AsmState(Searching, first.text, "");
    var s3 := AsmState(Searching, "", "");
    assert LegacyNext(Initial, first) == StepResult(s1, None) by {
      assert Initial.leftover + first.text == first.text && first.text[1..] == a;
      CutAtFirst(first.text, Bol, 0);
      LegacyCutIsCut(first.text);
    }
    ZeroReadAbandons(s1, zero);
    assert LegacyNext(s2, last) == StepResult(s3, None) by {
      assert "" + last.text == last.text && Bol !in last.text;
    }
    LegacyRunHead(s2, last, []);
    assert [last] + [] == [last];
    LegacyRunHead(s1, zero, [last]);
    LegacyRunHead(Initial, first, [zero] + [last]);
  }

  /** The newer loop skips the empty read and hands the whole sentence on. */
  lemma ZeroReadKeepsSentence(a: string, b: string, n1: nat, n2: nat)
    requires Bol !in a && EOL !in b && n1 > 0 && n2 > 0
    ensures Run(Initial, Bol, Interrupted(a, b, n1, n2)).sentences == [[Bol] + a + b]
  {
    var first, zero, last := Chunk(n1, [Bol] + a), Chunk(0, ""), Chunk(n2, b + [EOL]);
    var s1 := AsmState(Building, first.text, "");
    assert Run(s1, Bol, [zero] + [last]).sentences == [[Bol] + a + b] by {
      assert last.text[|b|] == EOL && last.text[..|b|] == b;
      SentenceEnds(s1, Bol, [], last, |b|);
      assert [] + [last] == [last];
      assert JoinedTexts([]) == [] && first.text + [] == first.text;
      RunHead(s1, Bol, zero, [last]);
    }
    assert Next(Initial, Bol, first) == StepResult(s1, None) by {
      assert Initial.leftover + first.text == first.text && first.text[1..] == a;
      CutAtFirst(first.text, Bol, 0);
      NextSearching(Initial, Bol, first);
    }
    RunHead(Initial, Bol, first, [zero] + [last]);
  }

  /** `parseGPS` of the older script: it only prints. */
  datatype LegacyOutcome =
    | NotCandidate
    | ParseFailed
    | Printed(hour: int, minute: int, second: int)  // the local time it prints

  /** The candidate test of the newer script, and a fixed two-hour offset. */
  function LegacyParseGps(xstr: string, parse: GpsMonitor.Parser): (r: LegacyOutcome)
    ensures r.NotCandidate? <==> !GpsMonitor.IsCandidate(xstr)
    ensures r.ParseFailed? <==> GpsMonitor.IsCandidate(xstr) && parse(xstr).None?
    ensures r.Printed? ==> parse(xstr).Some? && r.hour == parse(xstr).value.hour + 2 &&
                           r.minute == parse(xstr).value.minute && r.second == parse(xstr).value.second
  {
    if !GpsMonitor.IsCandidate(xstr) then NotCandidate
    else match parse(xstr)
      case None => ParseFailed
      case Some(fix) => Printed(fix.hour + 2, fix.minute, fix.second)
  }

  /** The older offset is the newer one under daylight saving, whatever the season. */
  lemma LegacyOffsetIsSummerTime(xstr: string, parse: GpsMonitor.Parser)
    requires GpsMonitor.ParseGps(xstr, parse, true).Reported?
    ensures LegacyParseGps(xstr, parse).Printed?
    ensures LegacyParseGps(xstr, parse).hour == GpsMonitor.ParseGps(xstr, parse, true).hour
  {
  }

  /** The assembler of the older script. */
  class LegacyAssembler {
    var phase: Phase
    var partial: string
    var leftover: string

    function State(): AsmState
      reads this
    {
      AsmState(phase, partial, leftover)
    }

    constructor ()
      ensures State() == Initial
    {
      phase, partial, leftover := Searching, "", "";
    }

    /** One read: `count` bytes that decoded to `text`. */
    method Step(count: nat, text: string) returns (sentence: Option<string>)
      modifies this
      ensures StepResult(State(), sentence) == LegacyNext(old(State()), Chunk(count, text))
    {
      sentence := None;
      if phase == Searching {
        if count == 0 {
          // still waiting for a string with data
          return;
        }
        var data := leftover + text;
        if Bol in data {
          var pos := Find(data, [Bol]);
          partial := Right(data, pos);
          if CountChar(partial, Bol) > 1 {
            pos := Find(Right(partial, 1), [Bol]);
            partial := Right(Right(partial, 1), pos);
          }
          phase := Building;
        } else {
          partial := "";
        }
      } else {
        if EOL in text {
          var pos := Find(text, [EOL]);
          partial := partial + Left(text, pos);
          sentence := Some(partial);
          leftover := Right(text, pos - 1);
          phase := Searching;
        } else {
          partial := partial + text;
          if count == 0 {
            phase := Searching;
          }
        }
      }
    }

    /** A finite stretch of reads; the sentences handed on, in order. */
    method Feed(chunks: seq<Chunk>) returns (sentences: seq<string>)
      modifies this
      ensures RunResult(State(), sentences) == LegacyRun(old(State()), chunks)
    {
      sentences := [];
      var i := 0;
      assert chunks[i..] == chunks;
      while i < |chunks|
        invariant 0 <= i <= |chunks|
        invariant LegacyRun(old(State()), chunks) ==
                    RunResult(LegacyRun(State(), chunks[i..]).state, sentences + LegacyRun(State(), chunks[i..]).sentences)
      {
        ghost var before := State();
        var f := Step(chunks[i].count, chunks[i].text);
        assert chunks[i..][0] == Chunk(chunks[i].count, chunks[i].text) && chunks[i..][1..] == chunks[i + 1..];
        LegacyRunStep(before, chunks[i..], sentences);
        sentences := sentences + Emitted(f);
        i := i + 1;
      }
    }
  }
}
