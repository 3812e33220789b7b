/** The begin/end-marker frame assembler of the bit-banged serial monitors
    (serial_bb_counter.py with begin marker 'G', serial_bb_gps.py with '$'). Both scripts
    run the same nested loops in `main`: an outer loop that waits for a chunk holding the
    begin marker, and an inner loop that appends chunks until one holds the end marker
    '\r'. The sentence under construction is `partial` (the scripts' `str_s`), the text
    carried over from the chunk that ended the previous sentence is `leftover` (`str_r`),
    and which of the two loops is running is the `phase`. */
module FrameAssembly {
  import opened Common
  import opened PyStr

  /** The end-of-line marker; the sender follows it with '\n'. */
  const EOL: char := '\r'

  datatype Phase = Searching | Building

  datatype AsmState = AsmState(phase: Phase, partial: string, leftover: string)

  /** The state `main` starts the loops in. */
  const Initial: AsmState := AsmState(Searching, "", "")

  /** Where the sentence starts in `data` (leftover plus the new chunk): at the first
      begin marker, or, when the text from there on holds more than one, at the second. */
  function Cut(data: string, bol: char): string
  {
    var pos := Find(data, [bol]);
    var s := Right(data, pos);
    if CountChar(s, bol) > 1 then Right(s, Find(Right(s, 1), [bol]) + 1) else s
  }

  /** The text from the first begin marker on. */
  lemma FromFirstMarker(data: string, bol: char)
    requires bol in data
    ensures var i := Find(data, [bol]); 0 <= i < |data| && data[i] == bol && Right(data, i) == data[i..]
  {
    FindChar(data, bol);
  }

  /** In a text that starts with the begin marker and holds another, the second one. */
  lemma FromSecondMarker(s: string, bol: char)
    requires s != [] && s[0] == bol && CountChar(s, bol) > 1
    ensures var j := Find(Right(s, 1), [bol]); 0 <= j && j + 1 < |s| && s[j + 1] == bol && Right(s, j + 1) == s[j + 1..]
  {
    var t := s[1..];
    assert Right(s, 1) == t;
    assert CountChar(s, bol) == 1 + CountChar(t, bol);
    CountPositive(t, bol);
    FindChar(t, bol);
  }

  /** The cut starts at an index `k` where `data` holds the begin marker. */
  lemma CutIndex(data: string, bol: char) returns (k: nat)
    requires bol in data
    ensures k < |data| && data[k] == bol && Cut(data, bol) == data[k..]
  {
    FromFirstMarker(data, bol);
    var i := Find(data, [bol]);
    k := i;
    if CountChar(data[i..], bol) > 1 {
      FromSecondMarker(data[i..], bol);
      var j := Find(Right(data[i..], 1), [bol]);
      assert data[i..][j + 1..] == data[i + j + 1..];
      k := i + j + 1;
    }
  }

  /** The cut is a suffix of `data` that starts with the begin marker. */
  lemma CutShape(data: string, bol: char)
    requires bol in data
    ensures var r := Cut(data, bol); |r| >= 1 && r[0] == bol && r == data[|data| - |r|..]
  {
    var k := CutIndex(data, bol);
    assert |data| - |data[k..]| == k;
  }

  /** With a single begin marker from index `i` on, the sentence starts at `i`. */
  lemma CutAtFirst(data: string, bol: char, i: nat)
    requires i < |data| && data[i] == bol && bol !in data[..i] && bol !in data[i + 1..]
    ensures bol in data && Cut(data, bol) == data[i..]
  {
    FindAt(data, bol, i);
    var s := data[i..];
    assert Right(data, i) == s;
    assert s[1..] == data[i + 1..];
    assert CountChar(s, bol) == 1 + CountChar(s[1..], bol);
    CountPositive(s[1..], bol);
  }

  /** With a second begin marker at `j`, the sentence starts at `j`, whatever follows:
      a third marker stays inside the sentence. */
  lemma CutAtSecond(data: string, bol: char, i: nat, j: nat)
    requires i < j < |data| && data[i] == bol && data[j] == bol
    requires bol !in data[..i] && bol !in data[i + 1..j]
    ensures bol in data && Cut(data, bol) == data[j..]
  {
    FindAt(data, bol, i);
    var s := data[i..];
    assert Right(data, i) == s;
    var t := s[1..];
    assert t == data[i + 1..] && Right(s, 1) == t;
    assert t[j - i - 1] == bol && t[..j - i - 1] == data[i + 1..j];
    FindAt(t, bol, j - i - 1);
    assert CountChar(s, bol) == 1 + CountChar(t, bol);
    CountPositive(t, bol);
    assert Right(s, j - i) == s[j - i..] == data[j..];
  }

  /** What one read does: the new state, and the sentence handed on, if any. */
  datatype StepResult = StepResult(state: AsmState, sentence: Option<string>)

  /** What a stretch of reads does: the final state and the sentences handed on, in order. */
  datatype RunResult = RunResult(state: AsmState, sentences: seq<string>)

  /** One read of the serial driver (one pass of the inner or outer loop body). */
  function Next(s: AsmState, bol: char, c: Chunk): (r: StepResult)
    ensures c.count == 0 ==> r == StepResult(s, None)
    ensures r.sentence.Some? <==> s.phase == Building && c.count > 0 && EOL in c.text
    ensures s.phase == Searching && c.count > 0 ==> r.state.leftover == s.leftover
  {
    if c.count == 0 then StepResult(s, None)
    else match s.phase
      case Searching =>
        var data := s.leftover + c.text;
        if bol in data then StepResult(AsmState(Building, Cut(data, bol), s.leftover), None)
        else StepResult(AsmState(Searching, "", s.leftover), None)
      case Building =>
        if EOL in c.text then
          var pos := Find(c.text, [EOL]);
          var sentence := s.partial + Left(c.text, pos);
          var rest := Right(c.text, pos + 1);
          StepResult(AsmState(Searching, sentence, if rest == "\n" then "" else rest), Some(sentence))
        else StepResult(AsmState(Building, s.partial + c.text, s.leftover), None)
  }

  /** While searching: a chunk whose leftover-plus-chunk text holds no begin marker
      empties the sentence under construction; one that holds it starts the sentence at
      the cut. The leftover is kept either way. */
  lemma NextSearching(s: AsmState, bol: char, c: Chunk)
    requires s.phase == Searching && c.count > 0
    ensures bol !in s.leftover + c.text ==>
              Next(s, bol, c) == StepResult(AsmState(Searching, "", s.leftover), None)
    ensures bol in s.leftover + c.text ==>
              Next(s, bol, c) == StepResult(AsmState(Building, Cut(s.leftover + c.text, bol), s.leftover), None)
  {
  }

  /** While building: a chunk without '\r' is appended whole; a chunk whose first '\r'
      is at `pos` ends the sentence there, and what follows that '\r' is the new
      leftover, except that a lone "\n" is dropped. */
  lemma NextBuilding(s: AsmState, bol: char, c: Chunk, pos: nat)
    requires s.phase == Building && c.count > 0
    ensures EOL !in c.text ==>
              Next(s, bol, c) == StepResult(AsmState(Building, s.partial + c.text, s.leftover), None)
    ensures pos < |c.text| && c.text[pos] == EOL && EOL !in c.text[..pos] ==>
              var sentence := s.partial + c.text[..pos];
              var rest := c.text[pos + 1..];
              Next(s, bol, c) ==
                StepResult(AsmState(Searching, sentence, if rest == "\n" then "" else rest), Some(sentence))
  {
    FindChar(c.text, EOL);
    if pos < |c.text| && c.text[pos] == EOL && EOL !in c.text[..pos] {
      FirstIndexUnique(c.text, EOL, pos, Find(c.text, [EOL]));
    }
  }

  function Emitted(f: Option<string>): seq<string>
  {
    if f.Some? then [f.value] else []
  }

  /** A stretch of reads, one `Next` after another. */
  function Run(s: AsmState, bol: char, cs: seq<Chunk>): RunResult
    decreases |cs|
  {
    if cs == [] then RunResult(s, [])
    else
      var step := Next(s, bol, cs[0]);
      var rest := Run(step.state, bol, cs[1..]);
      RunResult(rest.state, Emitted(step.sentence) + rest.sentences)
  }

  /** A run over one read followed by more. */
  lemma RunHead(s: AsmState, bol: char, c: Chunk, cs: seq<Chunk>)
    ensures var step := Next(s, bol, c); var rest := Run(step.state, bol, cs);
            Run(s, bol, [c] + cs) == RunResult(rest.state, Emitted(step.sentence) + rest.sentences)
  {
    assert ([c] + cs)[0] == c && ([c] + cs)[1..] == cs;
  }

  /** The first read of a run moves into what has been handed on so far. */
  lemma RunStep(s: AsmState, bol: char, cs: seq<Chunk>, handed: seq<string>)
    requires cs != []
    ensures var step := Next(s, bol, cs[0]); var r := Run(s, bol, cs); var rest := Run(step.state, bol, cs[1..]);
            RunResult(r.state, handed + r.sentences) == RunResult(rest.state, (handed + Emitted(step.sentence)) + rest.sentences)
  {
    var step := Next(s, bol, cs[0]);
    var rest := Run(step.state, bol, cs[1..]);
    assert handed + (Emitted(step.sentence) + rest.sentences) == (handed + Emitted(step.sentence)) + rest.sentences;
  }

  /** The reads that carry data. */
  function NonZero(cs: seq<Chunk>): (r: seq<Chunk>)
    ensures forall k :: 0 <= k < |r| ==> r[k].count > 0
    ensures |r| <= |cs|
  {
    if cs == [] then []
    else (if cs[0].count == 0 then [] else [cs[0]]) + NonZero(cs[1..])
  }

  /** Zero-count reads change nothing, in either loop: a run with them left out ends
      in the same state and hands on the same sentences. */
  lemma {:induction false} ZeroReadsIgnored(s: AsmState, bol: char, cs: seq<Chunk>)
    ensures Run(s, bol, cs) == Run(s, bol, NonZero(cs))
    decreases |cs|
  {
    if cs != [] {
      var step := Next(s, bol, cs[0]);
      if cs[0].count == 0 {
        ZeroReadsIgnored(s, bol, cs[1..]);
        assert NonZero(cs) == NonZero(cs[1..]);
        assert Run(s, bol, cs) == Run(s, bol, cs[1..]);
      } else {
        ZeroReadsIgnored(step.state, bol, cs[1..]);
        var n := NonZero(cs);
        assert n == [cs[0]] + NonZero(cs[1..]);
        assert n[0] == cs[0] && n[1..] == NonZero(cs[1..]);
      }
    }
  }

  /** No chunk of `cs` that carries data holds the end marker. */
  predicate NoEol(cs: seq<Chunk>)
  {
    forall k :: 0 <= k < |cs| ==> cs[k].count == 0 || EOL !in cs[k].text
  }

  lemma NoEolTail(cs: seq<Chunk>)
    requires cs != [] && NoEol(cs)
    ensures NoEol(cs[1..])
  {
    forall k | 0 <= k < |cs[1..]| ensures cs[1..][k].count == 0 || EOL !in cs[1..][k].text {
      assert cs[1..][k] == cs[k + 1];
    }
  }

  /** While a sentence is being built, chunks without the end marker are appended whole,
      whatever their contents (begin markers included), and nothing is handed on. */
  lemma {:induction false} BuildingAppends(s: AsmState, bol: char, cs: seq<Chunk>)
    requires s.phase == Building && NoEol(cs)
    ensures Run(s, bol, cs) == RunResult(AsmState(Building, s.partial + JoinedTexts(cs), s.leftover), [])
    decreases |cs|
  {
    if cs != [] {
      NoEolTail(cs);
      var s1 := Next(s, bol, cs[0]).state;
      if cs[0].count > 0 {
        NextBuilding(s, bol, cs[0], 0);
      }
      BuildingAppends(s1, bol, cs[1..]);
      assert JoinedTexts(cs) == (if cs[0].count == 0 then "" else cs[0].text) + JoinedTexts(cs[1..]);
      assert s.partial + JoinedTexts(cs) == s1.partial + JoinedTexts(cs[1..]);
    }
  }

  /** A run over `a + b` is the run over `a` followed by the run over `b`. */
  lemma {:induction false} RunAppend(s: AsmState, bol: char, a: seq<Chunk>, b: seq<Chunk>)
    ensures var ra := Run(s, bol, a); var rb := Run(ra.state, bol, b);
            Run(s, bol, a + b) == RunResult(rb.state, ra.sentences + rb.sentences)
    decreases |a|
  {
    if a == [] {
      assert a + b == b;
    } else {
      var step := Next(s, bol, a[0]);
      assert (a + b)[0] == a[0] && (a + b)[1..] == a[1..] + b;
      RunAppend(step.state, bol, a[1..], b);
      var ra1 := Run(step.state, bol, a[1..]);
      var rb := Run(ra1.state, bol, b);
      assert Emitted(step.sentence) + (ra1.sentences + rb.sentences)
          == (Emitted(step.sentence) + ra1.sentences) + rb.sentences;
    }
  }

  /** Reads without the end marker and then a chunk whose first '\r' is at `pos`, while
      a sentence is being built: the sentence is handed on with every chunk's text up
      to that '\r' appended. */
  lemma SentenceEnds(s: AsmState, bol: char, middle: seq<Chunk>, last: Chunk, pos: nat)
    requires s.phase == Building && NoEol(middle)
    requires last.count > 0 && pos < |last.text| && last.text[pos] == EOL && EOL !in last.text[..pos]
    ensures var sentence := s.partial + JoinedTexts(middle) + last.text[..pos];
            var rest := last.text[pos + 1..];
            Run(s, bol, middle + [last]) ==
              RunResult(AsmState(Searching, sentence, if rest == "\n" then "" else rest), [sentence])
  {
    BuildingAppends(s, bol, middle);
    RunAppend(s, bol, middle, [last]);
    var s2 := AsmState(Building, s.partial + JoinedTexts(middle), s.leftover);
    NextBuilding(s2, bol, last, pos);
    RunHead(s2, bol, last, []);
    assert [last] + [] == [last];
  }

  /** A whole sentence: a chunk that brings in the begin marker, any number of reads
      without the end marker, and a chunk whose first '\r' is at `pos`. The sentence is
      the cut, then every later chunk's text, then the last chunk up to that '\r'; so how
      the text in between was split into chunks makes no difference. */
  lemma OneSentence(s: AsmState, bol: char, first: Chunk, middle: seq<Chunk>, last: Chunk, pos: nat)
    requires s.phase == Searching && first.count > 0 && bol in s.leftover + first.text
    requires NoEol(middle)
    requires last.count > 0 && pos < |last.text| && last.text[pos] == EOL && EOL !in last.text[..pos]
    ensures var sentence := Cut(s.leftover + first.text, bol) + JoinedTexts(middle) + last.text[..pos];
            var rest := last.text[pos + 1..];
            Run(s, bol, [first] + middle + [last]) ==
              RunResult(AsmState(Searching, sentence, if rest == "\n" then "" else rest), [sentence])
  {
    NextSearching(s, bol, first);
    SentenceEnds(Next(s, bol, first).state, bol, middle, last, pos);
    RunHead(s, bol, first, middle + [last]);
    assert [first] + middle + [last] == [first] + (middle + [last]);
  }

  /** Between reads, a sentence under construction always starts with the begin marker. */
  predicate Inv(s: AsmState, bol: char)
  {
    s.phase == Building ==> s.partial != [] && s.partial[0] == bol
  }

  /** Starting where a sentence under construction starts with the begin marker, every
      sentence the assembler hands on starts with it, and that stays so. */
  lemma {:induction false} SentencesStartWithMarker(s: AsmState, bol: char, cs: seq<Chunk>)
    requires Inv(s, bol)
    ensures Inv(Run(s, bol, cs).state, bol)
    ensures forall k :: 0 <= k < |Run(s, bol, cs).sentences| ==>
              Run(s, bol, cs).sentences[k] != [] && Run(s, bol, cs).sentences[k][0] == bol
    decreases |cs|
  {
    if cs != [] {
      var step := Next(s, bol, cs[0]);
      if s.phase == Searching && cs[0].count > 0 && bol in s.leftover + cs[0].text {
        CutShape(s.leftover + cs[0].text, bol);
      }
      assert Inv(step.state, bol);
      SentencesStartWithMarker(step.state, bol, cs[1..]);
    }
  }

  /** The end marker is only looked for in the chunks after the one that held the begin
      marker: a whole sentence arriving in one chunk is not handed on, and its "\r\n"
      stays in the sentence under construction. */
  lemma SingleChunkSentenceWaits()
    ensures Next(Initial, 'G', Chunk(4, "Gx\r\n")) == StepResult(AsmState(Building, "Gx\r\n", ""), None)
  {
    var data := "Gx\r\n";
    assert data[1..] == "x\r\n" && data[..0] == [];
    CutAtFirst(data, 'G', 0);
    assert Initial.leftover + data == data;
    NextSearching(Initial, 'G', Chunk(4, data));
  }

  /** The assembler of one script: the begin marker is fixed at construction. */
  class FrameAssembler {
    const bol: char
    var phase: Phase
    var partial: string
    var leftover: string

    function State(): AsmState
      reads this
    {
      AsmState(phase, partial, leftover)
    }

    constructor (bol: char)
      ensures this.bol == bol && State() == Initial
    {
      this.bol := bol;
      phase, partial, leftover := Searching, "", "";
    }

    /** One read: `count` bytes that decoded to `text`. */
    method Step(count: nat, text: string) returns (sentence: Option<string>)
      modifies this
      ensures StepResult(State(), sentence) == Next(old(State()), bol, Chunk(count, text))
    {
      sentence := None;
      if count == 0 {
        // wait for real data, in either loop
        return;
      }
      if phase == Searching {
        var data := leftover + text;
        if bol in data {
          var pos := Find(data, [bol]);
          partial := Right(data, pos);
          if CountChar(partial, bol) > 1 {
            pos := Find(Right(partial, 1), [bol]);
            partial := Right(partial, pos + 1);
          }
          phase := Building;
        } else {
          partial := "";
        }
      } else {
        if EOL in text {
          var pos := Find(text, [EOL]);
          partial := partial + Left(text, pos);
          sentence := Some(partial);
          leftover := Right(text, pos + 1);
          if leftover == "\n" {
            leftover := "";
          }
          phase := Searching;
        } else {
          partial := partial + text;
        }
      }
    }

    /** A finite stretch of reads; the sentences handed on, in order. */
    method Feed(chunks: seq<Chunk>) returns (sentences: seq<string>)
      modifies this
      ensures RunResult(State(), sentences) == Run(old(State()), bol, chunks)
    {
      sentences := [];
      var i := 0;
      assert chunks[i..] == chunks;
      while i < |chunks|
        invariant 0 <= i <= |chunks|
        invariant Run(old(State()), bol, chunks) ==
                    RunResult(Run(State(), bol, chunks[i..]).state, sentences + Run(State(), bol, chunks[i..]).sentences)
      {
        ghost var before := State();
        var f := Step(chunks[i].count, chunks[i].text);
        assert chunks[i..][0] == Chunk(chunks[i].count, chunks[i].text) && chunks[i..][1..] == chunks[i + 1..];
        RunStep(before, bol, chunks[i..], sentences);
        sentences := sentences + Emitted(f);
        i := i + 1;
      }
    }
  }
}
