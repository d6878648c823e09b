/**
  src/voice_generator.py without its speech engine: the cleaning of a story
  into narration (`extract_story_text`) and the way the per-sentence
  results of `kokoro.create` are put together by `generate_voice` and
  `generate_and_measure_audio`. Sentence segmentation (pysbd) and the
  synthesis itself are inputs: one outcome per sentence.
*/
module Voice {

  import opened Outcomes
  import opened PyStr

  // ---------------------------------------------------------------------
  // metadata lines
  // ---------------------------------------------------------------------

  /** The number of '#' characters a line starts with. */
  function HashRun(s: string): (n: nat)
    ensures n <= |s|
    ensures forall i :: 0 <= i < n ==> s[i] == '#'
    ensures n == |s| || s[n] != '#'
  {
    if s != [] && s[0] == '#' then 1 + HashRun(s[1..]) else 0
  }

  /** The alternative `^#+\s.*`: a run of '#' followed by whitespace. */
  predicate IsHeading(line: string) {
    var n := HashRun(line);
    1 <= n < |line| && IsSpace(line[n])
  }

  /** `re.match(r"^Image:|^Text:|\*\*.*?\*\*|^#+\s.*|\[.*?\]:", line)`: every
      alternative is anchored at the start of the line, and `.` matches any
      character of a line. */
  predicate IsMetadataLine(line: string) {
    || StartsWith(line, "Image:")
    || StartsWith(line, "Text:")
    || (StartsWith(line, "**") && Contains(line[2..], "**"))
    || IsHeading(line)
    || (StartsWith(line, "[") && Contains(line[1..], "]:"))
  }

  lemma HeadingExample()
    ensures IsMetadataLine("## Part 1") && !IsMetadataLine("#hashtag story")
  {
    assert HashRun("## Part 1") == 2;
    assert HashRun("#hashtag story") == 1;
    assert !StartsWith("#hashtag story", "[");
  }

  // ---------------------------------------------------------------------
  // bracket groups and emoji
  // ---------------------------------------------------------------------

  /** The index of the first ']' in `s`, or |s| when there is none. */
  function CloseIndex(s: string): (n: nat)
    ensures n <= |s|
    ensures forall i :: 0 <= i < n ==> s[i] != ']'
    ensures n < |s| ==> s[n] == ']'
    ensures n == |s| <==> ']' !in s
  {
    if s == [] then 0 else if s[0] == ']' then 0 else 1 + CloseIndex(s[1..])
  }

  /** `re.sub(r"\[.*?\]", "", line)`: left to right, each '[' with a later ']'
      is removed together with everything up to the first such ']'; a '['
      without a later ']' stays. */
  function RemoveBracketGroups(s: string): (r: string)
    ensures forall c :: c in r ==> c in s
    ensures |r| <= |s|
    decreases |s|
  {
    if s == [] then []
    else if s[0] == '[' && ']' in s[1..] then
      var j := 1 + CloseIndex(s[1..]);
      RemoveBracketGroups(s[j + 1..])
    else
      var rest := RemoveBracketGroups(s[1..]);
      assert forall c :: c in rest ==> c in s by {
        forall c | c in rest ensures c in s {
          assert c in s[1..];
        }
      }
      [s[0]] + rest
  }

  /** No '[' is followed by a ']' in `s`: no bracket group is left. */
  predicate NoBracketGroup(s: string) {
    forall i, j :: 0 <= i < j < |s| && s[i] == '[' ==> s[j] != ']'
  }

  /** What the substitution leaves has no bracket group. */
  lemma {:induction false} BracketGroupsGone(s: string)
    ensures NoBracketGroup(RemoveBracketGroups(s))
    decreases |s|
  {
    if s == [] {
    } else if s[0] == '[' && ']' in s[1..] {
      var j := 1 + CloseIndex(s[1..]);
      BracketGroupsGone(s[j + 1..]);
    } else {
      var rest := RemoveBracketGroups(s[1..]);
      BracketGroupsGone(s[1..]);
      if s[0] == '[' {
        assert ']' !in rest;
      }
      NoBracketGroupCons(s[0], rest);
    }
  }

  /** A character put before a string without a bracket group makes none,
      unless it opens one that the string closes. */
  lemma NoBracketGroupCons(c: char, rest: string)
    requires NoBracketGroup(rest)
    requires c == '[' ==> ']' !in rest
    ensures NoBracketGroup([c] + rest)
  {
    var r := [c] + rest;
    forall i, j | 0 <= i < j < |r| && r[i] == '[' ensures r[j] != ']' {
      assert r[j] == rest[j - 1];
      if i > 0 {
        assert r[i] == rest[i - 1];
      }
    }
  }

  /** A line without '[' is left as it is. */
  lemma {:induction false} BracketFree(s: string)
    requires '[' !in s
    ensures RemoveBracketGroups(s) == s
    decreases |s|
  {
    if s != [] {
      assert '[' !in s[1..];
      BracketFree(s[1..]);
    }
  }

  /** A group removed from a bracket-free start: `a[g]b` becomes `a` followed
      by what the substitution makes of `b`. */
  lemma {:induction false} BracketGroupRemoved(a: string, g: string, b: string)
    requires '[' !in a && ']' !in g
    ensures RemoveBracketGroups(a + (['['] + (g + ([']'] + b)))) == a + RemoveBracketGroups(b)
    decreases |a|
  {
    var t := ['['] + (g + ([']'] + b));
    if a == [] {
      assert a + t == t;
      var u := g + ([']'] + b);
      assert t[1..] == u;
      CloseIndexAfter(g, b);
      assert u[|g|] == ']';
      assert ']' in u;
      assert t[|g| + 2..] == b;
    } else {
      var s := a + t;
      assert s[0] == a[0];
      assert s[1..] == a[1..] + t;
      assert '[' !in a[1..];
      BracketGroupRemoved(a[1..], g, b);
      assert a == [a[0]] + a[1..];
    }
  }

  lemma {:induction false} CloseIndexAfter(g: string, b: string)
    requires ']' !in g
    ensures CloseIndex(g + ([']'] + b)) == |g|
    decreases |g|
  {
    if g != [] {
      assert (g + ([']'] + b))[1..] == g[1..] + ([']'] + b);
      assert ']' !in g[1..];
      CloseIndexAfter(g[1..], b);
    } else {
      assert g + ([']'] + b) == [']'] + b;
    }
  }

  /** The three ranges of the emoji character class. */
  predicate IsEmoji(c: char) {
    || ('\U{1F600}' <= c <= '\U{1F64F}')
    || ('\U{1F300}' <= c <= '\U{1F5FF}')
    || ('\U{1F680}' <= c <= '\U{1F6FF}')
  }

  /** `re.sub` of the emoji class: every emoji character removed, the others kept in order. */
  function RemoveEmoji(s: string): (r: string)
    ensures forall c :: c in r ==> c in s && !IsEmoji(c)
    ensures |r| <= |s|
  {
    if s == [] then []
    else
      var rest := RemoveEmoji(s[1..]);
      assert forall c :: c in rest ==> c in s by {
        forall c | c in rest ensures c in s {
          assert c in s[1..];
        }
      }
      if IsEmoji(s[0]) then rest else [s[0]] + rest
  }

  /** Text without emoji is left as it is. */
  lemma {:induction false} EmojiFree(s: string)
    requires forall c :: c in s ==> !IsEmoji(c)
    ensures RemoveEmoji(s) == s
  {
    if s != [] {
      assert forall c :: c in s[1..] ==> c in s;
      EmojiFree(s[1..]);
    }
  }

  /** Removing emoji commutes with concatenation. */
  lemma {:induction false} RemoveEmojiConcat(a: string, b: string)
    ensures RemoveEmoji(a + b) == RemoveEmoji(a) + RemoveEmoji(b)
  {
    if a != [] {
      assert (a + b)[1..] == a[1..] + b;
      RemoveEmojiConcat(a[1..], b);
    } else {
      assert a + b == b;
    }
  }

  // ---------------------------------------------------------------------
  // extract_story_text
  // ---------------------------------------------------------------------

  /** One line of the loop body: None when the line is skipped (blank,
      metadata, or nothing left after cleaning), else the cleaned line. */
  function CleanLine(line: string): (r: Option<string>)
    ensures r.Some? ==> r.value != "" && IsStripped(r.value)
    ensures Strip(line) == "" || IsMetadataLine(line) ==> r == None
  {
    if Strip(line) == "" then None
    else if IsMetadataLine(line) then None
    else
      var inner := RemoveEmoji(RemoveBracketGroups(line));
      StripIsStripped(inner);
      var clean := Strip(inner);
      if clean == "" then None else Some(clean)
  }

  /** A kept line holds only characters of the original line, no emoji, and
      comes from a line without bracket groups once they are removed. */
  lemma CleanLineSpec(line: string)
    ensures CleanLine(line).Some? ==>
              && (forall c :: c in CleanLine(line).value ==> c in line && !IsEmoji(c))
              && NoBracketGroup(RemoveBracketGroups(line))
              && !IsMetadataLine(line)
  {
    BracketGroupsGone(line);
  }

  /** The outcome of the loop body for every line. */
  function Cleaned(lines: seq<string>): (cs: seq<Option<string>>)
    ensures |cs| == |lines|
  {
    MapLines(CleanLine, lines)
  }

  /** `f` applied to every line, in order. */
  function MapLines(f: string -> Option<string>, lines: seq<string>): (cs: seq<Option<string>>)
    ensures |cs| == |lines|
  {
    seq(|lines|, k requires 0 <= k < |lines| => f(lines[k]))
  }

  lemma MapLinesConcat(f: string -> Option<string>, a: seq<string>, b: seq<string>)
    ensures MapLines(f, a + b) == MapLines(f, a) + MapLines(f, b)
  {
    var ab := a + b;
    assert forall k :: 0 <= k < |a| ==> ab[k] == a[k];
    assert forall k :: 0 <= k < |b| ==> ab[|a| + k] == b[k];
  }

  /** The kept lines of a list of loop-body outcomes, in order. */
  function Kept(cs: seq<Option<string>>): seq<string> {
    if cs == [] then []
    else
      match cs[0]
      case Some(l) => [l] + Kept(cs[1..])
      case None => Kept(cs[1..])
  }

  lemma {:induction false} KeptConcat(a: seq<Option<string>>, b: seq<Option<string>>)
    ensures Kept(a + b) == Kept(a) + Kept(b)
  {
    if a != [] {
      assert (a + b)[1..] == a[1..] + b;
      KeptConcat(a[1..], b);
    } else {
      assert a + b == b;
    }
  }

  lemma KeptSnoc(cs: seq<Option<string>>, c: Option<string>)
    ensures Kept(cs + [c]) == Kept(cs) + (if c.Some? then [c.value] else [])
  {
    KeptConcat(cs, [c]);
    assert [c][1..] == [];
  }

  lemma KeptStep(cs: seq<Option<string>>, i: nat)
    requires i < |cs|
    ensures Kept(cs[..i + 1]) == Kept(cs[..i]) + (if cs[i].Some? then [cs[i].value] else [])
  {
    assert cs[..i + 1] == cs[..i] + [cs[i]];
    KeptSnoc(cs[..i], cs[i]);
  }

  /** The kept lines, cleaned, in order. */
  function StoryLines(lines: seq<string>): seq<string> {
    Kept(Cleaned(lines))
  }

  /** At most one narration line per story line; none blank, none padded. */
  lemma StoryLinesSpec(lines: seq<string>)
    ensures |StoryLines(lines)| <= |lines|
    ensures forall k :: 0 <= k < |StoryLines(lines)| ==>
              StoryLines(lines)[k] != "" && IsStripped(StoryLines(lines)[k])
  {
    var cs := Cleaned(lines);
    assert forall k :: 0 <= k < |cs| && cs[k].Some? ==> cs[k].value != "" && IsStripped(cs[k].value) by {
      forall k | 0 <= k < |cs| && cs[k].Some? ensures cs[k].value != "" && IsStripped(cs[k].value) {
        assert cs[k] == CleanLine(lines[k]);
      }
    }
    KeptSpec(cs);
  }

  lemma {:induction false} KeptSpec(cs: seq<Option<string>>)
    requires forall k :: 0 <= k < |cs| && cs[k].Some? ==> cs[k].value != "" && IsStripped(cs[k].value)
    ensures |Kept(cs)| <= |cs|
    ensures forall k :: 0 <= k < |Kept(cs)| ==> Kept(cs)[k] != "" && IsStripped(Kept(cs)[k])
  {
    if cs != [] {
      KeptSpec(cs[1..]);
    }
  }

  lemma CleanedSnoc(lines: seq<string>, line: string)
    ensures Cleaned(lines + [line]) == Cleaned(lines) + [CleanLine(line)]
  {
    MapLinesConcat(CleanLine, lines, [line]);
    assert MapLines(CleanLine, [line])[0] == CleanLine(line);
  }

  lemma CleanedConcat(a: seq<string>, b: seq<string>)
    ensures Cleaned(a + b) == Cleaned(a) + Cleaned(b)
  {
    MapLinesConcat(CleanLine, a, b);
  }

  /** The body of the loop of `extract_story_text` for one line: the blank
      check, the metadata check, the two substitutions and the strip. */
  method CleanStoryLine(lines: seq<string>, i: nat) returns (r: Option<string>)
    requires i < |lines|
    ensures r == Cleaned(lines)[i]
  {
    var line := lines[i];
    assert Cleaned(lines)[i] == CleanLine(line);
    if Strip(line) == "" {
      return None;
    }
    if IsMetadataLine(line) {
      return None;
    }
    var cleanLine := RemoveBracketGroups(line);
    cleanLine := RemoveEmoji(cleanLine);
    cleanLine := Strip(cleanLine);
    if cleanLine == "" {
      return None;
    }
    return Some(cleanLine);
  }

  /** The narration `extract_story_text` returns, as a value for specifications. */
  function StoryText(text: string): string {
    Join(" ", StoryLines(SplitLines(text)))
  }

  /** `extract_story_text`: the loop over `text.splitlines()` appending each
      cleaned line, then the join with single spaces. */
  method ExtractStoryText(text: string) returns (r: string)
    ensures r == StoryText(text)
  {
    var lines := SplitLines(text);
    var storyLines: seq<string> := [];
    for i := 0 to |lines|
      invariant storyLines == Kept(Cleaned(lines)[..i])
    {
      var cleanLine := CleanStoryLine(lines, i);
      KeptStep(Cleaned(lines), i);
      if cleanLine.Some? {
        storyLines := storyLines + [cleanLine.value];
      }
    }
    assert Cleaned(lines)[..|lines|] == Cleaned(lines);
    return Join(" ", storyLines);
  }

  /** The narration is a single line: whatever the story, no line break survives. */
  lemma StoryTextNoLineBreak(text: string)
    ensures NoLineBreak(StoryText(text))
  {
    var lines := SplitLines(text);
    StoryLinesNoLineBreak(lines);
    JoinNoLineBreak(" ", StoryLines(lines));
  }

  lemma StoryLinesNoLineBreak(lines: seq<string>)
    requires forall k :: 0 <= k < |lines| ==> NoLineBreak(lines[k])
    ensures forall k :: 0 <= k < |StoryLines(lines)| ==> NoLineBreak(StoryLines(lines)[k])
  {
    var cs := Cleaned(lines);
    forall k | 0 <= k < |cs| && cs[k].Some? ensures NoLineBreak(cs[k].value) {
      assert cs[k] == CleanLine(lines[k]);
      CleanLineSpec(lines[k]);
      var l := cs[k].value;
      forall i | 0 <= i < |l| ensures !IsLineBreak(l[i]) {
        assert l[i] in l;
        var j :| 0 <= j < |lines[k]| && lines[k][j] == l[i];
      }
    }
    KeptNoLineBreak(cs);
  }

  lemma {:induction false} KeptNoLineBreak(cs: seq<Option<string>>)
    requires forall k :: 0 <= k < |cs| && cs[k].Some? ==> NoLineBreak(cs[k].value)
    ensures forall k :: 0 <= k < |Kept(cs)| ==> NoLineBreak(Kept(cs)[k])
  {
    if cs != [] {
      KeptNoLineBreak(cs[1..]);
    }
  }

  /** A plain narration line: not blank, not metadata, no brackets, no emoji,
      no surrounding whitespace, no line break. */
  predicate IsPlainLine(l: string) {
    l != "" && IsStripped(l) && NoLineBreak(l) && !IsMetadataLine(l)
    && '[' !in l && forall c :: c in l ==> !IsEmoji(c)
  }

  lemma PlainLineKept(l: string)
    requires IsPlainLine(l)
    ensures CleanLine(l) == Some(l)
  {
    BracketFree(l);
    EmojiFree(l);
    StripOfStripped(l);
  }

  lemma {:induction false} KeptAllSome(ls: seq<string>, cs: seq<Option<string>>)
    requires |cs| == |ls| && forall k :: 0 <= k < |cs| ==> cs[k] == Some(ls[k])
    ensures Kept(cs) == ls
  {
    if cs != [] {
      KeptAllSome(ls[1..], cs[1..]);
    }
  }

  /** Plain lines become one narration, joined by single spaces. */
  lemma StoryTextOfPlainLines(ls: seq<string>)
    requires forall k :: 0 <= k < |ls| ==> IsPlainLine(ls[k])
    ensures StoryText(Join("\n", ls)) == Join(" ", ls)
  {
    SplitLinesOfJoin(ls);
    var cs := Cleaned(ls);
    forall k | 0 <= k < |cs| ensures cs[k] == Some(ls[k]) {
      PlainLineKept(ls[k]);
    }
    KeptAllSome(ls, cs);
  }

  /** Break-free lines, the last one not empty, joined by "\n": the narration
      is the join of their story lines. */
  lemma StoryTextOfLines(ls: seq<string>)
    requires forall k :: 0 <= k < |ls| ==> NoLineBreak(ls[k])
    requires ls != [] ==> ls[|ls| - 1] != ""
    ensures StoryText(Join("\n", ls)) == Join(" ", StoryLines(ls))
  {
    SplitLinesOfJoin(ls);
  }

  /** A line the loop skips (blank, metadata, or empty once cleaned) leaves no
      trace: the story lines of a list with it are those of the list without it. */
  lemma StoryLinesSkip(a: seq<string>, m: string, b: seq<string>)
    requires CleanLine(m).None?
    ensures StoryLines(a + [m] + b) == StoryLines(a + b)
  {
    CleanedSkip(a, m, b);
    KeptSkipsNone(Cleaned(a), Cleaned(b));
  }

  lemma CleanedSkip(a: seq<string>, m: string, b: seq<string>)
    requires CleanLine(m).None?
    ensures Cleaned(a + [m] + b) == Cleaned(a) + [None] + Cleaned(b)
    ensures Cleaned(a + b) == Cleaned(a) + Cleaned(b)
  {
    CleanedConcat(a + [m], b);
    CleanedSnoc(a, m);
    CleanedConcat(a, b);
  }

  lemma KeptSkipsNone(x: seq<Option<string>>, y: seq<Option<string>>)
    ensures Kept(x + [None] + y) == Kept(x + y)
  {
    var none: seq<Option<string>> := [None];
    assert none[1..] == [];
    KeptConcat(x + none, y);
    KeptConcat(x, none);
    KeptConcat(x, y);
  }

  // ---------------------------------------------------------------------
  // generate_voice
  // ---------------------------------------------------------------------

  /** The voices a random choice picks from. */
  const AvailableVoices: seq<string> := ["am_adam"]

  /** One sentence's successful synthesis: its samples and sample rate. */
  datatype Chunk = Chunk(samples: seq<real>, rate: int)

  datatype VoiceError =
    | UnknownVoice(voice: string)   // ValueError: the voice is not among the engine's voices
    | NoSamples                     // RuntimeError: no sentence was synthesized
    | SynthesisRaised(index: nat)   // the exception of the sentence at this index escaped
    | ZeroSampleRate                // ZeroDivisionError when measuring

  /** The voice used when none is given: the choice from a one-voice list. */
  function ChosenVoice(voice: Option<string>): (v: string)
    ensures voice.None? ==> v in AvailableVoices
  {
    match voice
    case Some(v) => v
    case None => AvailableVoices[0]
  }

  /** The successful sentences, in order. */
  function Successes(outcomes: seq<Option<Chunk>>): seq<Chunk> {
    if outcomes == [] then []
    else
      match outcomes[0]
      case Some(c) => [c] + Successes(outcomes[1..])
      case None => Successes(outcomes[1..])
  }

  lemma {:induction false} SuccessesConcat(a: seq<Option<Chunk>>, b: seq<Option<Chunk>>)
    ensures Successes(a + b) == Successes(a) + Successes(b)
  {
    if a != [] {
      assert (a + b)[1..] == a[1..] + b;
      SuccessesConcat(a[1..], b);
    } else {
      assert a + b == b;
    }
  }

  /** `np.concatenate`: all samples, chunk after chunk. */
  function Concat(cs: seq<Chunk>): seq<real> {
    if cs == [] then [] else cs[0].samples + Concat(cs[1..])
  }

  lemma {:induction false} ConcatAppend(cs: seq<Chunk>, c: Chunk)
    ensures Concat(cs + [c]) == Concat(cs) + c.samples
  {
    if cs != [] {
      assert (cs + [c])[1..] == cs[1..] + [c];
      ConcatAppend(cs[1..], c);
    } else {
      assert cs + [c] == [c];
    }
  }

  /** What `generate_voice` writes: the samples of the successful sentences in
      order at the first successful sentence's rate; an unknown voice or no
      successful sentence is an error. */
  function VoiceResult(voice: Option<string>, known: set<string>, outcomes: seq<Option<Chunk>>): Result<Chunk, VoiceError> {
    var v := ChosenVoice(voice);
    if v !in known then Err(UnknownVoice(v))
    else
      var ok := Successes(outcomes);
      if ok == [] then Err(NoSamples) else Ok(Chunk(Concat(ok), ok[0].rate))
  }

  /** `generate_voice` after the text is cleaned and segmented: the voice
      check, then one synthesis per sentence, skipping the ones that raise.
      `calls` counts the synthesis calls made. */
  method GenerateVoice(voice: Option<string>, known: set<string>, outcomes: seq<Option<Chunk>>)
    returns (r: Result<Chunk, VoiceError>, calls: nat)
    ensures r == VoiceResult(voice, known, outcomes)
    ensures calls == if ChosenVoice(voice) in known then |outcomes| else 0
  {
    var v := if voice.None? then AvailableVoices[0] else voice.value;
    if v !in known {
      return Err(UnknownVoice(v)), 0;
    }
    var allSamples: seq<Chunk> := [];
    var sampleRate: Option<int> := None;
    calls := 0;
    for i := 0 to |outcomes|
      invariant calls == i
      invariant allSamples == Successes(outcomes[..i])
      invariant sampleRate == if allSamples == [] then None else Some(allSamples[0].rate)
    {
      assert outcomes[..i + 1] == outcomes[..i] + [outcomes[i]];
      SuccessesConcat(outcomes[..i], [outcomes[i]]);
      assert Successes([outcomes[i]]) == match outcomes[i] case Some(c) => [c] case None => [];
      calls := calls + 1;
      match outcomes[i] {
        case Some(c) =>
          allSamples := allSamples + [c];
          if sampleRate.None? {
            sampleRate := Some(c.rate);
          }
        case None =>
      }
    }
    assert outcomes[..|outcomes|] == outcomes;
    if allSamples == [] {
      return Err(NoSamples), calls;
    }
    var samples := ConcatSamples(allSamples);
    return Ok(Chunk(samples, sampleRate.value)), calls;
  }

  /** `np.concatenate(all_samples)`. */
  method ConcatSamples(cs: seq<Chunk>) returns (samples: seq<real>)
    ensures samples == Concat(cs)
  {
    samples := [];
    for i := 0 to |cs|
      invariant samples == Concat(cs[..i])
    {
      assert cs[..i + 1] == cs[..i] + [cs[i]];
      ConcatAppend(cs[..i], cs[i]);
      samples := samples + cs[i].samples;
    }
    assert cs[..|cs|] == cs;
  }

  /** A sentence that fails leaves the audio as if it had not been there. */
  lemma FailedSentenceSkipped(voice: Option<string>, known: set<string>, a: seq<Option<Chunk>>, b: seq<Option<Chunk>>)
    ensures VoiceResult(voice, known, a + [None] + b) == VoiceResult(voice, known, a + b)
  {
    var none: seq<Option<Chunk>> := [None];
    assert none[1..] == [];
    assert Successes(none) == [];
    SuccessesConcat(a + none, b);
    SuccessesConcat(a, none);
    SuccessesConcat(a, b);
    assert Successes(a + none) == Successes(a);
    assert Successes(a + none + b) == Successes(a + b);
  }

  /** The error cases of `generate_voice`: an unknown voice is refused before
      any synthesis, and with a known voice the run fails exactly when every
      sentence fails; the rate written is that of the first success. */
  lemma {:induction false} VoiceOutcome(voice: Option<string>, known: set<string>, outcomes: seq<Option<Chunk>>)
    ensures ChosenVoice(voice) !in known ==> VoiceResult(voice, known, outcomes) == Err(UnknownVoice(ChosenVoice(voice)))
    ensures ChosenVoice(voice) in known ==>
              (VoiceResult(voice, known, outcomes) == Err(NoSamples)
               <==> forall i :: 0 <= i < |outcomes| ==> outcomes[i].None?)
    ensures forall i :: 0 <= i < |outcomes| && outcomes[i].Some?
                        && (forall j :: 0 <= j < i ==> outcomes[j].None?)
                        && VoiceResult(voice, known, outcomes).Ok?
                        ==> VoiceResult(voice, known, outcomes).value.rate == outcomes[i].value.rate
  {
    SuccessesEmpty(outcomes);
    SuccessesFirst(outcomes);
  }

  lemma {:induction false} SuccessesEmpty(outcomes: seq<Option<Chunk>>)
    ensures Successes(outcomes) == [] <==> forall i :: 0 <= i < |outcomes| ==> outcomes[i].None?
  {
    if outcomes != [] {
      SuccessesEmpty(outcomes[1..]);
      assert forall i :: 1 <= i < |outcomes| ==> outcomes[i] == outcomes[1..][i - 1];
    }
  }

  lemma {:induction false} SuccessesFirst(outcomes: seq<Option<Chunk>>)
    ensures forall i :: 0 <= i < |outcomes| && outcomes[i].Some? && (forall j :: 0 <= j < i ==> outcomes[j].None?)
                        ==> Successes(outcomes) != [] && Successes(outcomes)[0] == outcomes[i].value
  {
    if outcomes != [] && outcomes[0].None? {
      SuccessesFirst(outcomes[1..]);
      forall i | 0 <= i < |outcomes| && outcomes[i].Some? && (forall j :: 0 <= j < i ==> outcomes[j].None?)
        ensures Successes(outcomes) != [] && Successes(outcomes)[0] == outcomes[i].value
      {
        assert i > 0;
        assert outcomes[1..][i - 1] == outcomes[i];
        assert forall j :: 0 <= j < i - 1 ==> outcomes[1..][j] == outcomes[j + 1];
      }
    }
  }

  // ---------------------------------------------------------------------
  // generate_and_measure_audio
  // ---------------------------------------------------------------------

  /** The samples, the rate and the duration in seconds. */
  datatype Measured = Measured(samples: seq<real>, rate: int, duration: real)

  /** The index of the first failing sentence, or the number of sentences. */
  function FirstFailure(outcomes: seq<Option<Chunk>>): (n: nat)
    ensures n <= |outcomes|
    ensures forall i :: 0 <= i < n ==> outcomes[i].Some?
    ensures n < |outcomes| ==> outcomes[n].None?
  {
    if outcomes == [] || outcomes[0].None? then 0 else 1 + FirstFailure(outcomes[1..])
  }

  /** "random" stands for a choice from the available voices. */
  function IntroVoice(voice: string): (v: string)
    ensures voice == "random" ==> v in AvailableVoices
    ensures voice != "random" ==> v == voice
  {
    if voice == "random" then AvailableVoices[0] else voice
  }

  /** What `generate_and_measure_audio` returns: the first failing sentence's
      exception escapes; no sentence is a RuntimeError; otherwise all samples
      at the first sentence's rate, and their count divided by that rate. */
  function MeasureResult(outcomes: seq<Option<Chunk>>): (r: Result<Measured, VoiceError>)
    ensures r.Ok? ==> r.value.rate != 0 && r.value.duration * r.value.rate as real == |r.value.samples| as real
    ensures r.Ok? ==> forall i :: 0 <= i < |outcomes| ==> outcomes[i].Some?
    ensures FirstFailure(outcomes) < |outcomes| ==> r == Err(SynthesisRaised(FirstFailure(outcomes)))
    ensures outcomes == [] ==> r == Err(NoSamples)
  {
    var n := FirstFailure(outcomes);
    if n < |outcomes| then Err(SynthesisRaised(n))
    else if outcomes == [] then Err(NoSamples)
    else
      var ok := Successes(outcomes);
      SuccessesFirst(outcomes);
      var rate := ok[0].rate;
      if rate == 0 then Err(ZeroSampleRate)
      else
        var samples := Concat(ok);
        Ok(Measured(samples, rate, |samples| as real / rate as real))
  }

  /** `generate_and_measure_audio` after segmentation: the voice choice, the
      loop whose first exception escapes, and the duration; `calls` counts
      the synthesis calls made. */
  method GenerateAndMeasureAudio(voice: string, outcomes: seq<Option<Chunk>>)
    returns (r: Result<Measured, VoiceError>, used: string, calls: nat)
    ensures r == MeasureResult(outcomes)
    ensures used == IntroVoice(voice)
    ensures calls == if FirstFailure(outcomes) < |outcomes| then FirstFailure(outcomes) + 1 else |outcomes|
  {
    used := if voice == "random" then AvailableVoices[0] else voice;
    var allSamples: seq<Chunk> := [];
    var sampleRate: Option<int> := None;
    calls := 0;
    for i := 0 to |outcomes|
      invariant calls == i && i <= FirstFailure(outcomes)
      invariant allSamples == Successes(outcomes[..i])
      invariant sampleRate == if allSamples == [] then None else Some(allSamples[0].rate)
    {
      assert outcomes[..i + 1] == outcomes[..i] + [outcomes[i]];
      SuccessesConcat(outcomes[..i], [outcomes[i]]);
      calls := calls + 1;
      match outcomes[i] {
        case None =>
          return Err(SynthesisRaised(i)), used, calls;
        case Some(c) =>
          assert Successes([outcomes[i]]) == [c];
          allSamples := allSamples + [c];
          if sampleRate.None? {
            sampleRate := Some(c.rate);
          }
      }
    }
    assert outcomes[..|outcomes|] == outcomes;
    if allSamples == [] {
      SuccessesEmpty(outcomes);
      return Err(NoSamples), used, calls;
    }
    var samples := ConcatSamples(allSamples);
    if sampleRate.value == 0 {
      return Err(ZeroSampleRate), used, calls;
    }
    return Ok(Measured(samples, sampleRate.value, |samples| as real / sampleRate.value as real)), used, calls;
  }
}
