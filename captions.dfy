/**
  Captions of `create_video` (src/video_generator.py): the shift from
  recognizer time to video time, the `H:MM:SS.cc` time stamps of the ASS
  format, and the subtitle document built from the header and one
  `Dialogue:` line per word.
*/
module Captions {

  import opened Outcomes
  import opened PyStr
  import opened Transcriber

  /** The voice is played at this tempo factor. */
  const SpeedFactor: real := 0.9
  /** The pause between the intro and the story. */
  const SilenceDuration: real := 1.0

  // ---------------------------------------------------------------------
  // caption timing
  // ---------------------------------------------------------------------

  /** Video time of a recognizer timestamp: the voice is slowed by the tempo
      factor and starts after the intro and the pause. */
  function Shift(t: real, intro: real): real {
    t / SpeedFactor + intro + SilenceDuration
  }

  /** The shift is strictly increasing, so it keeps `start <= end` and the
      chronological order of words. */
  lemma ShiftMonotone(a: real, b: real, intro: real)
    ensures a <= b <==> Shift(a, intro) <= Shift(b, intro)
    ensures a < b <==> Shift(a, intro) < Shift(b, intro)
  {
  }

  /** The recognizer time is recovered from the video time. */
  lemma ShiftInverse(t: real, intro: real)
    ensures (Shift(t, intro) - intro - SilenceDuration) * SpeedFactor == t
  {
  }

  /** A word 4.5 s into the voice is shown 5 s plus a pause after the intro ends. */
  lemma ShiftExample()
    ensures Shift(4.5, 3.0) == 9.0
  {
  }

  // ---------------------------------------------------------------------
  // ASS time stamps
  // ---------------------------------------------------------------------

  /** Python's `x // m` on floats with a positive divisor. */
  function FloorDiv(x: real, m: real): int
    requires m > 0.0
  {
    (x / m).Floor
  }

  /** Python's `x % m` on floats with a positive divisor: the remainder takes
      the divisor's sign. */
  function Mod(x: real, m: real): real
    requires m > 0.0
  {
    x - m * FloorDiv(x, m) as real
  }

  /** Python's `int(x)`: truncation toward zero. */
  function Trunc(x: real): int {
    if x >= 0.0 then x.Floor else -((-x).Floor)
  }

  /** `int()` leaves a whole number unchanged. */
  lemma TruncWhole(n: int)
    ensures Trunc(n as real) == n
  {
    if n < 0 {
      assert (-(n as real)).Floor == -n;
    }
  }

  /** `int(t // 3600)`: the whole hours, rounded down. */
  function Hours(t: real): (h: int)
    ensures h as real * 3600.0 <= t < (h + 1) as real * 3600.0
  {
    var q := FloorDiv(t, 3600.0);
    TruncWhole(q);
    assert q as real <= t / 3600.0 < q as real + 1.0;
    Trunc(q as real)
  }

  /** `int((t % 3600) // 60)`. */
  function Minutes(t: real): (m: nat)
    ensures m < 60
  {
    Trunc(FloorDiv(Mod(t, 3600.0), 60.0) as real)
  }

  /** `int(t % 60)`. */
  function Seconds(t: real): (s: nat)
    ensures s < 60
  {
    Trunc(Mod(t, 60.0))
  }

  /** `int((t * 100) % 100)`. */
  function Centis(t: real): (c: nat)
    ensures c < 100
  {
    Trunc(Mod(t * 100.0, 100.0))
  }

  /** The four fields of a time stamp. */
  datatype Clock = Clock(h: int, m: int, s: int, cs: int)

  function Fields(t: real): Clock {
    Clock(Hours(t), Minutes(t), Seconds(t), Centis(t))
  }

  /** The time in seconds that a time stamp denotes. */
  function ClockSeconds(c: Clock): real {
    (3600 * c.h + 60 * c.m + c.s) as real + c.cs as real / 100.0
  }

  /** The fields split `t` exactly: hours, minutes and seconds make up the whole
      seconds of `t`, and the centiseconds truncate the fraction, so the stamp
      lies at most one centisecond below `t`. */
  lemma FieldsExact(t: real)
    ensures 3600 * Hours(t) + 60 * Minutes(t) + Seconds(t) == t.Floor
    ensures 100 * t.Floor + Centis(t) == (100.0 * t).Floor
    ensures ClockSeconds(Fields(t)) <= t < ClockSeconds(Fields(t)) + 0.01
  {
    var h := Hours(t);
    var r := t - 3600.0 * h as real;
    assert FloorDiv(t, 3600.0) == h by {
      TruncWhole(FloorDiv(t, 3600.0));
    }
    assert Mod(t, 3600.0) == r;
    var m := FloorDiv(r, 60.0);
    TruncWhole(m);
    assert Minutes(t) == m;
    assert m as real * 60.0 <= r < (m + 1) as real * 60.0;
    var w := 60 * h + m;
    assert FloorDiv(t, 60.0) == w by {
      assert w as real <= t / 60.0 < w as real + 1.0;
    }
    var f := t - 60.0 * w as real;
    assert Mod(t, 60.0) == f;
    var s := Seconds(t);
    assert s == f.Floor;
    assert t.Floor == 60 * w + s by {
      assert (60 * w + s) as real <= t < (60 * w + s) as real + 1.0;
    }
    assert FloorDiv(t * 100.0, 100.0) == t.Floor by {
      assert (t * 100.0) / 100.0 == t;
    }
    var c := Centis(t);
    var g := t * 100.0 - 100.0 * t.Floor as real;
    assert Mod(t * 100.0, 100.0) == g;
    assert c == g.Floor;
    assert (100.0 * t).Floor == 100 * t.Floor + c by {
      assert (100 * t.Floor + c) as real <= 100.0 * t < (100 * t.Floor + c) as real + 1.0;
    }
  }

  /** `f"{h}:{m:02}:{s:02}.{cs:02}"` of the fields of `t`. */
  function AssTime(t: real): string {
    IntToString(Hours(t)) + ":" + Pad2(Minutes(t)) + ":" + Pad2(Seconds(t)) + "." + Pad2(Centis(t))
  }

  /** Reads a time stamp `H:MM:SS.cc` back into its fields. */
  function ParseAssTime(s: string): Option<Clock> {
    if |s| < 10 then None
    else
      var n := |s|;
      if s[n - 9] == ':' && s[n - 6] == ':' && s[n - 3] == '.'
         && AllDigits(s[n - 8..n - 6]) && AllDigits(s[n - 5..n - 3]) && AllDigits(s[n - 2..])
      then
        match ParseInt(s[..n - 9])
        case Some(h) =>
          Some(Clock(h, ParseDigits(s[n - 8..n - 6]), ParseDigits(s[n - 5..n - 3]), ParseDigits(s[n - 2..])))
        case None => None
      else None
  }

  lemma IntToStringNonEmpty(i: int)
    ensures |IntToString(i)| >= 1
  {
  }

  /** Reading a written time stamp gives back its fields; with `FieldsExact`
      the text determines `t` to within a centisecond. */
  lemma AssTimeRoundTrip(t: real)
    ensures ParseAssTime(AssTime(t)) == Some(Fields(t))
  {
    var hs := IntToString(Hours(t));
    var mm, ss, cc := Pad2(Minutes(t)), Pad2(Seconds(t)), Pad2(Centis(t));
    var s := AssTime(t);
    IntToStringNonEmpty(Hours(t));
    var n := |s|;
    assert n == |hs| + 9;
    assert s[..n - 9] == hs;
    assert s[n - 8..n - 6] == mm;
    assert s[n - 5..n - 3] == ss;
    assert s[n - 2..] == cc;
    ParseIntOfInt(Hours(t));
    Pad2Parse(Minutes(t));
    Pad2Parse(Seconds(t));
    Pad2Parse(Centis(t));
  }

  /** The characters a time stamp is written with. */
  predicate StampChars(s: string) {
    forall i :: 0 <= i < |s| ==> s[i] == '-' || s[i] == ':' || s[i] == '.' || IsDigit(s[i])
  }

  lemma StampCharsConcat(a: string, b: string)
    requires StampChars(a) && StampChars(b)
    ensures StampChars(a + b)
  {
  }

  lemma AssTimeChars(t: real)
    ensures StampChars(AssTime(t))
  {
    var hs := IntToString(Hours(t));
    assert StampChars(hs);
    var acc := hs;
    StampCharsConcat(acc, ":");
    acc := acc + ":";
    StampCharsConcat(acc, Pad2(Minutes(t)));
    acc := acc + Pad2(Minutes(t));
    StampCharsConcat(acc, ":");
    acc := acc + ":";
    StampCharsConcat(acc, Pad2(Seconds(t)));
    acc := acc + Pad2(Seconds(t));
    StampCharsConcat(acc, ".");
    acc := acc + ".";
    StampCharsConcat(acc, Pad2(Centis(t)));
    acc := acc + Pad2(Centis(t));
    assert acc == AssTime(t);
  }

  /** No comma appears in a time stamp, so it is one field of a Dialogue line. */
  lemma AssTimeNoComma(t: real)
    ensures ',' !in AssTime(t)
  {
    AssTimeChars(t);
  }

  lemma AssTimeNoLineBreak(t: real)
    ensures NoLineBreak(AssTime(t))
  {
    AssTimeChars(t);
  }

  // ---------------------------------------------------------------------
  // the subtitle document
  // ---------------------------------------------------------------------

  /** The header lines: playing resolution 1920x1080 and one style named
      Default with the caption font, size and outline width. */
  function HeaderLines(font: string, fontSize: int, strokeWidth: int): seq<string> {
    [ "[Script Info]",
      "; Script generated by FFmpeg",
      "PlayResX: 1920",
      "PlayResY: 1080",
      "Timer: 100.0000",
      "ScriptType: v4.00+",
      "WrapStyle: 0",
      "ScaledBorderAndShadow: yes",
      "YCbCr Matrix: TV.601",
      " ",
      "[V4+ Styles]",
      "Format: Name, Fontname, Fontsize, PrimaryColour, SecondaryColour, OutlineColour, BackColour, Bold, Italic, Underline, StrikeOut, ScaleX, ScaleY, Spacing, Angle, BorderStyle, Outline, Shadow, Alignment, MarginL, MarginR, MarginV, Encoding",
      "Style: Default," + font + "," + IntToString(fontSize)
        + ",&H00FFFFFF,&H0000FFFF,&H00000000,&H000000FF,-1,0,0,0,100,100,0,0,1,"
        + IntToString(strokeWidth) + ",0,5,0,0,0,1",
      " ",
      "[Events]",
      "Format: Layer, Start, End, Style, Name, MarginL, MarginR, MarginV, Effect, Text" ]
  }

  const DialoguePrefix: string := "Dialogue: 0,"
  const StyleFields: string := ",Default,,0,0,0,,"

  /** The event of one word, between its shifted start and end: layer 0, the
      Default style, zero margins, no effect, the word as text. */
  function DialogueLine(w: WordTiming, intro: real): string {
    DialoguePrefix + AssTime(Shift(w.start, intro)) + "," + AssTime(Shift(w.end, intro))
      + StyleFields + w.word
  }

  /** One event line per word, in input order. */
  function DialogueLines(ws: seq<WordTiming>, intro: real): (ls: seq<string>)
    ensures |ls| == |ws|
  {
    if ws == [] then [] else [DialogueLine(ws[0], intro)] + DialogueLines(ws[1..], intro)
  }

  /** Line `k` of the events is the event of word `k`. */
  lemma {:induction false} DialogueLinesIndex(ws: seq<WordTiming>, intro: real, k: nat)
    requires k < |ws|
    ensures DialogueLines(ws, intro)[k] == DialogueLine(ws[k], intro)
  {
    if k > 0 {
      DialogueLinesIndex(ws[1..], intro, k - 1);
    }
  }

  lemma {:induction false} DialogueLinesConcat(a: seq<WordTiming>, b: seq<WordTiming>, intro: real)
    ensures DialogueLines(a + b, intro) == DialogueLines(a, intro) + DialogueLines(b, intro)
  {
    if a == [] {
      assert a + b == b;
    } else {
      assert (a + b)[0] == a[0];
      assert (a + b)[1..] == a[1..] + b;
      DialogueLinesConcat(a[1..], b, intro);
    }
  }

  /** Lines each followed by "\n", as the header's triple-quoted text and each
      `+= f"...\n"` produce them. */
  function Lines(ls: seq<string>): string {
    if ls == [] then "" else ls[0] + "\n" + Lines(ls[1..])
  }

  lemma {:induction false} LinesConcat(a: seq<string>, b: seq<string>)
    ensures Lines(a + b) == Lines(a) + Lines(b)
  {
    if a != [] {
      assert (a + b)[1..] == a[1..] + b;
      LinesConcat(a[1..], b);
    } else {
      assert a + b == b;
    }
  }

  lemma LinesSnoc(ls: seq<string>, x: string)
    ensures Lines(ls + [x]) == Lines(ls) + x + "\n"
  {
    LinesConcat(ls, [x]);
    assert [x][1..] == [];
  }

  /** `splitlines` undoes `Lines` when no line holds a break. */
  lemma {:induction false} SplitLinesOfLines(ls: seq<string>)
    requires forall k :: 0 <= k < |ls| ==> NoLineBreak(ls[k])
    ensures SplitLines(Lines(ls)) == ls
  {
    if ls != [] {
      SplitLinesCons(ls[0], Lines(ls[1..]));
      SplitLinesOfLines(ls[1..]);
    }
  }

  function AssHeader(font: string, fontSize: int, strokeWidth: int): string {
    Lines(HeaderLines(font, fontSize, strokeWidth))
  }

  /** The whole file: the header followed by the events. */
  function AssDocument(font: string, fontSize: int, strokeWidth: int, ws: seq<WordTiming>, intro: real): string {
    Lines(HeaderLines(font, fontSize, strokeWidth) + DialogueLines(ws, intro))
  }

  predicate WordsOneLine(ws: seq<WordTiming>) {
    forall k :: 0 <= k < |ws| ==> NoLineBreak(ws[k].word)
  }

  lemma IntToStringNoLineBreak(i: int)
    ensures NoLineBreak(IntToString(i))
  {
    var s := IntToString(i);
    assert forall j :: 0 <= j < |s| ==> s[j] == '-' || IsDigit(s[j]);
  }

  lemma DialogueLineNoLineBreak(w: WordTiming, intro: real)
    requires NoLineBreak(w.word)
    ensures NoLineBreak(DialogueLine(w, intro))
  {
    AssTimeNoLineBreak(Shift(w.start, intro));
    AssTimeNoLineBreak(Shift(w.end, intro));
    FixedFieldsOneLine();
    PartsNoLineBreak(DialoguePrefix, AssTime(Shift(w.start, intro)), AssTime(Shift(w.end, intro)), StyleFields, w.word);
  }

  lemma FixedFieldsOneLine()
    ensures NoLineBreak(DialoguePrefix) && NoLineBreak(StyleFields)
  {
  }

  lemma PartsNoLineBreak(p: string, a: string, b: string, st: string, text: string)
    requires NoLineBreak(p) && NoLineBreak(a) && NoLineBreak(b) && NoLineBreak(st) && NoLineBreak(text)
    ensures NoLineBreak(p + a + "," + b + st + text)
  {
    assert NoLineBreak(",");
    NoLineBreakConcat(p, a);
    NoLineBreakConcat(p + a, ",");
    NoLineBreakConcat(p + a + ",", b);
    NoLineBreakConcat(p + a + "," + b, st);
    NoLineBreakConcat(p + a + "," + b + st, text);
  }

  /** Read line by line, the event section is exactly one Dialogue line per
      word, in word order. */
  lemma EventLines(ws: seq<WordTiming>, intro: real)
    requires WordsOneLine(ws)
    ensures SplitLines(Lines(DialogueLines(ws, intro))) == DialogueLines(ws, intro)
    ensures |SplitLines(Lines(DialogueLines(ws, intro)))| == |ws|
  {
    var dl := DialogueLines(ws, intro);
    forall k | 0 <= k < |dl| ensures NoLineBreak(dl[k]) {
      DialogueLinesIndex(ws, intro, k);
      DialogueLineNoLineBreak(ws[k], intro);
    }
    SplitLinesOfLines(dl);
  }

  // ---------------------------------------------------------------------
  // reading a Dialogue line back
  // ---------------------------------------------------------------------

  /** The parts of an event that `DialogueLine` writes. */
  datatype Cue = Cue(start: Clock, end: Clock, text: string)

  /** The length of the first comma-separated field. */
  function FieldEnd(s: string): (n: nat)
    ensures n <= |s|
    ensures forall i :: 0 <= i < n ==> s[i] != ','
    ensures n == |s| || s[n] == ','
  {
    if s == [] || s[0] == ',' then 0 else 1 + FieldEnd(s[1..])
  }

  lemma {:induction false} FieldEndOf(f: string, rest: string)
    requires ',' !in f
    ensures FieldEnd(f + "," + rest) == |f|
  {
    if f != [] {
      assert (f + "," + rest)[1..] == f[1..] + "," + rest;
      FieldEndOf(f[1..], rest);
    }
  }

  /** Reads an event line: layer 0, the two time stamps, the Default style,
      zero margins, and everything after the ninth comma as the text. */
  function ParseDialogue(line: string): Option<Cue> {
    if !StartsWith(line, DialoguePrefix) then None
    else
      var r := line[|DialoguePrefix|..];
      var i := FieldEnd(r);
      if i == |r| then None
      else
        var r2 := r[i + 1..];
        var j := FieldEnd(r2);
        var r3 := r2[j..];
        if !StartsWith(r3, StyleFields) then None
        else
          match (ParseAssTime(r[..i]), ParseAssTime(r2[..j]))
          case (Some(a), Some(b)) => Some(Cue(a, b, r3[|StyleFields|..]))
          case _ => None
  }

  lemma PrefixSplit(p: string, r: string)
    ensures StartsWith(p + r, p) && (p + r)[|p|..] == r
  {
    assert (p + r)[..|p|] == p;
  }

  /** A comma-free field, a comma and the rest. */
  lemma CommaSplit(f: string, rest: string)
    requires ',' !in f
    ensures FieldEnd(f + "," + rest) == |f| < |f + "," + rest|
    ensures (f + "," + rest)[..|f|] == f
    ensures (f + "," + rest)[|f| + 1..] == rest
    ensures (f + "," + rest)[|f|..] == "," + rest
  {
    FieldEndOf(f, rest);
  }

  /** An event line regrouped around its field separators. */
  lemma Regroup(p: string, a: string, b: string, st: string, text: string)
    requires st != [] && st[0] == ','
    ensures p + a + "," + b + st + text == p + (a + "," + (b + "," + (st[1..] + text)))
    ensures "," + (st[1..] + text) == st + text
  {
    assert st == [','] + st[1..];
  }

  /** An event line written from two stamps without commas reads back as
      those stamps' fields and the text. */
  lemma ParseEvent(a: string, b: string, text: string, ca: Clock, cb: Clock)
    requires ',' !in a && ',' !in b
    requires ParseAssTime(a) == Some(ca) && ParseAssTime(b) == Some(cb)
    ensures ParseDialogue(DialoguePrefix + a + "," + b + StyleFields + text) == Some(Cue(ca, cb, text))
  {
    assert StyleFields[0] == ',';
    Regroup(DialoguePrefix, a, b, StyleFields, text);
    var rest2 := StyleFields[1..] + text;
    var rest1 := b + "," + rest2;
    var r := a + "," + rest1;
    PrefixSplit(DialoguePrefix, r);
    CommaSplit(a, rest1);
    CommaSplit(b, rest2);
    PrefixSplit(StyleFields, text);
  }

  /** Each event line gives back the word and the fields of its shifted times. */
  lemma DialogueRoundTrip(w: WordTiming, intro: real)
    ensures ParseDialogue(DialogueLine(w, intro))
            == Some(Cue(Fields(Shift(w.start, intro)), Fields(Shift(w.end, intro)), w.word))
  {
    AssTimeNoComma(Shift(w.start, intro));
    AssTimeNoComma(Shift(w.end, intro));
    AssTimeRoundTrip(Shift(w.start, intro));
    AssTimeRoundTrip(Shift(w.end, intro));
    ParseEvent(AssTime(Shift(w.start, intro)), AssTime(Shift(w.end, intro)), w.word,
               Fields(Shift(w.start, intro)), Fields(Shift(w.end, intro)));
  }

  // ---------------------------------------------------------------------
  // building the document
  // ---------------------------------------------------------------------

  /** The document is the header text followed by the event lines. */
  lemma AssDocumentSplit(font: string, fontSize: int, strokeWidth: int, ws: seq<WordTiming>, intro: real)
    ensures AssDocument(font, fontSize, strokeWidth, ws, intro)
            == AssHeader(font, fontSize, strokeWidth) + Lines(DialogueLines(ws, intro))
  {
    LinesConcat(HeaderLines(font, fontSize, strokeWidth), DialogueLines(ws, intro));
  }

  /** One more word appends its line to the event text. */
  lemma EventsSnoc(ws: seq<WordTiming>, k: nat, intro: real)
    requires k < |ws|
    ensures Lines(DialogueLines(ws[..k + 1], intro))
            == Lines(DialogueLines(ws[..k], intro)) + DialogueLine(ws[k], intro) + "\n"
  {
    assert ws[..k + 1] == ws[..k] + [ws[k]];
    DialogueLinesConcat(ws[..k], [ws[k]], intro);
    assert DialogueLines([ws[k]], intro) == [DialogueLine(ws[k], intro)] by {
      assert [ws[k]][1..] == [];
    }
    LinesSnoc(DialogueLines(ws[..k], intro), DialogueLine(ws[k], intro));
  }

  lemma AppendLine(header: string, prev: string, line: string, next: string, content: string)
    requires next == prev + line + "\n"
    requires content == header + prev
    ensures content + (line + "\n") == header + next
  {
  }

  /** One `ass_content +=` step keeps the text equal to the header and the
      events of the words seen so far. */
  lemma AppendEvent(header: string, ws: seq<WordTiming>, k: nat, intro: real, content: string)
    requires k < |ws|
    requires content == header + Lines(DialogueLines(ws[..k], intro))
    ensures content + (DialogueLine(ws[k], intro) + "\n") == header + Lines(DialogueLines(ws[..k + 1], intro))
  {
    EventsSnoc(ws, k, intro);
    AppendLine(header, Lines(DialogueLines(ws[..k], intro)), DialogueLine(ws[k], intro),
               Lines(DialogueLines(ws[..k + 1], intro)), content);
  }

  /** The loop `ass_content += f"Dialogue: ...\n"` over the words, starting
      from the text `header`. */
  method AppendEvents(header: string, ws: seq<WordTiming>, intro: real) returns (content: string)
    ensures content == header + Lines(DialogueLines(ws, intro))
  {
    content := header;
    var k := 0;
    while k < |ws|
      invariant 0 <= k <= |ws|
      invariant content == header + Lines(DialogueLines(ws[..k], intro))
    {
      AppendEvent(header, ws, k, intro, content);
      content := content + (DialogueLine(ws[k], intro) + "\n");
      k := k + 1;
    }
    assert ws[..k] == ws;
  }

  /** The ASS text of `create_video`: the header, then one event per word. */
  method BuildAssContent(font: string, fontSize: int, strokeWidth: int, ws: seq<WordTiming>, intro: real)
    returns (content: string)
    ensures content == AssDocument(font, fontSize, strokeWidth, ws, intro)
  {
    content := AppendEvents(AssHeader(font, fontSize, strokeWidth), ws, intro);
    AssDocumentSplit(font, fontSize, strokeWidth, ws, intro);
  }
}
