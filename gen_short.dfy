/**
  src/gen_short.py without Gemini, Pollinations HTTP and moviepy: the fallback
  image prompt of `generate_image_prompt`, the path filtering of
  `generate_images_task`, and the clip timings, animations and word overlays
  `combine_assets_to_video_task` hands to moviepy, produced here as a plan.
*/
module GenShort {

  import opened Outcomes
  import opened PyStr
  import Transcriber
  import Pollinations

  // ---------------------------------------------------------------------
  // generate_image_prompt
  // ---------------------------------------------------------------------

  const DarkWords: seq<string> := ["dark", "shadow", "night", "whisper"]
  const VintageWords: seq<string> := ["old", "vintage", "antique"]
  const InteriorWords: seq<string> := ["house", "room", "door"]

  /** `any(word in sentence_lower for word in words)`. */
  predicate MentionsAny(lowered: string, words: seq<string>) {
    exists k :: 0 <= k < |words| && Contains(lowered, words[k])
  }

  datatype Category = Dark | Vintage | Interior | Cinematic

  /** The branch of the fallback taken for a sentence: the keyword lists are
      tried in order on the lower-cased sentence. */
  function CategoryOf(sentence: string): (c: Category)
    ensures c == Dark <==> MentionsAny(Lower(sentence), DarkWords)
    ensures c == Vintage <==> !MentionsAny(Lower(sentence), DarkWords) && MentionsAny(Lower(sentence), VintageWords)
    ensures c == Interior <==> !MentionsAny(Lower(sentence), DarkWords) && !MentionsAny(Lower(sentence), VintageWords)
                               && MentionsAny(Lower(sentence), InteriorWords)
  {
    var lowered := Lower(sentence);
    if MentionsAny(lowered, DarkWords) then Dark
    else if MentionsAny(lowered, VintageWords) then Vintage
    else if MentionsAny(lowered, InteriorWords) then Interior
    else Cinematic
  }

  function Lead(c: Category): string {
    match c
    case Dark => "dark atmospheric scene, mysterious shadows, "
    case Vintage => "vintage atmosphere, old objects, nostalgic mood, "
    case Interior => "interior scene, atmospheric lighting, "
    case Cinematic => "cinematic shot, dramatic lighting, "
  }

  /** The prompt used when the model call raised. */
  function FallbackPrompt(sentence: string): string {
    Lead(CategoryOf(sentence)) + sentence
  }

  /** Every fallback prompt ends with ", " and the sentence as it was given. */
  lemma FallbackEndsWithSentence(sentence: string)
    ensures EndsWith(FallbackPrompt(sentence), ", " + sentence)
  {
    var c := CategoryOf(sentence);
    LeadEndsWithComma(c);
    CommaThen(Lead(c), sentence);
  }

  lemma LeadEndsWithComma(c: Category)
    ensures |Lead(c)| >= 2 && Lead(c)[|Lead(c)| - 2..] == ", "
  {
  }

  lemma CommaThen(lead: string, s: string)
    requires |lead| >= 2 && lead[|lead| - 2..] == ", "
    ensures EndsWith(lead + s, ", " + s)
  {
    var p := lead + s;
    assert p[|p| - (|s| + 2)..] == lead[|lead| - 2..] + s;
  }

  /** The keyword tests are substring tests: "gold" holds "old", so it is a vintage scene. */
  lemma GoldIsVintage()
    ensures CategoryOf("gold") == Vintage
    ensures FallbackPrompt("gold") == "vintage atmosphere, old objects, nostalgic mood, gold"
  {
    assert Lower("gold") == "gold";
    assert MatchAt("gold", "old", 1);
    assert !Contains("gold", "dark") by {
      assert "gold"[0..4] != "dark";
    }
    assert !MentionsAny("gold", DarkWords);
    assert VintageWords[0] == "old";
    assert MentionsAny("gold", VintageWords);
    assert CategoryOf("gold") == Vintage;
    assert Lead(Vintage) + "gold" == "vintage atmosphere, old objects, nostalgic mood, gold";
  }

  /** A dark word wins over every later list, whatever else the sentence mentions. */
  lemma DarkFirst(a: string, b: string)
    ensures CategoryOf(a + "Night" + b) == Dark
  {
    var s := a + "Night" + b;
    LowerConcat(a + "Night", b);
    LowerConcat(a, "Night");
    assert Lower("Night") == "night";
    var l := Lower(s);
    assert l == Lower(a) + "night" + Lower(b);
    assert l[|a|..|a| + 5] == "night";
    assert MatchAt(l, DarkWords[2], |a|);
  }

  /** `generate_image_prompt`: the stripped reply, or the fallback when the call raised. */
  function ImagePrompt(reply: Option<string>, sentence: string): (p: string)
    ensures reply.Some? ==> p == Strip(reply.value)
    ensures reply.None? ==> EndsWith(p, ", " + sentence)
  {
    match reply
    case Some(text) => Strip(text)
    case None => FallbackEndsWithSentence(sentence); FallbackPrompt(sentence)
  }

  // ---------------------------------------------------------------------
  // generate_images_task
  // ---------------------------------------------------------------------

  const ImageDir := "output/generatedImage/short"

  /** `os.path.join(output_dir, f"image_{i}.png")`. */
  function ImagePathFor(i: nat): string {
    ImageDir + "/image_" + NatToString(i) + ".png"
  }

  /** `if image_path:` — a returned, non-empty path. */
  predicate Truthy(g: Pollinations.Generated) {
    g.Saved? && g.path != ""
  }

  /** The reference filter: the truthy paths, in order. */
  function TruthyPaths(rs: seq<Pollinations.Generated>): seq<string> {
    if rs == [] then [] else (if Truthy(rs[0]) then [rs[0].path] else []) + TruthyPaths(rs[1..])
  }

  lemma {:induction false} TruthyPathsConcat(a: seq<Pollinations.Generated>, b: seq<Pollinations.Generated>)
    ensures TruthyPaths(a + b) == TruthyPaths(a) + TruthyPaths(b)
  {
    if a != [] {
      assert (a + b)[1..] == a[1..] + b;
      TruthyPathsConcat(a[1..], b);
    } else {
      assert a + b == b;
    }
  }

  /** What the loop returns after the calls `rs`: None once a call raised (the
      exception leaves the task), else the paths of the truthy results. */
  function ImagesOf(rs: seq<Pollinations.Generated>): Option<seq<string>> {
    if rs == [] then Some([])
    else
      match ImagesOf(rs[..|rs| - 1])
      case None => None
      case Some(paths) =>
        var last := rs[|rs| - 1];
        if last.Raised? then None else Some(paths + (if Truthy(last) then [last.path] else []))
  }

  /** The prompt for each sentence. */
  function Prompts(sentences: seq<string>, replies: nat -> Option<string>): (ps: seq<string>)
    ensures |ps| == |sentences|
  {
    seq(|sentences|, i requires 0 <= i < |sentences| => ImagePrompt(replies(i), sentences[i]))
  }

  /** The results of the calls: call `i` asks for prompt `i` at `image_i.png`. */
  function Results(prompts: seq<string>, image: (string, string) -> Pollinations.Generated)
    : (rs: seq<Pollinations.Generated>)
    ensures |rs| == |prompts|
  {
    seq(|prompts|, i requires 0 <= i < |prompts| => image(prompts[i], ImagePathFor(i)))
  }

  /** The paths kept are the truthy ones in sentence order; a call that raises leaves the task. */
  lemma {:induction false} ImagesOfSpec(rs: seq<Pollinations.Generated>)
    ensures ImagesOf(rs).None? <==> exists k :: 0 <= k < |rs| && rs[k].Raised?
    ensures ImagesOf(rs).Some? ==> ImagesOf(rs).value == TruthyPaths(rs)
  {
    if rs != [] {
      var init := rs[..|rs| - 1];
      var last := rs[|rs| - 1];
      ImagesOfSpec(init);
      assert rs == init + [last];
      TruthyPathsConcat(init, [last]);
      assert [last][1..] == [];
      if exists k :: 0 <= k < |init| && init[k].Raised? {
        var k :| 0 <= k < |init| && init[k].Raised?;
        assert rs[k] == init[k];
      }
      if exists k :: 0 <= k < |rs| && rs[k].Raised? {
        var k :| 0 <= k < |rs| && rs[k].Raised?;
        if k < |init| {
          assert init[k] == rs[k];
        }
      }
    }
  }

  /** One more result: a raise ends the task, a truthy path is appended. */
  lemma ImagesOfStep(rs: seq<Pollinations.Generated>, i: nat)
    requires i < |rs| && !rs[i].Raised? && ImagesOf(rs[..i]).Some?
    ensures Truthy(rs[i]) ==> ImagesOf(rs[..i + 1]) == Some(ImagesOf(rs[..i]).value + [rs[i].path])
    ensures !Truthy(rs[i]) ==> ImagesOf(rs[..i + 1]) == ImagesOf(rs[..i])
  {
    assert rs[..i + 1][..i] == rs[..i];
    assert ImagesOf(rs[..i]).value + [] == ImagesOf(rs[..i]).value;
  }

  /** A raise anywhere makes the whole task raise. */
  lemma RaisedStops(rs: seq<Pollinations.Generated>, i: nat)
    requires i < |rs| && rs[i].Raised?
    ensures ImagesOf(rs) == None
  {
    ImagesOfSpec(rs);
  }

  lemma {:induction false} TruthyPathsLength(rs: seq<Pollinations.Generated>)
    ensures |TruthyPaths(rs)| <= |rs|
    ensures forall p :: p in TruthyPaths(rs) ==> p != ""
  {
    if rs != [] {
      TruthyPathsLength(rs[1..]);
    }
  }

  /** `generate_images_task` over the segmented sentences; `replies(i)` is the
      model's answer for sentence `i` (None when it raised) and `image` the
      image service. */
  method GenerateImagesTask(sentences: seq<string>, replies: nat -> Option<string>,
                            image: (string, string) -> Pollinations.Generated)
    returns (r: Option<seq<string>>)
    ensures r == ImagesOf(Results(Prompts(sentences, replies), image))
  {
    ghost var prompts := Prompts(sentences, replies);
    ghost var rs := Results(prompts, image);
    var paths: seq<string> := [];
    var i := 0;
    assert rs[..0] == [];
    while i < |sentences|
      invariant i <= |sentences|
      invariant ImagesOf(rs[..i]) == Some(paths)
    {
      var prompt := ImagePrompt(replies(i), sentences[i]);
      assert prompt == prompts[i];
      var outputPath := ImagePathFor(i);
      var imagePath := image(prompt, outputPath);
      assert imagePath == rs[i];
      if imagePath.Raised? {
        RaisedStops(rs, i);
        return None;
      }
      ImagesOfStep(rs, i);
      if Truthy(imagePath) {
        paths := paths + [imagePath.path];
      }
      i := i + 1;
    }
    assert rs[..i] == rs;
    r := Some(paths);
  }

  /** When the service saves every image where it is asked to, every sentence
      gets its image, in order. */
  lemma {:induction false} AllImagesSaved(prompts: seq<string>, image: (string, string) -> Pollinations.Generated)
    requires forall p: string, path: string :: image(p, path) == Pollinations.Saved(path)
    ensures ImagesOf(Results(prompts, image))
            == Some(seq(|prompts|, i requires 0 <= i < |prompts| => ImagePathFor(i)))
  {
    var rs := Results(prompts, image);
    var ps := seq(|prompts|, i requires 0 <= i < |prompts| => ImagePathFor(i));
    forall k | 0 <= k < |rs| ensures rs[k] == Pollinations.Saved(ps[k]) && |ps[k]| > 0 {
      ImagePathNonEmpty(k);
    }
    ImagesOfSpec(rs);
    TruthyOfSaved(rs, ps);
  }

  /** Results that all saved to non-empty paths keep exactly those paths. */
  lemma {:induction false} TruthyOfSaved(rs: seq<Pollinations.Generated>, ps: seq<string>)
    requires |rs| == |ps|
    requires forall k :: 0 <= k < |rs| ==> rs[k] == Pollinations.Saved(ps[k]) && |ps[k]| > 0
    ensures TruthyPaths(rs) == ps
  {
    if rs != [] {
      assert forall k :: 0 <= k < |rs| - 1 ==> rs[1..][k] == rs[k + 1] && ps[1..][k] == ps[k + 1];
      TruthyOfSaved(rs[1..], ps[1..]);
      assert ps == [ps[0]] + ps[1..];
    }
  }

  lemma ImagePathNonEmpty(i: nat)
    ensures |ImagePathFor(i)| > 0
  {
    assert |ImageDir| > 0;
  }

  // ---------------------------------------------------------------------
  // combine_assets_to_video_task
  // ---------------------------------------------------------------------

  const OutputVideo := "output/generatedVideo/short_video.mp4"

  /** The animations `random.choice` picks from; there is no fourth. */
  datatype Animation = ZoomIn | PanLeft | PanRight

  /** One image clip: its image, how long it shows, and its animation (none
      when the video is made without overlays). */
  datatype Clip = Clip(image: string, duration: real, animation: Option<Animation>)

  /** A word shown at its own times. */
  datatype Overlay = Overlay(word: string, start: real, end: real)

  datatype VideoPlan = VideoPlan(clips: seq<Clip>, overlays: seq<Overlay>, output: string)

  predicate HasTimestamps(timestamps: Option<seq<Transcriber.WordTiming>>) {
    timestamps.Some? && timestamps.value != []
  }

  /** What is written: nothing without images; otherwise one clip per image,
      each an equal share of the audio, animated (and overlaid with the words)
      only when there are word timestamps. `pick(i)` stands for the choice of
      image `i`'s animation. */
  function CombinePlan(imagePaths: seq<string>, audioDuration: real,
                       timestamps: Option<seq<Transcriber.WordTiming>>, pick: nat -> Animation): Option<VideoPlan>
  {
    if imagePaths == [] then None
    else
      var share := audioDuration / (|imagePaths| as real);
      if !HasTimestamps(timestamps) then
        Some(VideoPlan(seq(|imagePaths|, i requires 0 <= i < |imagePaths| => Clip(imagePaths[i], share, None)),
                       [], OutputVideo))
      else
        var ws := timestamps.value;
        Some(VideoPlan(seq(|imagePaths|, i requires 0 <= i < |imagePaths| => Clip(imagePaths[i], share, Some(pick(i)))),
                       seq(|ws|, k requires 0 <= k < |ws| => Overlay(ws[k].word, ws[k].start, ws[k].end)),
                       OutputVideo))
  }

  /** `combine_assets_to_video_task`, building the clip and overlay lists by appending. */
  method CombineAssets(imagePaths: seq<string>, audioDuration: real,
                       timestamps: Option<seq<Transcriber.WordTiming>>, pick: nat -> Animation)
    returns (r: Option<VideoPlan>)
    ensures r == CombinePlan(imagePaths, audioDuration, timestamps, pick)
  {
    if imagePaths == [] {
      return None;
    }
    var share := audioDuration / (|imagePaths| as real);
    if !HasTimestamps(timestamps) {
      var plain := seq(|imagePaths|, i requires 0 <= i < |imagePaths| => Clip(imagePaths[i], share, None));
      return Some(VideoPlan(plain, [], OutputVideo));
    }
    var clips: seq<Clip> := [];
    for i := 0 to |imagePaths|
      invariant clips == seq(i, j requires 0 <= j < i => Clip(imagePaths[j], share, Some(pick(j))))
    {
      var animation := pick(i);
      clips := clips + [Clip(imagePaths[i], share, Some(animation))];
    }
    var ws := timestamps.value;
    var overlays: seq<Overlay> := [];
    for k := 0 to |ws|
      invariant overlays == seq(k, j requires 0 <= j < k => Overlay(ws[j].word, ws[j].start, ws[j].end))
    {
      overlays := overlays + [Overlay(ws[k].word, ws[k].start, ws[k].end)];
    }
    return Some(VideoPlan(clips, overlays, OutputVideo));
  }

  function TotalDuration(clips: seq<Clip>): real {
    if clips == [] then 0.0 else clips[0].duration + TotalDuration(clips[1..])
  }

  lemma {:induction false} TotalOfEqualShares(clips: seq<Clip>, share: real)
    requires forall i :: 0 <= i < |clips| ==> clips[i].duration == share
    ensures TotalDuration(clips) == (|clips| as real) * share
  {
    if clips != [] {
      TotalOfEqualShares(clips[1..], share);
    }
  }

  /** No images, no video; otherwise one clip per image, in order, each
      lasting the audio duration over the image count, so that the durations
      add up to the audio, written to the fixed output path. */
  lemma CombineClips(imagePaths: seq<string>, audioDuration: real,
                     timestamps: Option<seq<Transcriber.WordTiming>>, pick: nat -> Animation)
    ensures CombinePlan(imagePaths, audioDuration, timestamps, pick).None? <==> imagePaths == []
    ensures var r := CombinePlan(imagePaths, audioDuration, timestamps, pick);
            r.Some? ==>
              && r.value.output == OutputVideo
              && |r.value.clips| == |imagePaths|
              && (forall i :: 0 <= i < |imagePaths| ==> r.value.clips[i].image == imagePaths[i])
              && (forall i :: 0 <= i < |imagePaths| ==> r.value.clips[i].duration == audioDuration / (|imagePaths| as real))
              && TotalDuration(r.value.clips) == audioDuration
  {
    var r := CombinePlan(imagePaths, audioDuration, timestamps, pick);
    if r.Some? {
      var share := audioDuration / (|imagePaths| as real);
      TotalOfEqualShares(r.value.clips, share);
    }
  }

  /** Without timestamps the clips are plain and there is no text; with them
      every clip is animated and each word is shown at its raw, unshifted times. */
  lemma CombineOverlays(imagePaths: seq<string>, audioDuration: real,
                        timestamps: Option<seq<Transcriber.WordTiming>>, pick: nat -> Animation)
    requires imagePaths != []
    ensures var plan := CombinePlan(imagePaths, audioDuration, timestamps, pick).value;
            && (!HasTimestamps(timestamps) ==>
                  plan.overlays == [] && forall i :: 0 <= i < |plan.clips| ==> plan.clips[i].animation.None?)
            && (HasTimestamps(timestamps) ==>
                  && (forall i :: 0 <= i < |plan.clips| ==> plan.clips[i].animation == Some(pick(i)))
                  && |plan.overlays| == |timestamps.value|
                  && forall k :: 0 <= k < |plan.overlays| ==>
                       && plan.overlays[k].start == timestamps.value[k].start
                       && plan.overlays[k].end == timestamps.value[k].end
                       && plan.overlays[k].word == timestamps.value[k].word)
  {
  }

  // the position and zoom lambdas

  function Max(a: real, b: real): real { if a >= b then a else b }
  function Min(a: real, b: real): real { if a <= b then a else b }

  /** pan_left: `max(0, 100 - 20 * t)`. */
  function PanLeftX(t: real): real { Max(0.0, 100.0 - 20.0 * t) }

  /** pan_right: `min(0, -100 + 20 * t)`. */
  function PanRightX(t: real): real { Min(0.0, -100.0 + 20.0 * t) }

  /** zoom_in: `1 + 0.1 * (t / duration_per_image)`; a zero share divides by zero. */
  function ZoomFactor(t: real, share: real): Option<real> {
    if share == 0.0 then None else Some(1.0 + 0.1 * (t / share))
  }

  /** The left pan starts at 100, moves left, and stops at 0. */
  lemma PanLeftBounds(t: real, u: real)
    requires 0.0 <= t <= u
    ensures 0.0 <= PanLeftX(t) <= 100.0
    ensures PanLeftX(u) <= PanLeftX(t)
    ensures PanLeftX(0.0) == 100.0 && (t >= 5.0 ==> PanLeftX(t) == 0.0)
  {
  }

  /** The right pan starts at -100, moves right, and stops at 0. */
  lemma PanRightBounds(t: real, u: real)
    requires 0.0 <= t <= u
    ensures -100.0 <= PanRightX(t) <= 0.0
    ensures PanRightX(t) <= PanRightX(u)
    ensures PanRightX(0.0) == -100.0 && (t >= 5.0 ==> PanRightX(t) == 0.0)
  {
  }

  /** Over its clip the zoom grows from 100% to 110%. */
  lemma ZoomBounds(t: real, u: real, share: real)
    requires share > 0.0 && 0.0 <= t <= u <= share
    ensures ZoomFactor(t, share).Some? && ZoomFactor(u, share).Some?
    ensures 1.0 <= ZoomFactor(t, share).value <= 1.1
    ensures ZoomFactor(t, share).value <= ZoomFactor(u, share).value
    ensures ZoomFactor(0.0, share) == Some(1.0) && ZoomFactor(share, share) == Some(1.1)
  {
    var a, b := t / share, u / share;
    assert a * share == t && b * share == u;
    assert (b - a) * share == u - t;
    assert (1.0 - b) * share == share - u;
    assert 0.0 <= a;
    assert a <= b <= 1.0;
    assert share / share == 1.0;
  }
}
