/**
  The driver src/main.py: measuring media with ffprobe, taking the intro off
  the story to get the text that is voiced, picking shuffled background clips
  until they cover the narration, the GPU decision, and the checks that end
  the run before a video is requested. The story, intro and voice generators are those of
  Story and Voice, run on the model replies and syntheses they receive; the
  shuffle and the choice of music are inputs.
*/
module Pipeline {

  import opened Outcomes
  import opened PyStr
  import opened Media
  import opened Encoder
  import opened VideoJob
  import Story
  import Voice

  // ---------------------------------------------------------------------
  // get_media_duration
  // ---------------------------------------------------------------------

  /** The stream kinds `get_media_duration` accepts. */
  const MediaKinds: set<string> := {"audio", "video"}

  /** The duration `get_media_duration` reports, as a value for specifications. */
  function MediaDuration(p: Probe): real {
    match p
    case Probed(streams) => FirstOfKind(streams, MediaKinds)
    case ProbeError(_) => 0.0
  }

  /** `get_media_duration` reports the duration of the first audio or video
      stream, and 0.0 when there is none or when ffprobe fails. */
  lemma MediaDurationSpec(p: Probe)
    ensures p.ProbeError? ==> MediaDuration(p) == 0.0
    ensures p.Probed? && (forall i :: 0 <= i < |p.streams| ==> p.streams[i].codecType !in MediaKinds)
            ==> MediaDuration(p) == 0.0
    ensures p.Probed? ==> forall i :: 0 <= i < |p.streams| && p.streams[i].codecType in MediaKinds
                                     && (forall j :: 0 <= j < i ==> p.streams[j].codecType !in MediaKinds)
                                     ==> MediaDuration(p) == p.streams[i].duration
  {
  }

  /** `get_media_duration`: the loop over the probe's streams. */
  method GetMediaDuration(p: Probe) returns (d: real)
    ensures d == MediaDuration(p)
  {
    match p {
      case ProbeError(_) =>
        return 0.0;
      case Probed(streams) =>
        d := FirstStreamDuration(streams, MediaKinds);
    }
  }

  // ---------------------------------------------------------------------
  // the text given to generate_voice
  // ---------------------------------------------------------------------

  /** Lines 88-97: the story without its intro, stripped; the whole story when
      the intro is not a prefix or nothing is left after it. */
  function VoiceText(story: string, intro: string): (r: string)
    ensures !StartsWith(story, intro) ==> r == story
    ensures r == story || (StartsWith(story, intro) && r == Strip(story[|intro|..]) && r != "")
    ensures story != "" ==> r != ""
  {
    if StartsWith(story, intro) then
      var rest := Strip(story[|intro|..]);
      if rest == "" then story else rest
    else story
  }

  /** A story made of the intro, some whitespace and a body is narrated as
      exactly that body. */
  lemma VoiceTextOfComposed(intro: string, gap: string, body: string)
    requires forall i :: 0 <= i < |gap| ==> IsSpace(gap[i])
    requires IsStripped(body) && body != ""
    ensures VoiceText(intro + gap + body, intro) == body
  {
    var story := intro + gap + body;
    assert story[..|intro|] == intro;
    assert story[|intro|..] == gap + body + "";
    StripPadded(gap, body, "");
  }

  /** A story that is only the intro and whitespace is narrated in full. */
  lemma VoiceTextOfIntroOnly(intro: string, pad: string)
    requires forall i :: 0 <= i < |pad| ==> IsSpace(pad[i])
    ensures VoiceText(intro + pad, intro) == intro + pad
  {
    var story := intro + pad;
    assert story[..|intro|] == intro;
    assert story[|intro|..] == pad;
    LStripAllSpace(pad);
  }

  // ---------------------------------------------------------------------
  // background clip selection
  // ---------------------------------------------------------------------

  /** The summed durations of some clips. */
  function Total(paths: seq<string>, probe: string -> Probe): real {
    if paths == [] then 0.0 else MediaDuration(probe(paths[0])) + Total(paths[1..], probe)
  }

  lemma {:induction false} TotalSnoc(paths: seq<string>, p: string, probe: string -> Probe)
    ensures Total(paths + [p], probe) == Total(paths, probe) + MediaDuration(probe(p))
  {
    if paths != [] {
      assert (paths + [p])[1..] == paths[1..] + [p];
      TotalSnoc(paths[1..], p, probe);
    } else {
      assert paths + [p] == [p];
    }
  }

  /** The clips whose probed duration is positive, in order. */
  function Usable(files: seq<string>, probe: string -> Probe): (us: seq<string>)
    ensures forall k :: 0 <= k < |us| ==> MediaDuration(probe(us[k])) > 0.0
  {
    if files == [] then []
    else if MediaDuration(probe(files[0])) > 0.0 then [files[0]] + Usable(files[1..], probe)
    else Usable(files[1..], probe)
  }

  /** The loop at lines 144-151, from a running total `acc`: usable clips are
      taken in order until the total reaches the target. */
  function Selection(files: seq<string>, probe: string -> Probe, target: real, acc: real): seq<string> {
    if files == [] then []
    else
      var d := MediaDuration(probe(files[0]));
      if d > 0.0 then
        if acc + d >= target then [files[0]]
        else [files[0]] + Selection(files[1..], probe, target, acc + d)
      else Selection(files[1..], probe, target, acc)
  }

  /** The selection is a prefix of the usable clips: only clips with a
      positive duration, in the shuffled order, none skipped. */
  lemma {:induction false} SelectionPrefix(files: seq<string>, probe: string -> Probe, target: real, acc: real)
    ensures Selection(files, probe, target, acc) <= Usable(files, probe)
  {
    if files != [] {
      var d := MediaDuration(probe(files[0]));
      if d > 0.0 {
        if acc + d < target {
          SelectionPrefix(files[1..], probe, target, acc + d);
        }
      } else {
        SelectionPrefix(files[1..], probe, target, acc);
      }
    }
  }

  /** Every proper prefix of `sel`, added to `acc`, stays below the target. */
  predicate PrefixesBelow(sel: seq<string>, probe: string -> Probe, target: real, acc: real) {
    forall k :: 0 <= k < |sel| ==> acc + Total(sel[..k], probe) < target
  }

  /** Selection stops at the first clip that makes the total reach the
      target: every proper prefix stays below it. */
  lemma {:induction false} SelectionBelowTarget(files: seq<string>, probe: string -> Probe, target: real, acc: real)
    requires acc < target
    ensures PrefixesBelow(Selection(files, probe, target, acc), probe, target, acc)
  {
    if files != [] {
      var d := MediaDuration(probe(files[0]));
      var sel := Selection(files, probe, target, acc);
      if d > 0.0 {
        if acc + d < target {
          var rest := Selection(files[1..], probe, target, acc + d);
          assert sel == [files[0]] + rest;
          SelectionBelowTarget(files[1..], probe, target, acc + d);
          forall k | 0 <= k < |sel| ensures acc + Total(sel[..k], probe) < target {
            if k > 0 {
              assert sel[..k][0] == files[0];
              assert sel[..k][1..] == rest[..k - 1];
              assert Total(sel[..k], probe) == d + Total(rest[..k - 1], probe);
              assert acc + d + Total(rest[..k - 1], probe) < target;
            } else {
              assert sel[..k] == [];
            }
          }
        } else {
          assert sel == [files[0]];
          assert sel[..0] == [];
        }
      } else {
        assert sel == Selection(files[1..], probe, target, acc);
        SelectionBelowTarget(files[1..], probe, target, acc);
      }
    }
  }

  /** Selection ends either with the total at the target or with every usable clip taken. */
  lemma {:induction false} SelectionCovers(files: seq<string>, probe: string -> Probe, target: real, acc: real)
    ensures var sel := Selection(files, probe, target, acc);
            sel == Usable(files, probe) || acc + Total(sel, probe) >= target
  {
    if files != [] {
      var d := MediaDuration(probe(files[0]));
      if d > 0.0 {
        if acc + d < target {
          var rest := Selection(files[1..], probe, target, acc + d);
          SelectionCovers(files[1..], probe, target, acc + d);
          var sel := [files[0]] + rest;
          assert Selection(files, probe, target, acc) == sel;
          assert Usable(files, probe) == [files[0]] + Usable(files[1..], probe);
          assert sel[0] == files[0] && sel[1..] == rest;
          assert Total(sel, probe) == d + Total(rest, probe);
        } else {
          assert Selection(files, probe, target, acc) == [files[0]];
          assert [files[0]][1..] == [];
          assert Total([files[0]], probe) == d;
        }
      } else {
        SelectionCovers(files[1..], probe, target, acc);
        assert Selection(files, probe, target, acc) == Selection(files[1..], probe, target, acc);
        assert Usable(files, probe) == Usable(files[1..], probe);
      }
    }
  }

  /** Nothing is selected exactly when no clip has a positive duration. */
  lemma {:induction false} SelectionEmpty(files: seq<string>, probe: string -> Probe, target: real, acc: real)
    ensures Selection(files, probe, target, acc) == [] <==> Usable(files, probe) == []
  {
    if files != [] && MediaDuration(probe(files[0])) <= 0.0 {
      SelectionEmpty(files[1..], probe, target, acc);
    }
  }

  /** What `main` selects: a prefix of the usable clips, empty only when
      none is usable, whose total reaches the target unless it takes every
      usable clip, and whose proper prefixes all stay below the target. */
  lemma SelectionSpec(files: seq<string>, probe: string -> Probe, target: real)
    ensures var sel := Selection(files, probe, target, 0.0);
            && sel <= Usable(files, probe)
            && (sel == [] <==> Usable(files, probe) == [])
            && (sel == Usable(files, probe) || Total(sel, probe) >= target)
            && (0.0 < target ==> PrefixesBelow(sel, probe, target, 0.0))
  {
    SelectionPrefix(files, probe, target, 0.0);
    SelectionEmpty(files, probe, target, 0.0);
    SelectionCovers(files, probe, target, 0.0);
    if 0.0 < target {
      SelectionBelowTarget(files, probe, target, 0.0);
    }
  }

  /** One clip of the selection, taken from position k. */
  lemma SelectionStep(files: seq<string>, k: nat, probe: string -> Probe, target: real, acc: real)
    requires k < |files|
    ensures var d := MediaDuration(probe(files[k]));
            && (d <= 0.0 ==> Selection(files[k..], probe, target, acc) == Selection(files[k + 1..], probe, target, acc))
            && (d > 0.0 && acc + d >= target ==> Selection(files[k..], probe, target, acc) == [files[k]])
            && (d > 0.0 && acc + d < target ==>
                  Selection(files[k..], probe, target, acc) == [files[k]] + Selection(files[k + 1..], probe, target, acc + d))
  {
    assert files[k..][0] == files[k];
    assert files[k..][1..] == files[k + 1..];
  }

  /** The selection loop after clip k: what is selected so far, followed by
      what the rest selects, is still the whole selection. */
  lemma SelectionAdvance(files: seq<string>, k: nat, probe: string -> Probe, target: real, acc: real,
                         selected: seq<string>)
    requires k < |files|
    requires selected + Selection(files[k..], probe, target, acc) == Selection(files, probe, target, 0.0)
    ensures var d := MediaDuration(probe(files[k]));
            && (d <= 0.0 ==> selected + Selection(files[k + 1..], probe, target, acc) == Selection(files, probe, target, 0.0))
            && (d > 0.0 && acc + d >= target ==> selected + [files[k]] == Selection(files, probe, target, 0.0))
            && (d > 0.0 && acc + d < target ==>
                  (selected + [files[k]]) + Selection(files[k + 1..], probe, target, acc + d)
                  == Selection(files, probe, target, 0.0))
  {
    SelectionStep(files, k, probe, target, acc);
    ConcatAssoc(selected, [files[k]], Selection(files[k + 1..], probe, target, acc + MediaDuration(probe(files[k]))));
  }

  /** The selection loop of `main`: each clip is probed in the shuffled order,
      usable ones are appended and summed, and the loop breaks once the sum
      reaches the target. */
  method SelectBackgroundVideos(files: seq<string>, probe: string -> Probe, target: real)
    returns (selected: seq<string>, total: real)
    ensures selected == Selection(files, probe, target, 0.0)
    ensures total == Total(selected, probe)
  {
    selected := [];
    total := 0.0;
    var k := 0;
    while k < |files|
      invariant 0 <= k <= |files|
      invariant total == Total(selected, probe)
      invariant selected + Selection(files[k..], probe, target, total) == Selection(files, probe, target, 0.0)
    {
      SelectionAdvance(files, k, probe, target, total, selected);
      var d := GetMediaDuration(probe(files[k]));
      if d > 0.0 {
        TotalSnoc(selected, files[k], probe);
        selected := selected + [files[k]];
        total := total + d;
        if total >= target {
          return;
        }
      }
      k := k + 1;
    }
    assert files[k..] == [];
  }

  // ---------------------------------------------------------------------
  // main
  // ---------------------------------------------------------------------

  /** The speed factor `main` assumes when it sizes the background. */
  const AssumedSpeedFactor: real := 1.6

  /** The output path, `os.path.join("output/generatedVideo", "final_story_video.mp4")`. */
  const OutputVideoFile: string := "output/generatedVideo/final_story_video.mp4"

  /** The narration length the background has to cover. */
  function EffectiveVoiceDuration(original: real): (e: real)
    ensures e * AssumedSpeedFactor == original
    ensures original > 0.0 ==> 0.0 < e < original
  {
    original / AssumedSpeedFactor
  }

  /** Lines 165-168: the GPU is requested when it was found and the encoder works. */
  function UseGpu(s: GpuSupport): bool {
    s.hasGpu && s.encoder
  }

  /** What `main` starts from: the environment and prompt file, the model
      replies the story and intro generators receive (with the fallback
      pick), the voice engine's voices and per-sentence syntheses, the
      directory listings (the video list already shuffled), the music choice,
      the probes of each file, and the GPU probes. */
  datatype MainInputs = MainInputs(
    apiKey: Option<string>,
    prompt: Option<string>,
    storyReply: Story.Reply,
    storyPick: nat,
    introReply: Story.Reply,
    voices: set<string>,
    syntheses: seq<Option<Voice.Chunk>>,
    voiceProbe: Probe,
    music: seq<string>,
    musicPick: nat,
    videos: seq<string>,
    videoProbe: string -> Probe,
    gpu: GpuProbes)

  /** Where `main` ends: one of its early returns, an exception that escapes
      a generator, or the `create_video` call (lines 187-196). That call gets
      the generated story and intro as `story_text` and `intro_text`, the
      music and the job's request. `voiceText` records the text that was
      given to `generate_voice` at line 99; it is not an argument of
      `create_video`. */
  datatype MainOutcome =
    | NoApiKey
    | NoPromptFile
    | EmptyPrompt
    | StoryRaised(storyError: Story.StoryError)   // generate_story, line 60
    | IntroRaised(introError: Story.StoryError)   // generate_intro_text, line 66
    | VoiceRaised(voiceError: Voice.VoiceError)   // generate_voice, line 99
    | NoVoiceDuration
    | NoMusic
    | NoVideos
    | NoClipsSelected
    | VideoRequested(story: string, intro: string, voiceText: string, music: string, req: Request)

  /** `main`'s decisions in order. */
  function Plan(m: MainInputs): MainOutcome {
    if m.apiKey.None? || m.apiKey.value == "" then NoApiKey
    else if m.prompt.None? then NoPromptFile
    else if Strip(m.prompt.value) == "" then EmptyPrompt
    else match Story.GenerateStory(m.apiKey, m.storyReply, m.storyPick)
      case Err(e) => StoryRaised(e)
      case Ok(story) =>
        match Story.GenerateIntroText(m.apiKey, story, m.introReply)
        case Err(e) => IntroRaised(e)
        case Ok(intro) =>
          var voice := Voice.VoiceResult(None, m.voices, m.syntheses);
          if voice.Err? then VoiceRaised(voice.error)
          else PlanAfterVoice(m, story, intro)
  }

  /** `main`'s decisions once the voice is written, from line 106 on. */
  function PlanAfterVoice(m: MainInputs, story: string, intro: string): MainOutcome {
    if MediaDuration(m.voiceProbe) == 0.0 then NoVoiceDuration
    else if m.music == [] then NoMusic
    else if m.videos == [] then NoVideos
    else
      var target := EffectiveVoiceDuration(MediaDuration(m.voiceProbe));
      var selected := Selection(m.videos, m.videoProbe, target, 0.0);
      if selected == [] then NoClipsSelected
      else VideoRequested(story, intro, VoiceText(story, intro), m.music[m.musicPick % |m.music|],
                          DefaultRequest(OutputVideoFile, selected, UseGpu(DetectGpuSupport(m.gpu)), 0))
  }

  /** `main` as a sequence of steps: the checks, the duration probe, the
      selection loop and the GPU probes, ending where the source ends. */
  method RunMain(m: MainInputs) returns (r: MainOutcome)
    ensures r == Plan(m)
    ensures (m.apiKey.None? || m.apiKey.value == "") ==> r == NoApiKey
    ensures r.VideoRequested? ==> r.req.backgrounds != [] && r.music in m.music
  {
    if m.apiKey.None? || m.apiKey.value == "" {
      return NoApiKey;
    }
    if m.prompt.None? {
      return NoPromptFile;
    }
    var userPrompt := Strip(m.prompt.value);
    if userPrompt == "" {
      return EmptyPrompt;
    }
    var story := Story.GenerateStory(m.apiKey, m.storyReply, m.storyPick);
    if story.Err? {
      return StoryRaised(story.error);
    }
    var intro := Story.GenerateIntroText(m.apiKey, story.value, m.introReply);
    if intro.Err? {
      return IntroRaised(intro.error);
    }
    var voiceText := VoiceText(story.value, intro.value);
    var voice, _ := Voice.GenerateVoice(None, m.voices, m.syntheses);
    if voice.Err? {
      return VoiceRaised(voice.error);
    }
    var original := GetMediaDuration(m.voiceProbe);
    if original == 0.0 {
      return NoVoiceDuration;
    }
    var target := original / AssumedSpeedFactor;
    if m.music == [] {
      return NoMusic;
    }
    var music := m.music[m.musicPick % |m.music|];
    if m.videos == [] {
      return NoVideos;
    }
    var selected, total := SelectBackgroundVideos(m.videos, m.videoProbe, target);
    if selected == [] {
      return NoClipsSelected;
    }
    var support := DetectGpuSupport(m.gpu);
    var useGpu := support.hasGpu && support.encoder;
    return VideoRequested(story.value, intro.value, voiceText, music, DefaultRequest(OutputVideoFile, selected, useGpu, 0));
  }

  /** Past the prompt checks, an error other than a quota error escapes
      `generate_story` and ends `main`. */
  lemma StoryRaisedStops(m: MainInputs)
    requires m.apiKey.Some? && m.apiKey.value != "" && m.prompt.Some? && Strip(m.prompt.value) != ""
    requires m.storyReply.Raised? && !Story.IsQuotaError(m.storyReply.message)
    ensures Plan(m) == StoryRaised(Story.GenerationFailed(m.storyReply.message))
  {
  }

  /** After a story was returned, an error other than a quota error escapes
      `generate_intro_text` and ends `main`. */
  lemma IntroRaisedStops(m: MainInputs)
    requires m.apiKey.Some? && m.apiKey.value != "" && m.prompt.Some? && Strip(m.prompt.value) != ""
    requires m.storyReply.Replied? && m.introReply.Raised? && !Story.IsQuotaError(m.introReply.message)
    ensures Plan(m) == IntroRaised(Story.GenerationFailed(m.introReply.message))
  {
  }

  /** Once the voice is written, `main` only returns early or requests the video. */
  lemma AfterVoiceNoRaise(m: MainInputs, story: string, intro: string)
    ensures !PlanAfterVoice(m, story, intro).StoryRaised? && !PlanAfterVoice(m, story, intro).IntroRaised?
    ensures !PlanAfterVoice(m, story, intro).VoiceRaised?
  {
  }

  /** After both texts were generated, `generate_voice` raises, and ends
      `main`, exactly when the voice is unknown to the engine or no sentence
      was synthesized. */
  lemma VoiceRaisedStops(m: MainInputs)
    requires m.apiKey.Some? && m.apiKey.value != "" && m.prompt.Some? && Strip(m.prompt.value) != ""
    requires Story.GenerateStory(m.apiKey, m.storyReply, m.storyPick).Ok?
    requires Story.GenerateIntroText(m.apiKey, Story.GenerateStory(m.apiKey, m.storyReply, m.storyPick).value, m.introReply).Ok?
    ensures Plan(m).VoiceRaised? <==>
              Voice.AvailableVoices[0] !in m.voices || Voice.Successes(m.syntheses) == []
  {
    var story := Story.GenerateStory(m.apiKey, m.storyReply, m.storyPick).value;
    var intro := Story.GenerateIntroText(m.apiKey, story, m.introReply).value;
    var voice := Voice.VoiceResult(None, m.voices, m.syntheses);
    assert voice.Err? <==> Voice.AvailableVoices[0] !in m.voices || Voice.Successes(m.syntheses) == [];
    if voice.Ok? {
      var after := PlanAfterVoice(m, story, intro);
      AfterVoiceNoRaise(m, story, intro);
      assert Plan(m) == after;
    }
  }

  /** A video is requested exactly when every check passes, no generator
      raises and some clip has a positive duration; the request's clips are then a prefix of the
      usable clips that reaches the target or takes them all, with every
      proper prefix below the target. */
  lemma PlanRequestsVideo(m: MainInputs)
    ensures Plan(m).VideoRequested? <==>
              (m.apiKey.Some? && m.apiKey.value != "" && m.prompt.Some? && Strip(m.prompt.value) != ""
               && !(m.storyReply.Raised? && !Story.IsQuotaError(m.storyReply.message))
               && !(m.introReply.Raised? && !Story.IsQuotaError(m.introReply.message))
               && Voice.AvailableVoices[0] in m.voices && Voice.Successes(m.syntheses) != []
               && MediaDuration(m.voiceProbe) != 0.0 && m.music != []
               && Usable(m.videos, m.videoProbe) != [])
    ensures Plan(m).VideoRequested? ==>
              var target := EffectiveVoiceDuration(MediaDuration(m.voiceProbe));
              var sel := Plan(m).req.backgrounds;
              && sel <= Usable(m.videos, m.videoProbe)
              && (sel == Usable(m.videos, m.videoProbe) || Total(sel, m.videoProbe) >= target)
              && (0.0 < target ==> PrefixesBelow(sel, m.videoProbe, target, 0.0))
  {
    var target := EffectiveVoiceDuration(MediaDuration(m.voiceProbe));
    SelectionSpec(m.videos, m.videoProbe, target);
  }

  /** `create_video` gets the story and intro exactly as the generators
      returned them, not the stripped text that was voiced; that text is the
      story without its intro prefix (the whole story when nothing is left). */
  lemma VideoGetsGeneratedTexts(m: MainInputs)
    requires Plan(m).VideoRequested?
    ensures Story.GenerateStory(m.apiKey, m.storyReply, m.storyPick).Ok?
    ensures var story := Story.GenerateStory(m.apiKey, m.storyReply, m.storyPick).value;
            && Story.GenerateIntroText(m.apiKey, story, m.introReply).Ok?
            && Plan(m).story == story
            && Plan(m).intro == Story.GenerateIntroText(m.apiKey, story, m.introReply).value
            && Plan(m).voiceText == VoiceText(story, Plan(m).intro)
  {
    var story := Story.GenerateStory(m.apiKey, m.storyReply, m.storyPick);
    if story.Ok? {
      var intro := Story.GenerateIntroText(m.apiKey, story.value, m.introReply);
      if intro.Ok? && Voice.VoiceResult(None, m.voices, m.syntheses).Ok? {
        AfterVoiceTexts(m, story.value, intro.value);
      }
    }
  }

  /** Past the voice, a requested video carries the texts it was given. */
  lemma AfterVoiceTexts(m: MainInputs, story: string, intro: string)
    ensures PlanAfterVoice(m, story, intro).VideoRequested? ==>
              && PlanAfterVoice(m, story, intro).story == story
              && PlanAfterVoice(m, story, intro).intro == intro
              && PlanAfterVoice(m, story, intro).voiceText == VoiceText(story, intro)
  {
  }

  /** The request `main` sends: the default caption style, GPU device 0, the
      GPU exactly when `detect_gpu_support` found it, and so never downgraded
      by the job's own detection on the same probes. */
  lemma RequestFromMain(m: MainInputs)
    requires Plan(m).VideoRequested?
    ensures var req := Plan(m).req;
            && req.out == OutputVideoFile && req.deviceId == 0
            && req.font == "Segoe UI Emoji" && req.fontSize == 64 && req.strokeWidth == 5
            && req.useGpu == DetectGpuSupport(m.gpu).hasGpu
            && EffectiveGpu(req.useGpu, DetectGpuSupport(m.gpu).hasGpu) == req.useGpu
  {
    assert m.apiKey.Some? && m.apiKey.value != "" && m.prompt.Some? && Strip(m.prompt.value) != "";
    assert MediaDuration(m.voiceProbe) != 0.0 && m.music != [] && m.videos != [];
    var target := EffectiveVoiceDuration(MediaDuration(m.voiceProbe));
    var sel := Selection(m.videos, m.videoProbe, target, 0.0);
    assert sel != [];
  }

  /** `main`'s output path contains ".mp4", so a successful job keeps the
      output it wrote (the success case of `Job.Run`). */
  lemma OutputVideoFileIsMp4()
    ensures Contains(OutputVideoFile, Mp4)
  {
    assert OutputVideoFile[39..43] == Mp4;
    ContainsWitness(OutputVideoFile, Mp4, 39);
  }
}
