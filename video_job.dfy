/**
  The orchestration of `create_video` (src/video_generator.py) as a job over
  an abstract filesystem: the set of paths that exist. The job writes the
  intro audio, the thumbnail and the intro video, measures the mixed audio
  in a file it removes again, stages every background clip into a temporary
  file that is polled for, size-checked and probed before it is registered,
  writes the ASS captions, encodes with the GPU fallback, and deletes its
  temporary files in `finally` blocks.

  ffmpeg, ffprobe, the speech synthesiser, the thumbnail renderer and Vosk are
  not run: what each of them does in one job is given by a `Tools` value.
*/
module VideoJob {

  import opened Outcomes
  import opened PyStr
  import opened Media
  import opened Transcriber
  import opened Captions
  import opened Encoder

  // ---------------------------------------------------------------------
  // temporary paths
  // ---------------------------------------------------------------------

  const Mp4: string := ".mp4"
  const ThumbnailPath: string := "output/generatedThumbnail/thumbnail.png"
  const MaxRetries: nat := 5
  const MaxTempLength: real := 60.0

  /** Every temporary path is `output_video_path.replace(".mp4", suffix)`. */
  function TempPath(out: string, suffix: string): string {
    Replace(out, Mp4, suffix)
  }

  function IntroAudioPath(out: string): string { TempPath(out, "_intro_audio.wav") }
  function IntroVideoPath(out: string): string { TempPath(out, "_intro_video.mp4") }
  function MixedAudioPath(out: string): string { TempPath(out, "_mixed_audio.wav") }
  function AssPath(out: string): string { TempPath(out, ".ass") }

  function StagedSuffix(i: nat): string { "_looped_scaled_video_" + NatToString(i) + ".mp4" }
  function StagedPath(out: string, i: nat): string { TempPath(out, StagedSuffix(i)) }

  /** The staged paths of clips 0 .. n-1, in order. */
  function StagedPaths(out: string, n: nat): (ps: seq<string>)
    ensures |ps| == n
    ensures forall i :: 0 <= i < n ==> ps[i] == StagedPath(out, i)
  {
    seq(n, (i: int) requires 0 <= i => StagedPath(out, i))
  }

  /** The staged paths of clips 0 .. n-1, as a set. */
  function StagedSet(out: string, n: nat): set<string> {
    set i | 0 <= i < n :: StagedPath(out, i)
  }

  lemma StagedPathsSnoc(out: string, n: nat)
    ensures StagedPaths(out, n + 1) == StagedPaths(out, n) + [StagedPath(out, n)]
  {
  }

  lemma StagedSetGrows(out: string, n: nat, m: nat)
    requires n < m
    ensures StagedSet(out, n + 1) == StagedSet(out, n) + {StagedPath(out, n)}
    ensures StagedPath(out, n) in StagedSet(out, m)
  {
  }

  lemma StagedSetMono(out: string, n: nat, m: nat)
    requires n <= m
    ensures StagedSet(out, n) <= StagedSet(out, m)
  {
  }

  /** The staged paths, as a set. */
  lemma StagedPathsSet(out: string, m: nat)
    ensures (set p | p in StagedPaths(out, m)) == StagedSet(out, m)
  {
    var ps := StagedPaths(out, m);
    forall p | p in StagedSet(out, m) ensures p in ps {
      var i :| 0 <= i < m && p == StagedPath(out, i);
      assert ps[i] == p;
    }
  }

  /** Every path a job with n background clips uses for a temporary file. */
  function ScratchPaths(out: string, n: nat): set<string> {
    {IntroAudioPath(out), IntroVideoPath(out), MixedAudioPath(out), AssPath(out)} + StagedSet(out, n)
  }

  /** An output path without ".mp4" is its own temporary path, whatever the suffix. */
  lemma TempPathOfPlainOutput(out: string, suffix: string)
    requires !Contains(out, Mp4)
    ensures TempPath(out, suffix) == out
  {
    ReplaceAbsent(out, Mp4, suffix);
  }

  /** With the extension only at the end, the suffix takes its place. */
  lemma TempPathOfConventionalOutput(stem: string, suffix: string)
    requires forall i: nat :: i < |stem| ==> !MatchAt(stem + Mp4, Mp4, i)
    ensures TempPath(stem + Mp4, suffix) == stem + suffix
  {
    ReplaceLast(stem, Mp4, suffix);
  }

  /** With ".mp4" present, a suffix that does not begin like ".m" yields a
      path different from the output. */
  lemma TempPathDiffers(out: string, suffix: string)
    requires Contains(out, Mp4)
    requires |suffix| >= 2 && suffix[..2] != Mp4[..2]
    ensures TempPath(out, suffix) != out
  {
    ReplaceChanges(out, Mp4, suffix);
  }

  /** With ".mp4" in the output path no temporary path is the output itself. */
  lemma ScratchAvoidsOutput(out: string, n: nat)
    requires Contains(out, Mp4)
    ensures out !in ScratchPaths(out, n)
  {
    assert Mp4[..2] == ".m";
    assert "_intro_audio.wav"[..2] == "_i" && "_intro_video.mp4"[..2] == "_i";
    assert "_mixed_audio.wav"[..2] == "_m" && ".ass"[..2] == ".a";
    TempPathDiffers(out, "_intro_audio.wav");
    TempPathDiffers(out, "_intro_video.mp4");
    TempPathDiffers(out, "_mixed_audio.wav");
    TempPathDiffers(out, ".ass");
    forall i | 0 <= i < n ensures StagedPath(out, i) != out {
      assert StagedSuffix(i)[..2] == "_l";
      TempPathDiffers(out, StagedSuffix(i));
    }
  }

  /** Without ".mp4" every temporary path is the output path. */
  lemma ScratchOfPlainOutput(out: string, n: nat)
    requires !Contains(out, Mp4)
    ensures ScratchPaths(out, n) == {out}
  {
    TempPathOfPlainOutput(out, "_intro_audio.wav");
    TempPathOfPlainOutput(out, "_intro_video.mp4");
    TempPathOfPlainOutput(out, "_mixed_audio.wav");
    TempPathOfPlainOutput(out, ".ass");
    forall i | 0 <= i < n ensures StagedPath(out, i) == out {
      TempPathOfPlainOutput(out, StagedSuffix(i));
    }
  }

  /** The output path is a temporary path only as the intro audio of a plain output. */
  lemma OutputAmongScratch(out: string, n: nat)
    requires out in ScratchPaths(out, n)
    ensures out == IntroAudioPath(out)
  {
    if Contains(out, Mp4) {
      ScratchAvoidsOutput(out, n);
    } else {
      TempPathOfPlainOutput(out, "_intro_audio.wav");
    }
  }

  /** `min(60, mixed_audio_duration + 5)`. */
  function TempLength(mixed: real): (t: real)
    ensures t <= MaxTempLength && t <= mixed + 5.0
    ensures t == MaxTempLength || t == mixed + 5.0
  {
    if MaxTempLength <= mixed + 5.0 then MaxTempLength else mixed + 5.0
  }

  // ---------------------------------------------------------------------
  // what the tools do
  // ---------------------------------------------------------------------

  /** The encode of one staged clip: it raised `ffmpeg.Error` (possibly after
      writing part of the file), or it returned; then the file becomes visible
      after `visibleAfter` failed existence checks, has `size` bytes, and
      ffprobe accepts it when `probes` holds. */
  datatype Staging =
    | StageFailed(stderr: string, leavesFile: bool)
    | StageDone(visibleAfter: nat, size: nat, probes: bool)

  /** The outcome of every external call one job makes. */
  datatype Tools = Tools(
    introAudio: Option<real>,          // generate_and_measure_audio: the intro duration, None if it raised
    thumbnail: bool,                   // reading the intro text and rendering the thumbnail succeed
    introRender: Render,               // the intro video encode
    voiceProbe: Probe,                 // ffprobe of the narration
    mixRender: Render,                 // writing the mixed audio
    mixProbe: Probe,                   // ffprobe of the mixed audio
    clipProbe: string -> Probe,        // ffprobe of a background clip
    stage: nat -> Staging,             // the encode of staged clip i
    recognition: Recognition,          // what the recognizer reports for the narration
    gpu: GpuProbes,                    // the three GPU probes
    encode: Render,                    // the final encode with `output_args`
    retry: Render)                     // the final encode with the CPU copy

  /** What the job was asked for: the output path, the background clips in
      order, the caption style and the GPU request. */
  datatype Request = Request(
    out: string, backgrounds: seq<string>,
    font: string, fontSize: int, strokeWidth: int,
    useGpu: bool, deviceId: int)

  /** The default caption style of `create_video`, which `main` uses. */
  function DefaultRequest(out: string, backgrounds: seq<string>, useGpu: bool, deviceId: int): Request {
    Request(out, backgrounds, "Segoe UI Emoji", 64, 5, useGpu, deviceId)
  }

  /** Why a job stopped: the exception that escaped `create_video`. */
  datatype Fault =
    | AudioFailed                      // the intro speech could not be made
    | WriteFailed(path: string)        // a file could not be opened for writing
    | ThumbnailFailed                  // reading the intro text or rendering the thumbnail raised
    | FfmpegFailed(stderr: string)     // ffmpeg.Error from a run or a probe
    | NoAudioDuration                  // ValueError: no audio duration for the narration
    | NoMixedDuration                  // ValueError: no audio duration for the mix
    | NoVideoStream(path: string)      // ValueError: a background clip has no video stream
    | TempNotCreated(path: string)     // FileNotFoundError: the staged file never appeared
    | TempEmpty(path: string)          // ValueError: the staged file is empty
    | TempInvalid(path: string)        // ValueError: ffprobe rejects the staged file

  datatype Status = Success | Failure(fault: Fault)

  /** The error text of a failed run, None for a successful one. */
  function ErrorOf(r: Render): Option<string> {
    match r
    case Rendered => None
    case RenderError(e, _) => Some(e)
  }

  /** `next((s for s in streams if s['codec_type'] == 'video'), None)` is not None. */
  predicate HasVideoStream(streams: seq<Stream>) {
    exists k :: 0 <= k < |streams| && streams[k].codecType == "video"
  }

  /** How staging clip i from `source` ends; Success means it was registered. */
  function StageOutcome(out: string, i: nat, source: string, tools: Tools): Status {
    match tools.clipProbe(source)
    case ProbeError(e) => Failure(FfmpegFailed(e))
    case Probed(streams) =>
      if !HasVideoStream(streams) then Failure(NoVideoStream(source))
      else match tools.stage(i)
        case StageFailed(e, _) => Failure(FfmpegFailed(e))
        case StageDone(visibleAfter, size, probes) =>
          if visibleAfter >= MaxRetries || StagedPath(out, i) == "" then Failure(TempNotCreated(StagedPath(out, i)))
          else if size == 0 then Failure(TempEmpty(StagedPath(out, i)))
          else if !probes then Failure(TempInvalid(StagedPath(out, i)))
          else Success
  }

  /** A clip is rendered once its probe found a video stream. */
  predicate ClipRendered(source: string, tools: Tools) {
    tools.clipProbe(source).Probed? && HasVideoStream(tools.clipProbe(source).streams)
  }

  /** The clip staging loop registers a clip only when all its checks pass. */
  lemma StageOutcomeSuccess(out: string, i: nat, source: string, tools: Tools)
    ensures StageOutcome(out, i, source, tools) == Success <==>
              ClipRendered(source, tools) && tools.stage(i).StageDone?
              && tools.stage(i).visibleAfter < MaxRetries && StagedPath(out, i) != ""
              && tools.stage(i).size > 0 && tools.stage(i).probes
  {
  }

  /** Whether the first GPU probe, the encoder list and the test encode all pass. */
  function GpuAvailable(tools: Tools): bool {
    DetectGpuSupport(tools.gpu).hasGpu
  }

  /** The `output_args` of the final encode, after the downgrade. */
  function FinalArgs(req: Request, tools: Tools): map<string, string> {
    OutputArgs(EffectiveGpu(req.useGpu, GpuAvailable(tools)), GpuAvailable(tools), req.deviceId)
  }

  /** The `output_args` of each encode the job runs, in order: the final
      arguments, then their CPU copy when the NVENC or CUDA retry happens. */
  function EncodeRuns(req: Request, tools: Tools): (runs: seq<map<string, string>>)
    ensures |runs| == FinalEncode(req, tools).attempts
    ensures runs[0] == FinalArgs(req, tools)
    ensures |runs| == 2 ==> runs[1] == CpuArgs(runs[0])
  {
    if FinalEncode(req, tools).attempts == 2 then [FinalArgs(req, tools), CpuArgs(FinalArgs(req, tools))]
    else [FinalArgs(req, tools)]
  }

  /** How the final encode and its possible retry end. */
  function FinalEncode(req: Request, tools: Tools): EncodeResult {
    EncodeAttempts(EffectiveGpu(req.useGpu, GpuAvailable(tools)), GpuAvailable(tools),
                   ErrorOf(tools.encode), ErrorOf(tools.retry))
  }

  /** An ASS file as the job writes it: its style and events. Its text is
      `AssText`, which `Captions.BuildAssContent` builds. */
  datatype AssFile = AssFile(font: string, fontSize: int, strokeWidth: int, words: seq<WordTiming>, intro: real)

  function AssText(f: AssFile): string {
    AssDocument(f.font, f.fontSize, f.strokeWidth, f.words, f.intro)
  }

  /** The ASS file burnt into the video: one exists only for a non-empty transcript. */
  function SubtitlesFor(req: Request, words: Option<seq<WordTiming>>, intro: real): Option<AssFile> {
    if words.Some? && words.value != []
    then Some(AssFile(req.font, req.fontSize, req.strokeWidth, words.value, intro))
    else None
  }

  /** Every step up to the re-check of the staged clips succeeds, in the
      order the job takes them. */
  predicate Prepared(req: Request, tools: Tools) {
    && tools.introAudio.Some? && req.out != ""
    && tools.thumbnail && tools.introRender.Rendered?
    && tools.voiceProbe.Probed? && FirstOfKind(tools.voiceProbe.streams, {"audio"}) != 0.0
    && tools.mixRender.Rendered? && tools.mixProbe.Probed?
    && FirstOfKind(tools.mixProbe.streams, {"audio"}) != 0.0
    && (forall i :: 0 <= i < |req.backgrounds| ==> StageOutcome(req.out, i, req.backgrounds[i], tools) == Success)
  }

  /** Every step of the job succeeds: the preparation and the final encode
      (the subtitle file can always be written once the output path is not empty). */
  predicate Completes(req: Request, tools: Tools) {
    Prepared(req, tools) && FinalEncode(req, tools).Encoded?
  }

  /** What the outer `finally` leaves of the files after the outer `try`
      (`produced`): removing the staged clips and the intro files takes away
      everything the job added except the thumbnail and the output, and
      nothing that is not one of its temporary paths. */
  lemma CleanupFootprint(out: string, n: nat, m: nat, before: set<string>, produced: set<string>, ia: string, iv: string)
    requires m <= n && "" !in before
    requires ia == "" || ia == IntroAudioPath(out)
    requires iv == "" || iv == IntroVideoPath(out)
    requires produced <= before + {ia, iv, ThumbnailPath, out} + StagedSet(out, m)
    requires forall p :: p in before && p !in ScratchPaths(out, n) ==> p in produced
    ensures produced - StagedSet(out, m) - {ia, iv} <= before + {out, ThumbnailPath}
    ensures forall p :: p in before && p !in ScratchPaths(out, n) ==> p in produced - StagedSet(out, m) - {ia, iv}
  {
    StagedSetMono(out, m, n);
  }

  /** After a successful `try`, the outer `finally` leaves no temporary file
      but the thumbnail, and keeps the output exactly when its path contains
      ".mp4" (otherwise the output is the intro audio path and is removed). */
  lemma SuccessFootprint(out: string, n: nat, produced: set<string>)
    requires produced * ScratchPaths(out, n)
             <= StagedSet(out, n) + {IntroAudioPath(out), IntroVideoPath(out), out, ThumbnailPath}
    requires Contains(out, Mp4) ==> out in produced
    ensures (produced - StagedSet(out, n) - {IntroAudioPath(out), IntroVideoPath(out)}) * ScratchPaths(out, n)
            <= {ThumbnailPath}
    ensures out in produced - StagedSet(out, n) - {IntroAudioPath(out), IntroVideoPath(out)} <==> Contains(out, Mp4)
  {
    var after := produced - StagedSet(out, n) - {IntroAudioPath(out), IntroVideoPath(out)};
    if Contains(out, Mp4) {
      ScratchAvoidsOutput(out, n);
      forall p | p in after * ScratchPaths(out, n) ensures p == ThumbnailPath {
        assert p in produced * ScratchPaths(out, n);
        assert p in StagedSet(out, n) + {IntroAudioPath(out), IntroVideoPath(out), out, ThumbnailPath};
        assert p !in StagedSet(out, n) && p != IntroAudioPath(out) && p != IntroVideoPath(out);
        assert p != out;
      }
    } else {
      ScratchOfPlainOutput(out, n);
      TempPathOfPlainOutput(out, "_intro_audio.wav");
    }
  }

  /** The `for/else` poll: the file is looked for at most five times, with a
      one-second sleep after each miss; the `else` raises after the last miss. */
  method PollForFile(visibleAfter: nat) returns (found: bool, checks: nat, sleeps: nat)
    ensures found <==> visibleAfter < MaxRetries
    ensures 1 <= checks <= MaxRetries
    ensures checks == if found then visibleAfter + 1 else MaxRetries
    ensures sleeps == if found then visibleAfter else MaxRetries
  {
    found, checks, sleeps := false, 0, 0;
    var retry := 0;
    while retry < MaxRetries
      invariant 0 <= retry <= MaxRetries
      invariant retry <= visibleAfter
      invariant checks == retry && sleeps == retry
      decreases MaxRetries - retry
    {
      checks := checks + 1;
      if retry == visibleAfter {
        found := true;
        return;
      }
      sleeps := sleeps + 1;
      retry := retry + 1;
    }
  }

  // ---------------------------------------------------------------------
  // the job
  // ---------------------------------------------------------------------

  /** What is known when staging stops at clip i: the clips before it were
      registered, clip i failed, and no file outside the staged names was lost. */
  lemma StagingStopped(out: string, sources: seq<string>, tools: Tools, i: nat, st: Status,
                       temps: seq<string>, fs0: set<string>, fs: set<string>)
    requires i < |sources|
    requires temps == StagedPaths(out, i)
    requires forall j :: 0 <= j < i ==> StageOutcome(out, j, sources[j], tools) == Success
    requires st.Failure? && st == StageOutcome(out, i, sources[i], tools)
    requires fs0 + StagedSet(out, i) - {StagedPath(out, i)} <= fs <= fs0 + StagedSet(out, i)
    ensures |temps| < |sources| && temps == StagedPaths(out, |temps|)
    ensures !forall j :: 0 <= j < |sources| ==> StageOutcome(out, j, sources[j], tools) == Success
    ensures st == StageOutcome(out, |temps|, sources[|temps|], tools)
    ensures fs <= fs0 + StagedSet(out, |temps|)
    ensures forall p :: p in fs0 && p !in StagedSet(out, |sources|) ==> p in fs
  {
    StagedSetGrows(out, i, |sources|);
    StagedSetMono(out, i, |sources|);
  }

  /** The ASS file written before the encode is gone after it, whether or not
      it was written. */
  lemma AssFileRemoved(fs0: set<string>, fs1: set<string>, fs2: set<string>, out: string, ass: string, encoded: bool)
    requires fs1 == fs0 || fs1 == fs0 + {ass}
    requires fs1 - {ass} <= fs2 <= fs1 + {out} - {ass}
    requires encoded ==> fs2 == fs1 + ({out} - {""}) - {ass}
    ensures fs0 - {ass} <= fs2 <= fs0 + {out} - {ass}
    ensures encoded ==> fs2 == fs0 + ({out} - {""}) - {ass}
  {
  }

  class Job {
    /** The paths that exist. */
    var fs: set<string>
    /** `temp_looped_scaled_video_paths`: the registered staged clips. */
    var temps: seq<string>
    /** `temp_intro_audio_path` and `temp_intro_video_path`, "" until assigned. */
    var introAudioPath: string
    var introVideoPath: string
    /** The `t=` length of every staged-clip encode started, in order. */
    var clipLengths: seq<real>
    /** The ASS file handed to the subtitles filter, if any. */
    var subtitles: Option<AssFile>
    /** The arguments of each final-encode attempt, in order. */
    var encodes: seq<map<string, string>>

    /** The empty path never exists (`os.path.exists("")` is false). */
    predicate Valid()
      reads this
    {
      "" !in fs
    }

    constructor(files: set<string>)
      requires "" !in files
      ensures Valid() && fs == files
      ensures temps == [] && introAudioPath == "" && introVideoPath == ""
      ensures clipLengths == [] && subtitles == None && encodes == []
    {
      fs := files;
      temps := [];
      introAudioPath := "";
      introVideoPath := "";
      clipLengths := [];
      subtitles := None;
      encodes := [];
    }

    /** A tool writes the file at p; nothing is created at the empty path. */
    method Create(p: string)
      requires Valid()
      modifies this
      ensures Valid()
      ensures fs == old(fs) + ({p} - {""})
      ensures temps == old(temps) && introAudioPath == old(introAudioPath) && introVideoPath == old(introVideoPath)
      ensures clipLengths == old(clipLengths) && subtitles == old(subtitles) && encodes == old(encodes)
    {
      if p != "" {
        fs := fs + {p};
      }
    }

    /** `if os.path.exists(p): os.remove(p)`. */
    method RemoveIfExists(p: string)
      requires Valid()
      modifies this
      ensures Valid()
      ensures fs == old(fs) - {p}
      ensures temps == old(temps) && introAudioPath == old(introAudioPath) && introVideoPath == old(introVideoPath)
      ensures clipLengths == old(clipLengths) && subtitles == old(subtitles) && encodes == old(encodes)
    {
      if p in fs {
        fs := fs - {p};
      }
    }

    /** Lines 186-222: the intro speech written as WAV, the thumbnail, and the
        intro video; the result is the intro duration. The paths are recorded
        before the writes, so the outer cleanup sees a partial intro too. */
    method IntroStep(out: string, tools: Tools) returns (r: Result<real, Fault>)
      requires Valid()
      modifies this
      ensures Valid()
      ensures introAudioPath == (if tools.introAudio.None? then old(introAudioPath) else IntroAudioPath(out))
      ensures introVideoPath == old(introVideoPath) || introVideoPath == IntroVideoPath(out)
      ensures old(fs) <= fs <= old(fs) + {introAudioPath, introVideoPath, ThumbnailPath}
      ensures tools.introAudio.None? ==> r == Err(AudioFailed) && fs == old(fs) && introVideoPath == old(introVideoPath)
      ensures r.Ok? <==> tools.introAudio.Some? && IntroAudioPath(out) != ""
                         && tools.thumbnail && tools.introRender.Rendered?
      ensures r.Ok? ==> r.value == tools.introAudio.value && introVideoPath == IntroVideoPath(out)
                        && introAudioPath in fs && ThumbnailPath in fs
      ensures r.Err? && tools.introRender.RenderError? && r.error.FfmpegFailed? ==>
                r.error.stderr == tools.introRender.stderr
      ensures temps == old(temps) && clipLengths == old(clipLengths)
      ensures subtitles == old(subtitles) && encodes == old(encodes)
    {
      if tools.introAudio.None? {
        return Err(AudioFailed);
      }
      var duration := tools.introAudio.value;
      introAudioPath := IntroAudioPath(out);
      if introAudioPath == "" {
        return Err(WriteFailed(introAudioPath));
      }
      fs := fs + {introAudioPath};
      if !tools.thumbnail {
        return Err(ThumbnailFailed);
      }
      fs := fs + {ThumbnailPath};
      introVideoPath := IntroVideoPath(out);
      match tools.introRender {
        case RenderError(e, leaves) =>
          if leaves {
            Create(introVideoPath);
          }
          return Err(FfmpegFailed(e));
        case Rendered =>
          Create(introVideoPath);
          return Ok(duration);
      }
    }

    /** Lines 229-240: the narration's first audio stream duration, slowed by
        the speed factor; a zero duration is a ValueError. */
    method VoiceStep(tools: Tools) returns (r: Result<real, Fault>)
      ensures tools.voiceProbe.ProbeError? ==> r == Err(FfmpegFailed(tools.voiceProbe.stderr))
      ensures tools.voiceProbe.Probed? && FirstOfKind(tools.voiceProbe.streams, {"audio"}) == 0.0 ==>
                r == Err(NoAudioDuration)
      ensures r.Ok? <==> tools.voiceProbe.Probed? && FirstOfKind(tools.voiceProbe.streams, {"audio"}) != 0.0
      ensures r.Ok? ==> r.value * SpeedFactor == FirstOfKind(tools.voiceProbe.streams, {"audio"})
    {
      match tools.voiceProbe {
        case ProbeError(e) =>
          return Err(FfmpegFailed(e));
        case Probed(streams) =>
          var d := FirstStreamDuration(streams, {"audio"});
          if d == 0.0 {
            return Err(NoAudioDuration);
          }
          return Ok(d / SpeedFactor);
      }
    }

    /** Lines 281-295: the mix is written to a file only to be measured, and
        that file is removed in its own `finally` whatever happens. */
    method MixStep(out: string, tools: Tools) returns (r: Result<real, Fault>)
      requires Valid()
      modifies this
      ensures Valid()
      ensures fs == old(fs) - {MixedAudioPath(out)}
      ensures r.Ok? <==> tools.mixRender.Rendered? && tools.mixProbe.Probed?
                         && FirstOfKind(tools.mixProbe.streams, {"audio"}) != 0.0
      ensures r.Ok? ==> r.value == FirstOfKind(tools.mixProbe.streams, {"audio"})
      ensures tools.mixRender.RenderError? ==> r == Err(FfmpegFailed(tools.mixRender.stderr))
      ensures (tools.mixRender.Rendered? && tools.mixProbe.Probed?
               && FirstOfKind(tools.mixProbe.streams, {"audio"}) == 0.0) ==> r == Err(NoMixedDuration)
      ensures temps == old(temps) && introAudioPath == old(introAudioPath) && introVideoPath == old(introVideoPath)
      ensures clipLengths == old(clipLengths) && subtitles == old(subtitles) && encodes == old(encodes)
    {
      var path := MixedAudioPath(out);
      match tools.mixRender {
        case RenderError(e, leaves) =>
          if leaves {
            Create(path);
          }
          r := Err(FfmpegFailed(e));
        case Rendered =>
          Create(path);
          match tools.mixProbe {
            case ProbeError(e) =>
              r := Err(FfmpegFailed(e));
            case Probed(streams) =>
              var d := FirstStreamDuration(streams, {"audio"});
              r := if d == 0.0 then Err(NoMixedDuration) else Ok(d);
          }
      }
      RemoveIfExists(path);
    }

    /** Lines 305-372 for clip i, with the failure paths removing the staged
        file (see StageClipAsWritten for the statements as they stand): the
        clip is probed, rendered with length `min(60, mixed + 5)`, polled for,
        and registered only after the size and probe checks pass. */
    method StageClip(out: string, i: nat, source: string, mixed: real, tools: Tools) returns (st: Status)
      requires Valid()
      modifies this
      ensures Valid()
      ensures st == StageOutcome(out, i, source, tools)
      ensures st.Success? ==> temps == old(temps) + [StagedPath(out, i)] && fs == old(fs) + {StagedPath(out, i)}
      ensures st.Failure? ==> temps == old(temps) && old(fs) - {StagedPath(out, i)} <= fs <= old(fs)
      ensures !ClipRendered(source, tools) ==> fs == old(fs) && clipLengths == old(clipLengths)
      ensures ClipRendered(source, tools) ==> clipLengths == old(clipLengths) + [TempLength(mixed)]
      ensures introAudioPath == old(introAudioPath) && introVideoPath == old(introVideoPath)
      ensures subtitles == old(subtitles) && encodes == old(encodes)
    {
      match tools.clipProbe(source) {
        case ProbeError(e) =>
          return Failure(FfmpegFailed(e));
        case Probed(streams) =>
          if !HasVideoStream(streams) {
            return Failure(NoVideoStream(source));
          }
      }
      var path := StagedPath(out, i);
      clipLengths := clipLengths + [TempLength(mixed)];
      match tools.stage(i) {
        case StageFailed(e, leaves) =>
          if leaves {
            Create(path);
          }
          RemoveIfExists(path);
          return Failure(FfmpegFailed(e));
        case StageDone(visibleAfter, size, probes) =>
          // a path that cannot exist is never seen by the poll
          var found, checks, sleeps := PollForFile(if path == "" then MaxRetries else visibleAfter);
          if !found {
            return Failure(TempNotCreated(path));
          }
          Create(path);
          if size == 0 {
            RemoveIfExists(path);
            return Failure(TempEmpty(path));
          }
          if !probes {
            RemoveIfExists(path);
            return Failure(TempInvalid(path));
          }
          temps := temps + [path];
          return Success;
      }
    }

    /** Lines 305-372 for clip i as they stand: a file that was written but
        fails a check, or that a failed encode left behind, is never
        registered, so the outer cleanup does not remove it. */
    method StageClipAsWritten(out: string, i: nat, source: string, mixed: real, tools: Tools) returns (st: Status)
      requires Valid()
      modifies this
      ensures Valid()
      ensures st == StageOutcome(out, i, source, tools)
      ensures st.Success? ==> temps == old(temps) + [StagedPath(out, i)] && fs == old(fs) + {StagedPath(out, i)}
      ensures st.Failure? ==> temps == old(temps) && old(fs) <= fs <= old(fs) + {StagedPath(out, i)}
      ensures ClipRendered(source, tools) && tools.stage(i).StageDone?
              && tools.stage(i).visibleAfter < MaxRetries && StagedPath(out, i) != ""
              && (tools.stage(i).size == 0 || !tools.stage(i).probes) ==>
                st.Failure? && StagedPath(out, i) in fs && temps == old(temps)
      ensures ClipRendered(source, tools) && tools.stage(i).StageFailed? && tools.stage(i).leavesFile
              && StagedPath(out, i) != "" ==>
                st.Failure? && StagedPath(out, i) in fs && temps == old(temps)
      ensures introAudioPath == old(introAudioPath) && introVideoPath == old(introVideoPath)
      ensures subtitles == old(subtitles) && encodes == old(encodes)
    {
      match tools.clipProbe(source) {
        case ProbeError(e) =>
          return Failure(FfmpegFailed(e));
        case Probed(streams) =>
          if !HasVideoStream(streams) {
            return Failure(NoVideoStream(source));
          }
      }
      var path := StagedPath(out, i);
      clipLengths := clipLengths + [TempLength(mixed)];
      match tools.stage(i) {
        case StageFailed(e, leaves) =>
          if leaves {
            Create(path);
          }
          return Failure(FfmpegFailed(e));
        case StageDone(visibleAfter, size, probes) =>
          var found, checks, sleeps := PollForFile(if path == "" then MaxRetries else visibleAfter);
          if !found {
            return Failure(TempNotCreated(path));
          }
          Create(path);
          if size == 0 {
            return Failure(TempEmpty(path));
          }
          if !probes {
            return Failure(TempInvalid(path));
          }
          temps := temps + [path];
          return Success;
      }
    }

    /** The loop `for i, video_path in enumerate(background_video_paths)`,
        which starts with no registered clip: clips are staged in order and
        the first failure stops the job. */
    method StageClips(out: string, sources: seq<string>, mixed: real, tools: Tools) returns (st: Status)
      requires Valid() && temps == [] && clipLengths == []
      modifies this
      ensures Valid()
      ensures |temps| <= |sources| && temps == StagedPaths(out, |temps|)
      ensures st.Success? <==> |temps| == |sources|
      ensures st.Success? <==> forall i :: 0 <= i < |sources| ==> StageOutcome(out, i, sources[i], tools) == Success
      ensures st.Failure? ==> st == StageOutcome(out, |temps|, sources[|temps|], tools)
      ensures fs <= old(fs) + StagedSet(out, |temps|)
      ensures forall p :: p in old(fs) && p !in StagedSet(out, |sources|) ==> p in fs
      ensures st.Success? ==> fs == old(fs) + StagedSet(out, |sources|)
      ensures forall k :: 0 <= k < |clipLengths| ==> clipLengths[k] == TempLength(mixed)
      ensures st.Success? ==> |clipLengths| == |sources|
      ensures introAudioPath == old(introAudioPath) && introVideoPath == old(introVideoPath)
      ensures subtitles == old(subtitles) && encodes == old(encodes)
    {
      var i := 0;
      st := Success;
      while i < |sources|
        invariant Valid()
        invariant 0 <= i <= |sources|
        invariant temps == StagedPaths(out, i)
        invariant forall j :: 0 <= j < i ==> StageOutcome(out, j, sources[j], tools) == Success
        invariant fs == old(fs) + StagedSet(out, i)
        invariant st == Success
        invariant |clipLengths| == i
        invariant forall k :: 0 <= k < |clipLengths| ==> clipLengths[k] == TempLength(mixed)
        invariant introAudioPath == old(introAudioPath) && introVideoPath == old(introVideoPath)
        invariant subtitles == old(subtitles) && encodes == old(encodes)
      {
        st := StageNext(out, i, sources[i], mixed, tools, old(fs));
        if st.Failure? {
          StagingStopped(out, sources, tools, i, st, temps, old(fs), fs);
          return;
        }
        i := i + 1;
      }
      assert |temps| == |sources|;
    }

    /** One turn of the staging loop: clip i is staged after clips 0 .. i-1,
        so on success the registered names run on to clip i. */
    method StageNext(out: string, i: nat, source: string, mixed: real, tools: Tools, ghost fs0: set<string>)
      returns (st: Status)
      requires Valid() && temps == StagedPaths(out, i) && fs == fs0 + StagedSet(out, i)
      modifies this
      ensures Valid()
      ensures st == StageOutcome(out, i, source, tools)
      ensures st.Success? ==> temps == StagedPaths(out, i + 1) && fs == fs0 + StagedSet(out, i + 1)
      ensures st.Success? ==> clipLengths == old(clipLengths) + [TempLength(mixed)]
      ensures st.Failure? ==> temps == StagedPaths(out, i)
      ensures st.Failure? ==> fs0 + StagedSet(out, i) - {StagedPath(out, i)} <= fs <= fs0 + StagedSet(out, i)
      ensures clipLengths == old(clipLengths) || clipLengths == old(clipLengths) + [TempLength(mixed)]
      ensures introAudioPath == old(introAudioPath) && introVideoPath == old(introVideoPath)
      ensures subtitles == old(subtitles) && encodes == old(encodes)
    {
      st := StageClip(out, i, source, mixed, tools);
      StagedSetGrows(out, i, i + 1);
      StagedPathsSnoc(out, i);
    }

    /** Lines 376-383: the registered clips are looked for again before the
        concatenation. */
    method CheckStaged() returns (ok: bool)
      ensures ok <==> forall p :: p in temps ==> p in fs
    {
      var k := 0;
      while k < |temps|
        invariant 0 <= k <= |temps|
        invariant forall j :: 0 <= j < k ==> temps[j] in fs
      {
        if temps[k] !in fs {
          return false;
        }
        k := k + 1;
      }
      return true;
    }

    /** Lines 420-477 before the encode: with a non-empty transcript the ASS
        document is written to the `.ass` path, which the subtitles filter then
        reads; with an empty or missing one nothing is written. The text itself
        is built by `Captions.BuildAssContent`. The `[Fonts]` branch is dead,
        since `font_base64` is always empty. */
    method CaptionStep(req: Request, words: Option<seq<WordTiming>>, intro: real) returns (st: Status)
      requires Valid()
      modifies this
      ensures Valid()
      ensures SubtitlesFor(req, words, intro).None? ==> st == Success && fs == old(fs) && subtitles == None
      ensures SubtitlesFor(req, words, intro).Some? ==> (st.Success? <==> AssPath(req.out) != "")
      ensures st.Success? ==> subtitles == SubtitlesFor(req, words, intro)
      ensures st.Success? && subtitles.Some? ==> fs == old(fs) + {AssPath(req.out)}
      ensures st.Failure? ==> st == Failure(WriteFailed("")) && fs == old(fs)
      ensures temps == old(temps) && introAudioPath == old(introAudioPath) && introVideoPath == old(introVideoPath)
      ensures clipLengths == old(clipLengths) && encodes == old(encodes)
    {
      if words.Some? && words.value != [] {
        var path := AssPath(req.out);
        if path == "" {
          return Failure(WriteFailed(path));
        }
        fs := fs + {path};
        subtitles := Some(AssFile(req.font, req.fontSize, req.strokeWidth, words.value, intro));
      } else {
        subtitles := None;
      }
      return Success;
    }

    /** Lines 482-574: GPU detection, the downgrade, `output_args`, then the
        runs of EncodeWith. */
    method EncodeStep(req: Request, tools: Tools) returns (st: Status)
      requires Valid()
      modifies this
      ensures Valid()
      ensures encodes == old(encodes) + EncodeRuns(req, tools)
      ensures st.Success? <==> FinalEncode(req, tools).Encoded?
      ensures st.Failure? ==> st.fault == FfmpegFailed(FinalEncode(req, tools).stderr)
      ensures st.Success? ==> fs == old(fs) + ({req.out} - {""}) - {AssPath(req.out)}
      ensures old(fs) - {AssPath(req.out)} <= fs <= old(fs) + {req.out} - {AssPath(req.out)}
      ensures temps == old(temps) && introAudioPath == old(introAudioPath) && introVideoPath == old(introVideoPath)
      ensures clipLengths == old(clipLengths) && subtitles == old(subtitles)
    {
      var support := DetectGpuSupport(tools.gpu);
      var gpuAvailable := support.hasGpu;
      var useGpu := EffectiveGpu(req.useGpu, gpuAvailable);
      var args := BuildOutputArgs(useGpu, gpuAvailable, req.deviceId);
      st := EncodeWith(req.out, AssPath(req.out), args, useGpu, gpuAvailable, tools.encode, tools.retry);
    }

    /** Lines 520-574: the encode with `args`; on an NVENC or CUDA error while
        the GPU is in use, one more encode with the CPU copy of the arguments;
        any other failure is re-raised. The ASS file is removed in `finally`. */
    method EncodeWith(out: string, assPath: string, args: map<string, string>, useGpu: bool, gpuAvailable: bool,
                      first: Render, retry: Render) returns (st: Status)
      requires Valid()
      modifies this
      ensures Valid()
      ensures encodes == old(encodes) + (if EncodeAttempts(useGpu, gpuAvailable, ErrorOf(first), ErrorOf(retry)).attempts == 2
                                         then [args, CpuArgs(args)] else [args])
      ensures st.Success? <==> EncodeAttempts(useGpu, gpuAvailable, ErrorOf(first), ErrorOf(retry)).Encoded?
      ensures st.Failure? ==> st.fault == FfmpegFailed(EncodeAttempts(useGpu, gpuAvailable, ErrorOf(first), ErrorOf(retry)).stderr)
      ensures st.Success? ==> fs == old(fs) + ({out} - {""}) - {assPath}
      ensures old(fs) - {assPath} <= fs <= old(fs) + {out} - {assPath}
      ensures temps == old(temps) && introAudioPath == old(introAudioPath) && introVideoPath == old(introVideoPath)
      ensures clipLengths == old(clipLengths) && subtitles == old(subtitles)
    {
      encodes := encodes + [args];
      match first {
        case Rendered =>
          Create(out);
          st := Success;
        case RenderError(e, leaves) =>
          if leaves {
            Create(out);
          }
          if ShouldRetry(useGpu, gpuAvailable, e) {
            var cpu := BuildCpuArgs(args);
            encodes := encodes + [cpu];
            match retry {
              case Rendered =>
                Create(out);
                st := Success;
              case RenderError(e2, leaves2) =>
                if leaves2 {
                  Create(out);
                }
                st := Failure(FfmpegFailed(e2));
            }
          } else {
            st := Failure(FfmpegFailed(e));
          }
      }
      RemoveIfExists(assPath);
    }

    /** The outer `finally` (lines 576-586): every registered clip, then the
        intro audio and the intro video, each removed if it exists. */
    method CleanupOuter()
      requires Valid()
      modifies this
      ensures Valid()
      ensures fs == old(fs) - (set p | p in temps) - {introAudioPath, introVideoPath}
      ensures temps == old(temps) && introAudioPath == old(introAudioPath) && introVideoPath == old(introVideoPath)
      ensures clipLengths == old(clipLengths) && subtitles == old(subtitles) && encodes == old(encodes)
    {
      var k := 0;
      while k < |temps|
        invariant Valid()
        invariant 0 <= k <= |temps|
        invariant fs == old(fs) - (set p | p in temps[..k])
        invariant temps == old(temps) && introAudioPath == old(introAudioPath) && introVideoPath == old(introVideoPath)
        invariant clipLengths == old(clipLengths) && subtitles == old(subtitles) && encodes == old(encodes)
      {
        assert temps[..k + 1] == temps[..k] + [temps[k]];
        RemoveIfExists(temps[k]);
        k := k + 1;
      }
      assert temps[..k] == temps;
      RemoveIfExists(introAudioPath);
      RemoveIfExists(introVideoPath);
    }

    /** Lines 179-383 of the outer `try`: intro, narration, mix, staged clips
        and their re-check; on success the result carries the intro duration. */
    method Prepare(req: Request, tools: Tools) returns (st: Status, intro: real)
      requires Valid()
      requires temps == [] && introAudioPath == "" && introVideoPath == "" && clipLengths == []
      modifies this
      ensures Valid()
      ensures introAudioPath == "" || introAudioPath == IntroAudioPath(req.out)
      ensures introVideoPath == "" || introVideoPath == IntroVideoPath(req.out)
      ensures |temps| <= |req.backgrounds| && temps == StagedPaths(req.out, |temps|)
      ensures fs <= old(fs) + {introAudioPath, introVideoPath, ThumbnailPath} + StagedSet(req.out, |temps|)
      ensures forall p :: p in old(fs) && p !in ScratchPaths(req.out, |req.backgrounds|) ==> p in fs
      ensures tools.introAudio.None? ==> st == Failure(AudioFailed) && fs == old(fs)
      ensures tools.introAudio.None? ==> temps == [] && introAudioPath == "" && introVideoPath == ""
      ensures st.Success? <==> Prepared(req, tools)
      ensures st.Success? ==> intro == tools.introAudio.value
      ensures st.Success? ==> introAudioPath == IntroAudioPath(req.out) && introVideoPath == IntroVideoPath(req.out)
      ensures st.Success? ==> |temps| == |req.backgrounds| && |clipLengths| == |req.backgrounds|
      ensures st.Success? ==> fs <= old(fs) - {MixedAudioPath(req.out)} + {introAudioPath, introVideoPath, ThumbnailPath}
                                    + StagedSet(req.out, |temps|)
      ensures clipLengths != [] ==> tools.mixProbe.Probed?
      ensures clipLengths != [] ==> forall k :: 0 <= k < |clipLengths| ==>
                clipLengths[k] == TempLength(FirstOfKind(tools.mixProbe.streams, {"audio"}))
      ensures subtitles == old(subtitles) && encodes == old(encodes)
    {
      ReplaceEmpty(req.out, Mp4, "_intro_audio.wav");
      intro := 0.0;
      var introStep := IntroStep(req.out, tools);
      if introStep.Err? {
        return Failure(introStep.error), intro;
      }
      intro := introStep.value;
      var voice := VoiceStep(tools);
      if voice.Err? {
        return Failure(voice.error), intro;
      }
      var mixed := MixStep(req.out, tools);
      if mixed.Err? {
        return Failure(mixed.error), intro;
      }
      st := StageClips(req.out, req.backgrounds, mixed.value, tools);
      if st.Failure? {
        return;
      }
      forall p | p in temps ensures p in fs {
        var k :| 0 <= k < |temps| && temps[k] == p;
        assert p in StagedSet(req.out, |temps|);
      }
      var ok := CheckStaged();
      assert ok;  // the FileNotFoundError of the re-check is never raised
    }

    /** Lines 420-574 of the outer `try`: the transcript, the ASS file when
        there are words, and the final encode; the ASS file is gone afterwards. */
    method Finish(req: Request, tools: Tools, intro: real) returns (st: Status)
      requires Valid() && encodes == []
      modifies this
      ensures Valid()
      ensures st.Success? <==> (SubtitlesFor(req, Transcript(tools.recognition), intro).None? || req.out != "")
                               && FinalEncode(req, tools).Encoded?
      ensures old(fs) - {AssPath(req.out)} <= fs <= old(fs) + {req.out} - {AssPath(req.out)}
      ensures st.Success? ==> fs == old(fs) + ({req.out} - {""}) - {AssPath(req.out)}
      ensures st.Success? ==> subtitles == SubtitlesFor(req, Transcript(tools.recognition), intro)
      ensures encodes == [] || encodes == EncodeRuns(req, tools)
      ensures st.Success? ==> encodes == EncodeRuns(req, tools)
      ensures temps == old(temps) && introAudioPath == old(introAudioPath) && introVideoPath == old(introVideoPath)
      ensures clipLengths == old(clipLengths)
    {
      ReplaceEmpty(req.out, Mp4, ".ass");
      var words := GetWordTimestamps(tools.recognition);
      ghost var fs0 := fs;
      st := CaptionStep(req, words, intro);
      if st.Failure? {
        return;
      }
      ghost var fs1 := fs;
      st := EncodeStep(req, tools);
      AssFileRemoved(fs0, fs1, fs, req.out, AssPath(req.out), st.Success?);
    }

    /** The outer `try` block (lines 179-574): the steps in order, the first
        failure ending the job. */
    method Produce(req: Request, tools: Tools) returns (st: Status)
      requires Valid()
      requires temps == [] && introAudioPath == "" && introVideoPath == ""
      requires clipLengths == [] && subtitles == None && encodes == []
      modifies this
      ensures Valid()
      ensures introAudioPath == "" || introAudioPath == IntroAudioPath(req.out)
      ensures introVideoPath == "" || introVideoPath == IntroVideoPath(req.out)
      ensures |temps| <= |req.backgrounds| && temps == StagedPaths(req.out, |temps|)
      ensures fs <= old(fs) + {introAudioPath, introVideoPath, ThumbnailPath, req.out} + StagedSet(req.out, |temps|)
      ensures forall p :: p in old(fs) && p !in ScratchPaths(req.out, |req.backgrounds|) ==> p in fs
      ensures tools.introAudio.None? ==> st == Failure(AudioFailed) && fs == old(fs)
      ensures tools.introAudio.None? ==> temps == [] && introAudioPath == "" && introVideoPath == ""
      ensures st.Success? <==> Completes(req, tools)
      ensures st.Success? ==> introAudioPath == IntroAudioPath(req.out) && introVideoPath == IntroVideoPath(req.out)
      ensures st.Success? ==> fs * ScratchPaths(req.out, |req.backgrounds|)
                              <= StagedSet(req.out, |temps|) + {introAudioPath, introVideoPath, req.out, ThumbnailPath}
      ensures st.Success? && Contains(req.out, Mp4) ==> req.out in fs
      ensures st.Success? ==> subtitles == SubtitlesFor(req, Transcript(tools.recognition), tools.introAudio.value)
      ensures st.Success? ==> |temps| == |req.backgrounds| && |clipLengths| == |req.backgrounds|
      ensures clipLengths != [] ==> tools.mixProbe.Probed?
      ensures clipLengths != [] ==> forall k :: 0 <= k < |clipLengths| ==>
                clipLengths[k] == TempLength(FirstOfKind(tools.mixProbe.streams, {"audio"}))
      ensures encodes == [] || encodes == EncodeRuns(req, tools)
      ensures st.Success? ==> encodes == EncodeRuns(req, tools)
    {
      var intro;
      st, intro := Prepare(req, tools);
      if st.Failure? {
        return;
      }
      st := Finish(req, tools, intro);
      if st.Success? && Contains(req.out, Mp4) {
        ScratchAvoidsOutput(req.out, |req.backgrounds|);
      }
    }

    /** The local variables `create_video` initialises before its `try`. */
    method Reset()
      requires Valid()
      modifies this
      ensures Valid() && fs == old(fs)
      ensures temps == [] && introAudioPath == "" && introVideoPath == ""
      ensures clipLengths == [] && subtitles == None && encodes == []
    {
      temps := [];
      introAudioPath := "";
      introVideoPath := "";
      clipLengths := [];
      subtitles := None;
      encodes := [];
    }

    /** `create_video`: the outer `try` and its `finally`. The job leaves
        behind at most the output and the thumbnail, keeps every file that is
        not one of its temporary paths, and after a success none of its
        temporary files; an output path without ".mp4" is its own intro audio
        path, so a successful job deletes its own output. */
    method Run(req: Request, tools: Tools) returns (st: Status)
      requires Valid()
      modifies this
      ensures Valid()
      ensures fs <= old(fs) + {req.out, ThumbnailPath}
      ensures forall p :: p in old(fs) && p !in ScratchPaths(req.out, |req.backgrounds|) ==> p in fs
      ensures tools.introAudio.None? ==> st == Failure(AudioFailed) && fs == old(fs)
      ensures st.Success? <==> Completes(req, tools)
      ensures st.Success? ==> fs * ScratchPaths(req.out, |req.backgrounds|) <= {ThumbnailPath}
      ensures st.Success? ==> (req.out in fs <==> Contains(req.out, Mp4))
      ensures st.Success? ==> temps == StagedPaths(req.out, |req.backgrounds|)
      ensures st.Success? ==> subtitles == SubtitlesFor(req, Transcript(tools.recognition), tools.introAudio.value)
      ensures st.Success? ==> |clipLengths| == |req.backgrounds|
      ensures clipLengths != [] ==> tools.mixProbe.Probed?
      ensures clipLengths != [] ==> forall k :: 0 <= k < |clipLengths| ==>
                clipLengths[k] == TempLength(FirstOfKind(tools.mixProbe.streams, {"audio"}))
      ensures encodes == [] || encodes == EncodeRuns(req, tools)
      ensures st.Success? ==> encodes == EncodeRuns(req, tools)
    {
      Reset();
      ghost var before := fs;
      st := Produce(req, tools);
      ghost var produced := fs;
      CleanupOuter();
      StagedPathsSet(req.out, |temps|);
      assert fs == produced - StagedSet(req.out, |temps|) - {introAudioPath, introVideoPath};
      CleanupFootprint(req.out, |req.backgrounds|, |temps|, before, produced, introAudioPath, introVideoPath);
      if st.Success? {
        SuccessFootprint(req.out, |req.backgrounds|, produced);
      }
    }
  }
}
