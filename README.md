# zakotu in Dafny

zakotu is a short-video generator. It writes a story with Gemini, narrates it
with Kokoro, transcribes the narration with Vosk, and adds Telegram
notifications and Pollinations images. Its core assembles everything with
ffmpeg: an intro, looped background clips, mixed audio and word-by-word ASS
captions. Around the foreign tools sit a number of small deterministic rules.
This project models those rules and proves what they promise.

The modules follow the program's files:

- `Outcomes`: Option and Result.
- `PyStr`: the Python `str` operations the code relies on: `strip`,
  `split`, `splitlines`, `join`, `replace`, `lower`, `count`, `str(int)`
  and `int(str)`.
- `Media`: ffprobe stream lists.
- `Captions` and `Encoder`: the pure parts of `src/video_generator.py`.
  - `Captions` covers the caption time shift, the `H:MM:SS.cc` format and
    the ASS document.
  - `Encoder` covers the GPU gate, the output arguments and the single CPU
    retry.
- `VideoJob`: the imperative part of `create_video`, as a `Job` class.
  - Its state is an abstract file system (the set of existing paths), the
    list of registered temporary clips, the two intro paths, the staged clip
    lengths, the subtitle file written and the encode attempts made.
  - ffmpeg and ffprobe are oracle outcomes in a `Tools` value.
- `Pipeline`: `src/main.py`'s duration probe, intro strip, background-clip
  selection, early exits, the exceptions that escape the story, intro and
  voice generators, and the GPU decision.
- `Voice`: `src/voice_generator.py`'s narration-text cleaner and sample
  aggregation.
- `Story`: `src/story_generator.py`'s 20-word intro limit, quota classifier
  and fallbacks.
- `Thumbnail`: `format_number` and the settings of
  `generate_image_from_text`.
- `Telegram`: `src/utils/telegram_notifier.py`'s escaping, message layout,
  configuration checks and IP formatting.
- `Pollinations`: `clean_filename`, the HTTP retry loop and the prompt loop.
- `GenShort`: `src/gen_short.py`'s fallback prompt, image filtering and
  clip/overlay/animation plan.
- `Transcriber`: the WAV gate and result flattening of `get_word_timestamps`.

Times and durations are `real`. Randomness (`random.choice`, `shuffle`,
`randint`), clocks and every tool call are parameters. Sleeps are counted.

## Model

| member | source | states |
|---|---|---|
| Media.FirstOfKind | src/main.py:18-24 | the duration of the first stream whose codec type is in the set; 0.0 when no stream matches |
| Media.FirstStreamDuration | src/main.py:18-24 | the loop with its early return computes exactly FirstOfKind |
| Pipeline.MediaDurationSpec | src/main.py:13-26 | a failed probe gives 0.0; no audio or video stream gives 0.0; otherwise the first such stream's duration |
| Pipeline.GetMediaDuration | src/main.py:13-26 | the method computes the probe-duration specification |
| Pipeline.VoiceText | src/main.py:88-97 | without the intro prefix the story is kept; otherwise the stripped remainder, or the whole story when the remainder is empty; never empty for a non-empty story |
| Pipeline.VoiceTextOfComposed | src/main.py:88-97 | an intro, then whitespace, then a stripped body yields exactly the body |
| Pipeline.VoiceTextOfIntroOnly | src/main.py:94-97 | an intro followed only by whitespace falls back to the full story |
| Pipeline.TotalSnoc | src/main.py:145-147 | the running duration of a selection grows by the probed duration of the clip appended |
| Pipeline.Usable | src/main.py:143-145 | the clips considered all have a positive probed duration |
| Pipeline.Selection | src/main.py:141-151 | the selection loop from a running total: usable clips are taken in shuffled order until the total reaches the target; SelectionPrefix, SelectionBelowTarget, SelectionCovers and SelectionEmpty prove what it picks |
| Pipeline.SelectionPrefix | src/main.py:140-151 | the selection is a prefix of the usable clips in shuffled order |
| Pipeline.SelectionBelowTarget | src/main.py:148-151 | every proper prefix of the selection sums below the target |
| Pipeline.SelectionCovers | src/main.py:141-151 | the selection reaches the target or takes every usable clip |
| Pipeline.SelectionEmpty | src/main.py:153-156 | nothing is selected exactly when no clip has a positive duration |
| Pipeline.SelectionSpec | src/main.py:140-156 | the selection facts together: usable prefix, empty only without usable clips, reaches the target unless all are taken, proper prefixes below the target |
| Pipeline.SelectBackgroundVideos | src/main.py:140-151 | the greedy loop returns the specified selection and its total duration |
| Pipeline.Plan | src/main.py:34-196 | main's decisions in source order: each early return, the exception that escapes generate_story, generate_intro_text or generate_voice, or else the create_video call with the generated story and intro as story_text and intro_text, the chosen music and the request, together with the text that was given to generate_voice; RunMain computes it and PlanRequestsVideo says when a video is requested |
| Pipeline.EffectiveVoiceDuration | src/main.py:112-114 | the effective duration times 1.6 is the original; for a positive original it is positive and smaller |
| Pipeline.RunMain | src/main.py:34-196 | main's steps, calling the story, intro and voice generators, end where Plan says; no API key ends first; a requested video always has clips and a music file from the list |
| Pipeline.PlanRequestsVideo | src/main.py:34-169 | create_video is called exactly when every early check passes, neither text generator meets a non-quota error, the voice is known and some sentence is synthesized, and some clip is usable; its clips then satisfy the selection facts |
| Pipeline.StoryRaisedStops | src/main.py:60 | past the prompt checks, a non-quota error of generate_story ends main with that RuntimeError |
| Pipeline.IntroRaisedStops | src/main.py:66 | after a story was returned, a non-quota error of generate_intro_text ends main with that RuntimeError |
| Pipeline.VoiceRaisedStops | src/main.py:99 | after both texts were generated, generate_voice ends main exactly when the voice is unknown or no sentence was synthesized |
| Pipeline.VideoGetsGeneratedTexts | src/main.py:88-189 | a requested video gets the story and intro exactly as generate_story and generate_intro_text returned them; the stripped text (the story without its intro prefix, or the whole story) is the one recorded as voiced |
| Pipeline.RequestFromMain | src/main.py:165-196 | the request uses the main output file, device 0, the default caption style, and the GPU exactly when detect_gpu_support found one; on the same probe results the job's own GPU check keeps that choice (create_video probes again, and its probes are separate inputs of the job) |
| Pipeline.UseGpu | src/main.py:165-168 | the GPU is requested exactly when detect_gpu_support found a GPU and a working encoder; RequestFromMain carries this into the job's request |
| Pipeline.OutputVideoFileIsMp4 | src/main.py:117-119 | main's output path contains ".mp4", so the temporary names differ from it |
| Captions.ShiftMonotone | src/video_generator.py:452-454 | for speed 0.9 the caption shift preserves and reflects both the order and the strict order of times |
| Captions.ShiftInverse | src/video_generator.py:239-262 | the shift is t / 0.9 + intro + 1.0 s of silence: undoing the pause and intro and multiplying by the speed gives t back |
| Captions.ShiftExample | src/video_generator.py:452-454 | a word at 4.5 s after a 3 s intro is shown at 9 s |
| Captions.Hours | src/video_generator.py:458 | the hour field is the whole number of hours: h hours are at most t and h + 1 hours exceed it |
| Captions.Minutes | src/video_generator.py:458 | the minute field is below 60 |
| Captions.Seconds | src/video_generator.py:458 | the second field is below 60 |
| Captions.Centis | src/video_generator.py:458 | the centisecond field is below 100 |
| Captions.FieldsExact | src/video_generator.py:458-459 | 3600 H + 60 M + S is the floor of t, the centiseconds complete the floor of 100 t, and the stamp is at most t and within 0.01 s of it |
| Captions.AssTimeRoundTrip | src/video_generator.py:458-459 | parsing the printed H:MM:SS.cc stamp returns its four fields |
| Captions.AssTimeChars | src/video_generator.py:458-459 | a stamp holds only digits, ':', '.' and '-' |
| Captions.AssTimeNoComma | src/video_generator.py:462 | a stamp holds no comma, so it stays one field of the Dialogue line |
| Captions.AssTimeNoLineBreak | src/video_generator.py:462 | a stamp holds no line break |
| Captions.DialogueLines | src/video_generator.py:452-462 | one Dialogue line per word |
| Captions.DialogueLinesIndex | src/video_generator.py:452-462 | line k is the Dialogue line of word k, so input order is kept |
| Captions.DialogueLinesConcat | src/video_generator.py:452-462 | the event lines of a concatenation are the concatenation of the event lines |
| Captions.SplitLinesOfLines | src/video_generator.py:462 | newline-terminated lines without line breaks split back into the same lines |
| Captions.DialogueLineNoLineBreak | src/video_generator.py:462 | a word without a line break gives a Dialogue line without one |
| Captions.EventLines | src/video_generator.py:452-462 | for one-line words the event section splits into exactly one line per word |
| Captions.ParseEvent | src/video_generator.py:462 | a Dialogue line built from two comma-free stamps parses back to its two times and its text |
| Captions.DialogueRoundTrip | src/video_generator.py:452-462 | each word's Dialogue line parses back to the shifted start and end fields and the word itself |
| Captions.AssDocumentSplit | src/video_generator.py:434-462 | the ASS text is the fixed header followed by the event lines |
| Captions.AppendEvents | src/video_generator.py:452-462 | the += loop leaves the header followed by every event line in order |
| Captions.BuildAssContent | src/video_generator.py:434-462 | the built content is the ASS document of the style and words |
| Encoder.DetectGpuSupport | src/video_generator.py:16-68 | has-GPU and encoder are equal, and true exactly when nvidia-smi exits 0 with a count above 0, h264_nvenc is listed and the smoke test exits 0; the count is the parsed count or 0 |
| Encoder.ProbesRun | src/video_generator.py:25-65 | 1 to 3 probes are run; the encoder list only after a positive count, the smoke test only after the encoder is listed |
| Encoder.NoCountNoGpu | src/video_generator.py:25-36 | an unparsable or non-positive GPU count means no GPU and no encoder |
| Encoder.TwoLineCountRejected | src/video_generator.py:30-36 | two GPUs print two lines, int() fails on them and the gate reports no GPU |
| Encoder.EffectiveGpu | src/video_generator.py:483-490 | the GPU stays in use exactly when it was asked for and the job's own detection finds it |
| Encoder.OutputArgs | src/video_generator.py:492-505 | the key set, "h264_nvenc" exactly when the GPU is in use and "libx264" otherwise, the gpu key with the device id only then, and the fixed preset, pix_fmt, audio codec, bitrate and threads |
| Encoder.CpuArgs | src/video_generator.py:532-535 | the retry arguments keep every other key, set c:v to libx264 and drop gpu |
| Encoder.RetryIsCpuRun | src/video_generator.py:532-535 | retry arguments equal the arguments of a run that never used the GPU |
| Encoder.CpuArgsOfCpu | src/video_generator.py:532-535 | turning CPU arguments into CPU arguments changes nothing |
| Encoder.BuildOutputArgs | src/video_generator.py:492-505 | the dictionary built step by step is OutputArgs |
| Encoder.BuildCpuArgs | src/video_generator.py:532-535 | the copy-and-edit of the arguments is CpuArgs |
| Encoder.ShouldRetry | src/video_generator.py:527 | the retry test: the GPU was in use and stderr names h264_nvenc, nvenc or libcuda; ShouldRetrySimplified and NoRetryOnCpu prove its properties, and EncodeAttempts uses it |
| Encoder.ShouldRetrySimplified | src/video_generator.py:527 | a retry happens exactly when the GPU was in use and stderr mentions nvenc or libcuda |
| Encoder.NoRetryOnCpu | src/video_generator.py:527 | a CPU run, or a GPU request the job downgraded, is never retried |
| Encoder.EncodeAttempts | src/video_generator.py:519-570 | one attempt on success; a second exactly when the first fails with a retryable error; the error re-raised is the last attempt's; success exactly when the first or the retry succeeds |
| VideoJob.StagedPaths | src/video_generator.py:331 | clip i's temporary path is the output path with ".mp4" replaced by _looped_scaled_video_i.mp4 |
| VideoJob.StagedPathsSet | src/video_generator.py:331 | the registered list and the set of staged paths hold the same paths |
| VideoJob.TempPath | src/video_generator.py:188-421 | each temporary path is the output path with ".mp4" replaced by the step's suffix; TempPathOfPlainOutput, TempPathOfConventionalOutput and TempPathDiffers prove what that gives for outputs with and without ".mp4" |
| VideoJob.TempPathOfPlainOutput | src/video_generator.py:188-421 | for an output path without ".mp4", replace leaves every temporary path equal to the output path |
| VideoJob.TempPathOfConventionalOutput | src/video_generator.py:188-421 | for an output path whose only ".mp4" is at its end, each temporary path is the stem plus the suffix |
| VideoJob.TempPathDiffers | src/video_generator.py:188-421 | with ".mp4" present, a suffix not starting with ".m" gives a path other than the output |
| VideoJob.ScratchAvoidsOutput | src/video_generator.py:188-421 | with ".mp4" in the output path, no temporary path is the output path |
| VideoJob.ScratchOfPlainOutput | src/video_generator.py:188-421 | without ".mp4", every temporary path is the output path |
| VideoJob.OutputAmongScratch | src/video_generator.py:188-189 | if the output path is a temporary path, it is the intro-audio path, which the outer finally deletes |
| VideoJob.TempLength | src/video_generator.py:335 | the staged length is min(60, mixed duration + 5) |
| VideoJob.StageOutcome | src/video_generator.py:304-375 | how staging clip i ends: the ffprobe error, the missing video stream, the render error, the file that does not appear within 5 polls, the empty file, the file that fails ffprobe, each as the error the source raises, or Success; StageOutcomeSuccess gives the exact condition for Success |
| VideoJob.StageOutcomeSuccess | src/video_generator.py:304-366 | a clip is registered exactly when it has a video stream, it renders, the file appears within 5 polls, it is non-empty and it probes |
| VideoJob.CleanupFootprint | src/video_generator.py:576-586 | after the outer finally, only the output and the thumbnail may remain beyond the files that existed, and every file outside the temporary names survives |
| VideoJob.SuccessFootprint | src/video_generator.py:576-586 | after a successful job, no temporary file is left, and the output remains exactly when its path contains ".mp4" |
| VideoJob.PollForFile | src/video_generator.py:347-355 | the file is found exactly when it appears within 5 checks; the counts of checks and sleeps |
| VideoJob.Job.Create | src/video_generator.py:219-366 | a tool writes one file and nothing else changes |
| VideoJob.Job.RemoveIfExists | src/video_generator.py:292-294 | os.remove behind an exists check removes the path and nothing else |
| VideoJob.Job.IntroStep | src/video_generator.py:184-220 | the intro audio path is recorded before rendering; an intro-audio failure changes nothing; the thumbnail and intro video files that are written; the intro duration on success |
| VideoJob.Job.VoiceStep | src/video_generator.py:229-240 | a failed voice probe or a zero duration is an error; otherwise the sped-up duration times 0.9 is the probed one |
| VideoJob.Job.MixStep | src/video_generator.py:281-294 | the mixed audio is removed in its own finally whatever happens; a render or probe failure is an error; otherwise its probed duration |
| VideoJob.Job.StageClip | src/video_generator.py:304-375 | with the corrected staging of ## Findings: the outcome of clip i; only a clip that passes every check is appended to the registered list; a failed clip leaves no file behind; a missing video stream touches nothing |
| VideoJob.Job.StageClipAsWritten | src/video_generator.py:304-375 | as the code stands, a clip file that is empty or fails to probe, or that a failed render left, stays on disk and unregistered |
| VideoJob.Job.StageNext | src/video_generator.py:304-375 | with the corrected staging of ## Findings: one turn of the staging loop; its outcome is StageOutcome; on success clip i's path is appended and its file added; on failure the registered list is unchanged and clip i's file is not left behind |
| VideoJob.Job.StageClips | src/video_generator.py:304-375 | with the corrected staging of ## Findings: clips are staged in order and the first failure stops; the registered list is the staged paths of the clips done; success exactly when every clip succeeds; files outside the staged names are kept |
| VideoJob.Job.CheckStaged | src/video_generator.py:378-384 | the re-check passes exactly when every registered clip exists |
| VideoJob.Job.CaptionStep | src/video_generator.py:418-477 | with no or empty word timestamps nothing is written and no filter is added; otherwise the ASS file is written and recorded |
| VideoJob.EncodeRuns | src/video_generator.py:519-560 | one encode with the final arguments, and a second with their CPU copy exactly when the final encode retries |
| VideoJob.Job.EncodeStep | src/video_generator.py:483-574 | the encode attempts recorded, success exactly when the final encode succeeds, the error re-raised, the output added on success and the ASS file removed in every case |
| VideoJob.Job.EncodeWith | src/video_generator.py:519-574 | the first run, and on a retryable error the CPU run, with the effect of each on the file system |
| VideoJob.Job.CleanupOuter | src/video_generator.py:576-586 | the outer finally removes every registered clip and both intro files, and nothing else |
| VideoJob.Job.Reset | src/video_generator.py:174-176 | create_video's locals start empty before the outer try: no registered clip and no intro paths; the file system is unchanged |
| VideoJob.Job.Prepare | src/video_generator.py:179-384 | with the corrected staging of ## Findings: every step before the captions: the paths recorded, the registered clips, the file footprint, and success exactly when each step succeeds |
| VideoJob.Job.Finish | src/video_generator.py:418-574 | the captions and the encode: success exactly when no ASS file is needed or its path is usable; the output added, the ASS file removed, and on success the encodes recorded are exactly the planned runs |
| VideoJob.Job.Produce | src/video_generator.py:179-574 | with the corrected staging of ## Findings: the try body of create_video: success exactly when every step completes, then no temporary file remains except what the outer finally removes |
| VideoJob.Job.Run | src/video_generator.py:145-586 | with the corrected staging of ## Findings: the whole job: only the output and the thumbnail can be new; no file outside the temporary names is lost; an intro-audio failure changes nothing; on success no temporary file but the thumbnail remains, and the output stays exactly when its path contains ".mp4" |
| Transcriber.Flatten | src/transcriber.py:68-73 | the words of all results joined in result order; a result without 'result' adds nothing; FlattenConcat, FlattenSkipsKeyless and FlattenLength prove this, and FlattenWords is the loop |
| Transcriber.Accepted | src/transcriber.py:58-64 | only chunk results accepted by the recognizer are kept, in order |
| Transcriber.FlattenConcat | src/transcriber.py:68-73 | the words of concatenated results are the concatenated words |
| Transcriber.FlattenSkipsKeyless | src/transcriber.py:70-71 | a result without a 'result' key contributes nothing |
| Transcriber.FlattenLength | src/transcriber.py:68-73 | the number of words is the sum of the results' word counts |
| Transcriber.CollectResults | src/transcriber.py:58-66 | the result list is the accepted chunk results followed by the final result |
| Transcriber.FlattenWords | src/transcriber.py:68-73 | the extend loop computes the flattened words |
| Transcriber.Transcript | src/transcriber.py:21-77 | the recognition's words, or None for a failed download or setup, an unloadable model, a WAV that is not mono 16-bit uncompressed, or a raised exception; GetWordTimestamps computes it and states each case |
| Transcriber.GetWordTimestamps | src/transcriber.py:21-77 | None on a download or setup failure, an unloadable model or a WAV other than mono 16-bit uncompressed; otherwise every result's words in order, the final one last |
| Voice.IsMetadataLine | src/voice_generator.py:74 | the re.match test with each alternative anchored at the line start: "Image:", "Text:", a "**" pair, a heading of '#' followed by whitespace, or a "[...]:" label; HeadingExample and CleanLine prove how it is used |
| Voice.HashRun | src/voice_generator.py:74-76 | the length of the leading run of '#' |
| Voice.HeadingExample | src/voice_generator.py:74-76 | "## Part 1" is metadata, "#hashtag story" is not |
| Voice.RemoveBracketGroups | src/voice_generator.py:80 | removing the shortest bracket groups only deletes characters |
| Voice.BracketGroupsGone | src/voice_generator.py:80 | no complete bracket group is left |
| Voice.BracketFree | src/voice_generator.py:80 | a line without '[' is unchanged |
| Voice.BracketGroupRemoved | src/voice_generator.py:80 | the first group up to the nearest ']' is cut out and the rest is cleaned the same way |
| Voice.RemoveEmoji | src/voice_generator.py:83 | what remains are characters of the line outside the three emoji blocks |
| Voice.EmojiFree | src/voice_generator.py:83 | a line without emoji is unchanged |
| Voice.RemoveEmojiConcat | src/voice_generator.py:83 | emoji removal works character by character |
| Voice.CleanLine | src/voice_generator.py:70-89 | a kept line is non-empty and stripped; a blank or metadata line is dropped |
| Voice.CleanLineSpec | src/voice_generator.py:74-86 | a kept line holds only characters of the original outside the emoji blocks; the original was not metadata and had its bracket groups removed |
| Voice.StoryLinesSpec | src/voice_generator.py:65-90 | at most one narration line per input line, none blank or padded |
| Voice.CleanStoryLine | src/voice_generator.py:68-89 | the loop body's cleaning of line i is CleanLine of line i |
| Voice.ExtractStoryText | src/voice_generator.py:59-93 | the loop computes the specified narration text |
| Voice.StoryTextNoLineBreak | src/voice_generator.py:93 | the narration text contains no line break |
| Voice.StoryTextOfPlainLines | src/voice_generator.py:59-93 | plain, stripped lines are joined by single spaces unchanged |
| Voice.StoryTextOfLines | src/voice_generator.py:65-93 | the text of joined lines is the kept lines joined by single spaces |
| Voice.StoryLinesSkip | src/voice_generator.py:74-76 | inserting a metadata line changes nothing |
| Voice.ChosenVoice | src/voice_generator.py:108-110 | the default voice comes from the available voices |
| Voice.GenerateVoice | src/voice_generator.py:98-159 | the result is VoiceResult; with an unknown voice no synthesis is made, otherwise one per sentence |
| Voice.ConcatSamples | src/voice_generator.py:155 | the concatenation loop joins the samples in order |
| Voice.FailedSentenceSkipped | src/voice_generator.py:145-149 | a failing sentence has no effect on the result |
| Voice.VoiceOutcome | src/voice_generator.py:112-155 | an unknown voice is refused; with a known voice the run fails exactly when every sentence fails; the rate is the first success's |
| Voice.SuccessesEmpty | src/voice_generator.py:151-152 | nothing was collected exactly when every sentence failed |
| Voice.SuccessesFirst | src/voice_generator.py:139-141 | the first collected chunk is the first sentence that succeeded |
| Voice.FirstFailure | src/voice_generator.py:172-184 | the index of the first failing sentence: every sentence before it succeeded |
| Voice.IntroVoice | src/voice_generator.py:165-166 | "random" picks from the available voices; any other voice is used as given |
| Voice.MeasureResult | src/voice_generator.py:161-192 | the duration times the rate is the number of samples; success needs every sentence to succeed; the first failure escapes; no sentences raise |
| Voice.GenerateAndMeasureAudio | src/voice_generator.py:161-192 | the result is MeasureResult, the voice used, and the calls made up to and including the first failure |
| Story.LimitWords | src/story_generator.py:41-44 | at most 20 words; a text of at most 20 words is returned verbatim; a longer one is its first 20 words joined by spaces with "..." on the last |
| Story.TruncatedWords | src/story_generator.py:41-43 | the truncated text splits into the first 20 words, the last with "..." |
| Story.LimitWordsIdempotent | src/story_generator.py:41-44 | limiting twice is limiting once |
| Story.QuotaErrorIgnoresCase | src/story_generator.py:49 | the classifier gives the same answer for the lower-cased message |
| Story.IsQuotaError | src/story_generator.py:49 | the quota test, used again at line 103: "429" appears in the message, or "quota" appears in its lower-cased form; QuotaErrorIgnoresCase, QuotaInAnyCase and QuotaExamples prove its properties |
| Story.QuotaInAnyCase | src/story_generator.py:49 | "quota" in any case makes a quota error |
| Story.QuotaExamples | src/story_generator.py:49 | a 429 message and a message with "Quota" are quota errors |
| Story.GenerateIntroText | src/story_generator.py:23-61 | a missing key raises first; every intro has at most 20 words; errors other than quota errors are re-raised; on a quota error the story is limited; a reply is limited |
| Story.ShortStoryIsOwnIntro | src/story_generator.py:51-55 | on a quota error a story of at most 20 words is its own intro, verbatim |
| Story.GenerateStory | src/story_generator.py:75-113 | a missing key raises first; a reply is returned as it is; a quota error returns one of the five fallbacks; any other error is re-raised as a RuntimeError carrying its message |
| Story.EveryFallbackReachable | src/story_generator.py:63-110 | each of the five fallback stories is returned for some choice |
| Thumbnail.FormatNumber | src/thumbnail_generator.py:6-11 | format_number: one decimal and "M" from a million, one decimal and "K" from a thousand, str(num) below that; FormatBuckets, Thresholds and AlmostAMillion prove which bucket applies |
| Thumbnail.Tenths | src/thumbnail_generator.py:8-10 | the rounded tenths are within half a tenth of the quotient |
| Thumbnail.FormatBuckets | src/thumbnail_generator.py:6-11 | "M" exactly from a million, "K" exactly from a thousand below a million, the plain integer below a thousand |
| Thumbnail.DecimalTextParts | src/thumbnail_generator.py:8-10 | the text before "." reads back as the whole part, then one digit for the tenths |
| Thumbnail.AlmostAMillion | src/thumbnail_generator.py:9-10 | 999999 renders as "1000.0K" |
| Thumbnail.Thresholds | src/thumbnail_generator.py:7-11 | 1000 is "1.0K", a million is "1.0M", 999 is "999" |
| Thumbnail.PlatformName | src/thumbnail_generator.py:29-30 | a missing platform becomes "x" or "facebook" |
| Thumbnail.Settings | src/thumbnail_generator.py:29-38 | ValueError exactly for a platform other than "x" or "facebook"; the selector is ".tweet-card" for x and ".fb-card" otherwise; the counters are the given ones or the formatted draws |
| Thumbnail.DefaultPlatformSucceeds | src/thumbnail_generator.py:29-30 | with no platform the settings never fail |
| Thumbnail.DefaultCounters | src/thumbnail_generator.py:32-38 | default likes and comments always end in "K"; default shares end in "K" exactly from 1000 and are plain digits below |
| Telegram.IpInfo | src/utils/telegram_notifier.py:4-15 | a failed request gives the fixed failure text |
| Telegram.IpInfoDistinct | src/utils/telegram_notifier.py:9-15 | a formatted reply ends in ")" and is never the failure text |
| Telegram.IpInfoDefaults | src/utils/telegram_notifier.py:10-13 | missing fields print as "N/A" |
| Telegram.NewNotifier | src/utils/telegram_notifier.py:18-24 | the notifier is made exactly when both values are set and free of their placeholders; the token is checked first |
| Telegram.PlaceholderRefused | src/utils/telegram_notifier.py:21-22 | any token containing the placeholder is refused |
| Telegram.EscapeMarkdownIsEscapeChars | src/utils/telegram_notifier.py:56 | the four chained replaces put a backslash before each special character |
| Telegram.EscapeMarkdown | src/utils/telegram_notifier.py:56 | the four chained replaces of the details; EscapeMarkdownIsEscapeChars, EscapeLength, EscapeUnchanged, UnescapeEscape and EscapeNoLineBreak prove what they do |
| Telegram.EscapeLength | src/utils/telegram_notifier.py:56 | the escaped length grows by the counts of the four special characters |
| Telegram.EscapeUnchanged | src/utils/telegram_notifier.py:56 | text without special characters is unchanged |
| Telegram.UnescapeEscape | src/utils/telegram_notifier.py:56 | removing the backslashes gives the details back |
| Telegram.EscapeNoLineBreak | src/utils/telegram_notifier.py:56 | escaping adds no line break |
| Telegram.StatusEmojiTable | src/utils/telegram_notifier.py:43-49 | the default emoji exactly for a status outside the four-entry table |
| Telegram.StatusEmoji | src/utils/telegram_notifier.py:43-49 | the emoji table lookup with its gear default; StatusEmojiTable proves when the default is used |
| Telegram.ComposeMessage | src/utils/telegram_notifier.py:53-59 | the += steps build the message lines joined by line breaks |
| Telegram.MessageIsJoin | src/utils/telegram_notifier.py:53-59 | the message is the bold event, a blank line, the status line, the details line only for non-empty details, and the location line |
| Telegram.MessageSplits | src/utils/telegram_notifier.py:53-59 | for one-line fields the message splits back into its lines: five with details, four without |
| Telegram.Notify | src/utils/telegram_notifier.py:39-62 | a message is sent exactly when the notifier can be made; its text, chat id and parse mode |
| Pollinations.RemoveForbidden | src/pollinations_image_generator.py:12 | the re.sub deleting the nine forbidden characters; RemoveForbiddenCounts, RemoveForbiddenClean and RemoveForbiddenOfClean prove what it deletes and keeps |
| Pollinations.RemoveForbiddenCounts | src/pollinations_image_generator.py:12 | each forbidden character is deleted, every other character is kept as often as it occurs |
| Pollinations.RemoveForbiddenClean | src/pollinations_image_generator.py:12 | the filtered text holds no forbidden character |
| Pollinations.RemoveForbiddenOfClean | src/pollinations_image_generator.py:12 | text without forbidden characters is unchanged |
| Pollinations.CleanFilename | src/pollinations_image_generator.py:10-13 | at most 100 characters, no forbidden character, a prefix of the filtered text of the greatest permitted length |
| Pollinations.CleanFilenameIdempotent | src/pollinations_image_generator.py:10-13 | cleaning twice is cleaning once |
| Pollinations.CleanFilenameKeeps | src/pollinations_image_generator.py:10-13 | a short clean name is kept |
| Pollinations.GenerateImage | src/pollinations_image_generator.py:31-57 | the loop's result and attempts are the specified run; it sleeps between attempts, not after the last |
| Pollinations.RunFromBounds | src/pollinations_image_generator.py:31-57 | attempts never exceed retries; only a request exception leads to another attempt; success returns the output path |
| Pollinations.RunFrom | src/pollinations_image_generator.py:31-57 | the retry loop from a given attempt: a request exception retries while attempts remain; a non-image reply or an unidentifiable image returns None; a save error escapes; RunFromBounds, BadReplyNotRetried and AllFailuresExhaust prove its bounds |
| Pollinations.RunBounds | src/pollinations_image_generator.py:31-57 | at most retries attempts, and every attempt before the last met a request exception; a saved result is the output path |
| Pollinations.NoRetriesNoAttempt | src/pollinations_image_generator.py:31 | zero retries return None without a request |
| Pollinations.BadReplyNotRetried | src/pollinations_image_generator.py:43-48 | a non-image content type or an unidentifiable image returns None after one attempt |
| Pollinations.AllFailuresExhaust | src/pollinations_image_generator.py:50-57 | request exceptions on every attempt use all retries and return None |
| Pollinations.BlankIsEmptyStrip | src/pollinations_image_generator.py:68 | a prompt is skipped exactly when it strips to the empty string |
| Pollinations.PromptLoop | src/pollinations_image_generator.py:59-73 | the loop, calling generate_pollinations_image for each non-blank prompt, makes exactly the calls of SessionOf and ends as it does, with the outcome of each call being that call's retry loop |
| Pollinations.SessionOf | src/pollinations_image_generator.py:59-73 | the session from the prompts and what each call returns: it stops at "exit" in any case, at the end of the input, or right after a call whose exception escapes, and requests every non-blank prompt before that; PromptLoop computes it, and SessionExited, SessionRequests, RaiseEndsSession and SessionSendsAll prove its properties |
| Pollinations.SessionExited | src/pollinations_image_generator.py:63-71 | the session ends by exit exactly when some prompt is "exit" in any case and no call before it raised |
| Pollinations.SessionRequests | src/pollinations_image_generator.py:63-71 | at most one request per prompt, each for a non-blank prompt that is not "exit", written to its own output path |
| Pollinations.RaiseEndsSession | src/pollinations_image_generator.py:63-71 | a call that raises, reached before any exit or earlier raise, ends the session: it is the last call made and no later prompt is requested |
| Pollinations.SessionSendsAll | src/pollinations_image_generator.py:63-71 | without exit, blank prompts or a call that raises, every prompt is requested in order and the session ends with the input |
| Pollinations.OutputPathShape | src/pollinations_image_generator.py:69-70 | the file is generated_ plus the clean name plus .png, in the output directory |
| GenShort.CategoryOf | src/gen_short.py:96-104 | dark words win; then vintage words; then interior words; then the cinematic default |
| GenShort.FallbackEndsWithSentence | src/gen_short.py:98-104 | every fallback prompt ends with ", " and the sentence |
| GenShort.FallbackPrompt | src/gen_short.py:93-104 | the prompt returned when the model call raises: the category's lead text, then the sentence; FallbackEndsWithSentence and GoldIsVintage prove its properties |
| GenShort.GoldIsVintage | src/gen_short.py:98-99 | "gold" contains "old" and gets the vintage prompt |
| GenShort.DarkFirst | src/gen_short.py:96-97 | a sentence mentioning "Night" is dark whatever else it says |
| GenShort.ImagePrompt | src/gen_short.py:83-104 | a reply is stripped; without one the fallback ends with the sentence |
| GenShort.TruthyPathsConcat | src/gen_short.py:123-124 | filtering works result by result |
| GenShort.ImagesOfSpec | src/gen_short.py:106-126 | None exactly when an image call raises; otherwise the truthy paths in sentence order |
| GenShort.TruthyPathsLength | src/gen_short.py:123-124 | at most one path per sentence, none empty |
| GenShort.GenerateImagesTask | src/gen_short.py:106-126 | the loop computes the filtered list of the prompts' results |
| GenShort.AllImagesSaved | src/gen_short.py:118-124 | when every image is saved, the list holds every sentence's path in order |
| GenShort.TruthyOfSaved | src/gen_short.py:121-124 | results saved to non-empty paths keep exactly those paths, in order |
| GenShort.CombineAssets | src/gen_short.py:128-198 | the append loops build the specified plan |
| GenShort.CombinePlan | src/gen_short.py:134-198 | what combine_assets_to_video_task writes: nothing without images, else one clip per image with an equal share of the audio, animated and overlaid only when there are timestamps; CombineAssets computes it, and CombineClips and CombineOverlays prove its properties |
| GenShort.TotalOfEqualShares | src/gen_short.py:156 | equal shares add up to count times share |
| GenShort.CombineClips | src/gen_short.py:134-177 | no video without images; otherwise one clip per image in order, lasting audio duration over the count, together the whole audio, written to the fixed output |
| GenShort.CombineOverlays | src/gen_short.py:143-189 | one overlay per word at its raw start and end, none without timestamps |
| GenShort.PanLeftBounds | src/gen_short.py:172 | x is within 0 to 100, does not increase, and starts at 100 and reaches 0 at 5 s |
| GenShort.PanRightBounds | src/gen_short.py:174 | x is within -100 to 0, does not decrease, and starts at -100 and reaches 0 at 5 s |
| GenShort.ZoomBounds | src/gen_short.py:170 | the zoom is within 1 and 1.1 over the clip, does not decrease, and runs from 1 to 1.1 |

## Left out

- ffmpeg, ffprobe, Kokoro, Vosk, Gemini, Pollinations HTTP, Telegram HTTP and Playwright are not executed. Their results are inputs, and their filter graphs, synthesis and rendering are not part of this model.
- Randomness (`random.choice`, `random.shuffle`, `random.randint`) comes in as inputs: an index, the already-shuffled list, a drawn number.
- `time.sleep` is a counter. Clocks, logging and `print` are left out.
- Sentence segmentation (pysbd) is an input: the list of sentences.
- `setup_imagemagick`, `wrap_text`, `get_onnx_providers`, `src/image_generator.py`, `x.py`, the logger setup, the tests and `src/niches/kids_story.py` are not part of this model.
- Float arithmetic is `real`. Python's rounding of ties in `round(x, 1)` is not pinned down.
- Thumbnail.FormatNumber: rounds halves up on exact rationals, so 1250 gives "1.3K" and 1150 gives "1.2K", where Python's binary-float `round(x, 1)` gives "1.2K" and "1.1K". From 10^22 on Python also prints the quotient in exponent form ("1e+16M"), which is not modelled.
- Thumbnail.FormatBuckets: the rounded digits are stated only to within half a tenth (Thumbnail.Tenths), not to Python's binary-float rounding.
- `str.lower` is modelled on ASCII letters only. The regex `\s` and `str.strip` use one whitespace set.
- `os.path.abspath` and the backslash normalisation of staged paths are left out. Paths are compared as given, and `os.path.join` is "/".
- VideoJob.Job.CaptionStep: the job records a descriptor of the ASS file (style, words, intro duration), not its text. Captions.BuildAssContent states the text separately.
- The font-embedding branch (src/video_generator.py:465-466) is never taken, because the font data is the empty string.
- The FileNotFoundError of that branch's `try` cannot be raised, so it is not modelled.
- VideoJob.Job.CheckStaged: the re-check of staged files before concatenation always passes after staging, so its raise is never taken.
- `main`'s Telegram notifications are not part of this model, because the configuration they read is not shown.
- File writes outside `create_video` are not modelled, and neither are their errors. This covers `save_story_to_file` (src/story_generator.py:97 inside the `try`, and src/story_generator.py:109 in the quota branch, where an OSError would escape `generate_story`), Voice's cleaned-text file (src/voice_generator.py:121-125), `main`'s intro-text file (src/main.py:72-74), the thumbnail's temporary HTML (src/thumbnail_generator.py:296-298) and Pollinations' `image.save`, whose errors appear only as the `SaveRaised` outcome. Only the files of `create_video` appear in VideoJob.Job's file system.
- Media.Stream: every probed stream has a `duration`. In the source, `float(stream['duration'])` raises KeyError when ffprobe omits it. At src/main.py:21 the `except ffmpeg.Error` of `get_media_duration` does not catch it, so `main` stops. At src/video_generator.py:233, 288 and 324 it is raised inside `create_video`. This raise is not modelled.
- PyStr.ParseInt: accepts an optional sign and ASCII digits only. Python's `int()` also accepts underscores between digits and non-ASCII decimal digits, which nvidia-smi does not print.
- Voice: a story line is stated to be skipped by two lemmas (Voice.StoryTextOfLines, Voice.StoryLinesSkip), not one.
- Story: that the five fallback stories are pairwise distinct is not stated.
- Telegram: `get_telegram_token` and the chat id are inputs. The errors `send_message` swallows are not modelled; a failed send looks like a sent one.
- Pollinations: the image errors other than `UnidentifiedImageError`, raised while saving, escape the function. They are modelled as one `SaveRaised` outcome.
- GenShort: the zoom lambda divides by the clip share at render time. ZoomFactor is None when the share is 0, and the lemma is stated for positive shares.
- GenShort: the animation `else` branch of the combine step is unreachable, so it is not modelled.
- VideoJob.Job.StageClip: models the corrected staging. In the source, a clip whose render failed after writing its file, or whose file is empty or fails ffprobe, leaves `_looped_scaled_video_i.mp4` behind unregistered; this contract excludes that case, and VideoJob.Job.StageClipAsWritten states it.
- VideoJob.Job.StageNext: built on the corrected VideoJob.Job.StageClip. In the source, a failed clip can leave its file behind, which this contract excludes.
- VideoJob.Job.StageClips: built on the corrected VideoJob.Job.StageClip. In the source, the failing clip's file can stay behind, which these contracts exclude.
- VideoJob.Job.Prepare: built on the corrected staging. In the source, a failed clip can leave `_looped_scaled_video_i.mp4` behind, which this footprint excludes.
- VideoJob.Job.Produce: built on the corrected staging. In the source, a failed clip can leave `_looped_scaled_video_i.mp4` behind, which this footprint excludes.
- VideoJob.Job.Run: built on the corrected staging. In the source, a failed clip can leave `_looped_scaled_video_i.mp4` behind after the outer `finally`, so "only the output and the thumbnail can be new" holds only for the corrected job.
- Encoder.DetectGpuSupport: nvidia-smi prints one line per GPU, so more than one GPU reads as no GPU (Encoder.TwoLineCountRejected). This is the code's behaviour and is modelled as written.

## Findings

| source | as written | input that shows it | evidently intended | confidence | as-written member | corrected member |
|---|---|---|---|---|---|---|
| src/video_generator.py:331-375 | a staged clip is appended to the cleanup list only after its checks pass, so a clip file that ffmpeg wrote but that is empty or fails ffprobe, or that a failed render left, is never registered and survives the outer `finally` | one background clip whose render leaves a zero-byte file: ValueError is raised, and `_looped_scaled_video_0.mp4` remains after `create_video` returns | every temporary clip file the job wrote is removed when the job ends | medium, not executed | VideoJob.Job.StageClipAsWritten | VideoJob.Job.StageClip |

VideoJob.Job.StageClip removes the clip file when staging fails. VideoJob.Job.Run is built on it and proves that only the output and the thumbnail can be new after the job.
