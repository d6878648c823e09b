/**
  What the code sees of ffmpeg and ffprobe: probe results as lists of
  streams, and runs that either succeed or raise `ffmpeg.Error`. The tools
  themselves are not modelled; callers receive their outcomes as inputs.
*/
module Media {

  /** One entry of the probe's `streams` list: its `codec_type` and `duration`. */
  datatype Stream = Stream(codecType: string, duration: real)

  /** `ffmpeg.probe(path)`: the streams, or `ffmpeg.Error` carrying stderr. */
  datatype Probe = Probed(streams: seq<Stream>) | ProbeError(stderr: string)

  /** One `ffmpeg ... .run()`: success, or `ffmpeg.Error`; a failed run may
      still leave a partly written output file. `stderr` stands for the text
      the code searches, which for the encode retry is `str(e.stderr)`: the
      repr of the bytes, in which a newline appears as the two characters
      backslash and "n". */
  datatype Render = Rendered | RenderError(stderr: string, leavesFile: bool)

  /** The loop `for stream in streams: if codec_type in kinds: return duration`,
      falling through to 0.0. */
  method FirstStreamDuration(streams: seq<Stream>, kinds: set<string>) returns (d: real)
    ensures d == FirstOfKind(streams, kinds)
  {
    var k := 0;
    while k < |streams|
      invariant 0 <= k <= |streams|
      invariant FirstOfKind(streams[k..], kinds) == FirstOfKind(streams, kinds)
    {
      assert streams[k..][1..] == streams[k + 1..];
      if streams[k].codecType in kinds {
        return streams[k].duration;
      }
      k := k + 1;
    }
    return 0.0;
  }

  /** The first stream of a kind, as a value for specifications. */
  function FirstOfKind(streams: seq<Stream>, kinds: set<string>): (d: real)
    ensures (forall i :: 0 <= i < |streams| ==> streams[i].codecType !in kinds) ==> d == 0.0
    ensures forall i :: 0 <= i < |streams| && streams[i].codecType in kinds
                        && (forall j :: 0 <= j < i ==> streams[j].codecType !in kinds)
                        ==> d == streams[i].duration
  {
    if streams == [] then 0.0
    else if streams[0].codecType in kinds then streams[0].duration
    else FirstOfKind(streams[1..], kinds)
  }
}
