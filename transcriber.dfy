/**
  `get_word_timestamps` (src/transcriber.py): the WAV format gate, the
  frame-reading loop that collects recognizer results, and the loop that
  flattens their word lists. Vosk, the model download and `wave` are
  outside the model: what they report is the `Recognition` input.
*/
module Transcriber {

  import opened Outcomes

  /** One recognized word: its text and its start and end in seconds. */
  datatype WordTiming = WordTiming(word: string, start: real, end: real)

  /** A recognizer result decoded from JSON: its 'result' list, if the key is present. */
  datatype RecResult = RecResult(result: Option<seq<WordTiming>>)

  /** What `wave.open` reports: channel count, sample width in bytes, compression type. */
  datatype WavParams = WavParams(channels: int, sampleWidth: int, compType: string)

  /** How the Vosk model directory is obtained. */
  datatype ModelSetup =
    | ModelPresent      // the directory already exists
    | Downloaded        // downloaded and unzipped
    | DownloadFailed    // requests raised RequestException
    | SetupFailed       // any other exception while downloading or unzipping

  /**
    Everything the external pieces report for one call: the model setup,
    whether `vosk.Model` and `wave.open` succeed, the WAV parameters, one entry
    per non-empty block of 4000 frames (`Some(r)` when `AcceptWaveform`
    returned true and `Result()` decoded to `r`), the final result, and
    whether recognition raised.
  */
  datatype Recognition = Recognition(
    setup: ModelSetup,
    loaded: bool,
    params: WavParams,
    chunks: seq<Option<RecResult>>,
    final: RecResult,
    raised: bool)

  /** Mono, 16-bit, uncompressed. */
  predicate AcceptedFormat(p: WavParams) {
    p.channels == 1 && p.sampleWidth == 2 && p.compType == "NONE"
  }

  /** The results appended inside the frame loop: those of accepted blocks, in order. */
  function Accepted(chunks: seq<Option<RecResult>>): (rs: seq<RecResult>)
    ensures |rs| <= |chunks|
    ensures forall k :: 0 <= k < |rs| ==> Some(rs[k]) in chunks
  {
    if chunks == [] then []
    else
      var rest := Accepted(chunks[1..]);
      assert forall k :: 0 <= k < |rest| ==> Some(rest[k]) in chunks by {
        forall k | 0 <= k < |rest| ensures Some(rest[k]) in chunks {
          assert Some(rest[k]) in chunks[1..];
        }
      }
      match chunks[0]
      case Some(r) => [r] + rest
      case None => rest
  }

  /** The words of one result: its 'result' list, or nothing without that key. */
  function WordsOf(r: RecResult): seq<WordTiming> {
    match r.result
    case Some(ws) => ws
    case None => []
  }

  /** All results' word lists concatenated in result order. */
  function Flatten(rs: seq<RecResult>): seq<WordTiming> {
    if rs == [] then [] else WordsOf(rs[0]) + Flatten(rs[1..])
  }

  /** Flattening distributes over concatenation of result lists. */
  lemma {:induction false} FlattenConcat(a: seq<RecResult>, b: seq<RecResult>)
    ensures Flatten(a + b) == Flatten(a) + Flatten(b)
  {
    if a != [] {
      assert (a + b)[1..] == a[1..] + b;
      FlattenConcat(a[1..], b);
    } else {
      assert a + b == b;
    }
  }

  /** A result without the 'result' key contributes no word wherever it stands. */
  lemma FlattenSkipsKeyless(a: seq<RecResult>, b: seq<RecResult>)
    ensures Flatten(a + [RecResult(None)] + b) == Flatten(a + b)
  {
    FlattenConcat(a + [RecResult(None)], b);
    FlattenConcat(a, [RecResult(None)]);
    FlattenConcat(a, b);
  }

  /** The number of words is the sum of the per-result counts. */
  lemma {:induction false} FlattenLength(rs: seq<RecResult>)
    ensures |Flatten(rs)| == SumCounts(rs)
  {
    if rs != [] {
      FlattenLength(rs[1..]);
    }
  }

  function SumCounts(rs: seq<RecResult>): nat {
    if rs == [] then 0 else |WordsOf(rs[0])| + SumCounts(rs[1..])
  }

  /** The frame loop followed by the final result. */
  method CollectResults(chunks: seq<Option<RecResult>>, final: RecResult) returns (results: seq<RecResult>)
    ensures results == Accepted(chunks) + [final]
    ensures results[|results| - 1] == final
  {
    results := [];
    var k := 0;
    while k < |chunks|
      invariant 0 <= k <= |chunks|
      invariant results + Accepted(chunks[k..]) == Accepted(chunks)
    {
      assert chunks[k..][1..] == chunks[k + 1..];
      match chunks[k] {
        case Some(r) =>
          results := results + [r];
        case None =>
      }
      k := k + 1;
    }
    assert chunks[k..] == [];
    results := results + [final];
  }

  /** The loop `for res in results: if 'result' in res: words.extend(res['result'])`. */
  method FlattenWords(results: seq<RecResult>) returns (words: seq<WordTiming>)
    ensures words == Flatten(results)
  {
    words := [];
    var k := 0;
    while k < |results|
      invariant 0 <= k <= |results|
      invariant words + Flatten(results[k..]) == Flatten(results)
    {
      assert results[k..][1..] == results[k + 1..];
      match results[k].result {
        case Some(ws) =>
          words := words + ws;
        case None =>
      }
      k := k + 1;
    }
    assert results[k..] == [];
  }

  /** The words a recognition yields, or None when it fails. */
  function Transcript(rec: Recognition): Option<seq<WordTiming>> {
    if rec.setup in {ModelPresent, Downloaded} && rec.loaded && AcceptedFormat(rec.params) && !rec.raised
    then Some(Flatten(Accepted(rec.chunks) + [rec.final]))
    else None
  }

  /** `get_word_timestamps`: None on a failed model setup, on a raised
      exception, or on a WAV that is not mono 16-bit uncompressed; otherwise
      the accepted results' words followed by the final result's words. */
  method GetWordTimestamps(rec: Recognition) returns (r: Option<seq<WordTiming>>)
    ensures r == Transcript(rec)
    ensures (rec.setup == DownloadFailed || rec.setup == SetupFailed) ==> r == None
    ensures !rec.loaded ==> r == None
    ensures !AcceptedFormat(rec.params) ==> r == None
    ensures r != None <==>
              (rec.setup in {ModelPresent, Downloaded} && rec.loaded
               && AcceptedFormat(rec.params) && !rec.raised)
    ensures r != None ==> r.value == Flatten(Accepted(rec.chunks)) + WordsOf(rec.final)
  {
    if rec.setup == DownloadFailed || rec.setup == SetupFailed {
      return None;
    }
    if !rec.loaded {
      return None;
    }
    if !AcceptedFormat(rec.params) {
      return None;
    }
    if rec.raised {
      return None;
    }
    var results := CollectResults(rec.chunks, rec.final);
    var words := FlattenWords(results);
    FlattenConcat(Accepted(rec.chunks), [rec.final]);
    return Some(words);
  }
}
