/**
  src/pollinations_image_generator.py without HTTP and without PIL:
  `clean_filename`, the attempt loop of `generate_pollinations_image` over
  the reply each attempt gets, and the prompt loop of `main` over the lines
  the user types.
*/
module Pollinations {

  import opened Outcomes
  import opened PyStr

  // ---------------------------------------------------------------------
  // clean_filename
  // ---------------------------------------------------------------------

  const MaxFilename := 100

  /** The nine characters the file name may not hold: backslash, slash, star,
      question mark, colon, double quote, the two angle brackets and bar. */
  predicate IsForbidden(c: char) {
    c == '\\' || c == '/' || c == '*' || c == '?' || c == ':'
    || c == '"' || c == '<' || c == '>' || c == '|'
  }

  /** The `re.sub` of `clean_filename`: every forbidden character deleted. */
  function RemoveForbidden(text: string): string {
    if text == [] then []
    else (if IsForbidden(text[0]) then [] else [text[0]]) + RemoveForbidden(text[1..])
  }

  /** Every forbidden character is deleted and every other one kept, as often as it occurs. */
  lemma {:induction false} RemoveForbiddenCounts(text: string, c: char)
    ensures Count(RemoveForbidden(text), c) == if IsForbidden(c) then 0 else Count(text, c)
  {
    if text != [] {
      RemoveForbiddenCounts(text[1..], c);
      var head := if IsForbidden(text[0]) then [] else [text[0]];
      CountConcat(head, RemoveForbidden(text[1..]), c);
      assert head == [] || head[1..] == [];
    }
  }

  lemma {:induction false} RemoveForbiddenClean(text: string)
    ensures forall i :: 0 <= i < |RemoveForbidden(text)| ==> !IsForbidden(RemoveForbidden(text)[i])
    ensures |RemoveForbidden(text)| <= |text|
  {
    if text != [] {
      RemoveForbiddenClean(text[1..]);
    }
  }

  /** Text without forbidden characters passes unchanged. */
  lemma {:induction false} RemoveForbiddenOfClean(text: string)
    requires forall i :: 0 <= i < |text| ==> !IsForbidden(text[i])
    ensures RemoveForbidden(text) == text
  {
    if text != [] {
      RemoveForbiddenOfClean(text[1..]);
    }
  }

  /** `clean_filename(text)`: the filtered text cut to its first 100 characters. */
  function CleanFilename(text: string): (r: string)
    ensures |r| <= MaxFilename
    ensures forall i :: 0 <= i < |r| ==> !IsForbidden(r[i])
    ensures StartsWith(RemoveForbidden(text), r)
    ensures |r| == if |RemoveForbidden(text)| < MaxFilename then |RemoveForbidden(text)| else MaxFilename
  {
    var filtered := RemoveForbidden(text);
    RemoveForbiddenClean(text);
    if |filtered| <= MaxFilename then filtered else filtered[..MaxFilename]
  }

  /** Cleaning a cleaned name changes nothing. */
  lemma CleanFilenameIdempotent(text: string)
    ensures CleanFilename(CleanFilename(text)) == CleanFilename(text)
  {
    RemoveForbiddenOfClean(CleanFilename(text));
  }

  /** A short name without forbidden characters is its own file name. */
  lemma CleanFilenameKeeps(text: string)
    requires |text| <= MaxFilename
    requires forall i :: 0 <= i < |text| ==> !IsForbidden(text[i])
    ensures CleanFilename(text) == text
  {
    RemoveForbiddenOfClean(text);
  }

  // ---------------------------------------------------------------------
  // generate_pollinations_image
  // ---------------------------------------------------------------------

  /** What reading the body as an image and saving it did. */
  datatype ImageStep =
    | Decoded       // `Image.open` and `image.save` succeeded
    | Unidentified  // `Image.UnidentifiedImageError`
    | SaveRaised    // any other error of PIL, not caught

  /** The reply of one `requests.get` after `raise_for_status`. */
  datatype Attempt =
    | RequestFailed  // a `requests.exceptions.RequestException`
    | Responded(contentType: Option<string>, image: ImageStep)

  /** What the call returns: the path, None, or an exception that escapes it. */
  datatype Generated = Saved(path: string) | NoImage | Raised

  /** The outcome of the loop and how many requests it sent. */
  datatype Run = Run(result: Generated, attempts: nat)

  /** `'image' in response.headers.get('Content-Type', '')`. */
  predicate IsImageType(contentType: Option<string>) {
    match contentType
    case None => false
    case Some(t) => Contains(t, "image")
  }

  /** The loop from attempt `attempt` on; `response(k)` is the reply to attempt `k`. */
  function RunFrom(response: nat -> Attempt, outputPath: string, retries: int, attempt: nat): Run
    decreases retries - attempt
  {
    if attempt >= retries then Run(NoImage, attempt)
    else match response(attempt)
      case RequestFailed =>
        if attempt < retries - 1 then RunFrom(response, outputPath, retries, attempt + 1)
        else Run(NoImage, attempt + 1)
      case Responded(contentType, image) =>
        if !IsImageType(contentType) then Run(NoImage, attempt + 1)
        else match image
          case Decoded => Run(Saved(outputPath), attempt + 1)
          case Unidentified => Run(NoImage, attempt + 1)
          case SaveRaised => Run(Raised, attempt + 1)
  }

  function RunAll(response: nat -> Attempt, outputPath: string, retries: int): Run {
    RunFrom(response, outputPath, retries, 0)
  }

  /** `generate_pollinations_image(prompt, output_path, retries)`; the delay
      before a retry is counted in `sleeps`. */
  method GenerateImage(response: nat -> Attempt, outputPath: string, retries: int)
    returns (r: Generated, attempts: nat, sleeps: nat)
    ensures Run(r, attempts) == RunAll(response, outputPath, retries)
    ensures sleeps == if attempts == 0 then 0 else attempts - 1
  {
    attempts, sleeps := 0, 0;
    var attempt: nat := 0;
    while attempt < retries
      invariant attempts == attempt && sleeps == attempt
      invariant attempt == 0 || attempt < retries
      invariant RunFrom(response, outputPath, retries, attempt) == RunAll(response, outputPath, retries)
      decreases retries - attempt
    {
      attempts := attempts + 1;
      match response(attempt) {
        case RequestFailed =>
          if attempt < retries - 1 {
            sleeps := sleeps + 1;
          } else {
            return NoImage, attempts, sleeps;
          }
        case Responded(contentType, image) =>
          if !IsImageType(contentType) {
            return NoImage, attempts, sleeps;
          }
          match image {
            case Decoded => return Saved(outputPath), attempts, sleeps;
            case Unidentified => return NoImage, attempts, sleeps;
            case SaveRaised => return Raised, attempts, sleeps;
          }
      }
      attempt := attempt + 1;
    }
    return NoImage, attempts, sleeps;
  }

  lemma {:induction false} RunFromBounds(response: nat -> Attempt, outputPath: string, retries: int, attempt: nat)
    ensures var run := RunFrom(response, outputPath, retries, attempt);
            && attempt <= run.attempts
            && (attempt < retries ==> attempt < run.attempts <= retries)
            && (attempt >= retries ==> run == Run(NoImage, attempt))
            && (forall k :: attempt <= k < run.attempts - 1 ==> response(k).RequestFailed?)
            && (run.result.Saved? ==> run.result.path == outputPath
                                       && response(run.attempts - 1).Responded?
                                       && IsImageType(response(run.attempts - 1).contentType))
    decreases retries - attempt
  {
    if attempt < retries && response(attempt).RequestFailed? && attempt < retries - 1 {
      RunFromBounds(response, outputPath, retries, attempt + 1);
    }
  }

  /** At most `retries` requests; only request exceptions lead to another one;
      a saved image is saved where it was asked to be. */
  lemma RunBounds(response: nat -> Attempt, outputPath: string, retries: int)
    ensures var run := RunAll(response, outputPath, retries);
            && run.attempts <= (if retries < 0 then 0 else retries)
            && (forall k :: 0 <= k < run.attempts - 1 ==> response(k).RequestFailed?)
            && (run.result.Saved? ==> run.result.path == outputPath)
  {
    RunFromBounds(response, outputPath, retries, 0);
  }

  /** With no retries allowed, no request is sent and nothing is returned. */
  lemma NoRetriesNoAttempt(response: nat -> Attempt, outputPath: string, retries: int)
    requires retries <= 0
    ensures RunAll(response, outputPath, retries) == Run(NoImage, 0)
  {
  }

  /** A reply that is not an image, or an image PIL cannot read, ends the loop at once. */
  lemma BadReplyNotRetried(response: nat -> Attempt, outputPath: string, retries: int)
    requires retries > 0 && response(0).Responded?
    requires !IsImageType(response(0).contentType) || response(0).image == Unidentified
    ensures RunAll(response, outputPath, retries) == Run(NoImage, 1)
  {
  }

  /** When every request fails, all of them are sent and the result is None. */
  lemma {:induction false} AllFailuresExhaust(response: nat -> Attempt, outputPath: string, retries: int, attempt: nat)
    requires attempt < retries
    requires forall k :: attempt <= k < retries ==> response(k).RequestFailed?
    ensures RunFrom(response, outputPath, retries, attempt) == Run(NoImage, retries)
    decreases retries - attempt
  {
    assert response(attempt).RequestFailed?;
    if attempt < retries - 1 {
      AllFailuresExhaust(response, outputPath, retries, attempt + 1);
    }
  }

  // ---------------------------------------------------------------------
  // main
  // ---------------------------------------------------------------------

  const OutputDir := "output/generatedImage"

  /** `os.path.join(output_dir, f"generated_{clean_filename(prompt)}.png")`. */
  function OutputPath(prompt: string): string {
    OutputDir + "/" + "generated_" + CleanFilename(prompt) + ".png"
  }

  /** The default `retries` of `generate_pollinations_image`, which `main` uses. */
  const DefaultRetries := 3

  /** One call of `generate_pollinations_image` made by `main`, for a prompt
      and the output path made from it. */
  datatype Request = Request(prompt: string)
  {
    function Path(): string { OutputPath(prompt) }
  }

  /** How the `while True` loop ends: "exit" was typed, the input ran out
      (`input` raises EOFError), or a call raised an exception that nothing
      in `main` catches. */
  datatype Ending = Exited | InputEnded | CallRaised

  /** The session: the calls made, and how it ended. */
  datatype Session = Session(requests: seq<Request>, ending: Ending)

  /** `not prompt.strip()`: nothing but whitespace. */
  predicate IsBlank(prompt: string) {
    forall i :: 0 <= i < |prompt| ==> IsSpace(prompt[i])
  }

  lemma BlankIsEmptyStrip(prompt: string)
    ensures IsBlank(prompt) <==> Strip(prompt) == ""
  {
  }

  predicate IsExit(prompt: string) {
    Lower(prompt) == "exit"
  }

  /** The call made on turn `k`, for a prompt that is neither "exit" nor blank. */
  function TurnRequest(prompts: seq<string>, k: nat): Request
    requires k < |prompts|
  {
    Request(prompts[k])
  }

  /** The call on turn `k` lets an exception escape; `outcomes(k)` is what
      that call of `generate_pollinations_image` returns or raises. */
  predicate TurnRaises(prompts: seq<string>, outcomes: nat -> Generated, k: nat)
    requires k < |prompts|
  {
    !IsExit(prompts[k]) && !IsBlank(prompts[k])
    && outcomes(k).Raised?
  }

  /** The session from turn `i` on. */
  function SessionFrom(prompts: seq<string>, outcomes: nat -> Generated, i: nat): Session
    requires i <= |prompts|
    decreases |prompts| - i
  {
    if i == |prompts| then Session([], InputEnded)
    else if IsExit(prompts[i]) then Session([], Exited)
    else if IsBlank(prompts[i]) then SessionFrom(prompts, outcomes, i + 1)
    else if TurnRaises(prompts, outcomes, i) then Session([TurnRequest(prompts, i)], CallRaised)
    else
      var rest := SessionFrom(prompts, outcomes, i + 1);
      Session([TurnRequest(prompts, i)] + rest.requests, rest.ending)
  }

  function SessionOf(prompts: seq<string>, outcomes: nat -> Generated): Session {
    SessionFrom(prompts, outcomes, 0)
  }

  /** What each turn's call returns when `replies(k)` are the replies to the
      requests of the call on turn `k`. */
  function TurnOutcomes(prompts: seq<string>, replies: nat -> nat -> Attempt): nat -> Generated {
    (k: nat) => if k < |prompts| then RunAll(replies(k), OutputPath(prompts[k]), DefaultRetries).result else NoImage
  }

  /** The `while True` loop of `main`, reading one prompt per turn and calling
      `generate_pollinations_image` for each non-blank one. */
  method PromptLoop(prompts: seq<string>, replies: nat -> nat -> Attempt)
    returns (requests: seq<Request>, ending: Ending)
    ensures Session(requests, ending) == SessionOf(prompts, TurnOutcomes(prompts, replies))
  {
    ghost var outcomes := TurnOutcomes(prompts, replies);
    requests := [];
    var i := 0;
    while i < |prompts|
      invariant i <= |prompts|
      invariant SessionOf(prompts, outcomes) == Session(requests + SessionFrom(prompts, outcomes, i).requests,
                                                       SessionFrom(prompts, outcomes, i).ending)
    {
      var prompt := prompts[i];
      if IsExit(prompt) {
        assert requests + [] == requests;
        return requests, Exited;
      }
      if !IsBlank(prompt) {
        var path := OutputPath(prompt);
        var result, _, _ := GenerateImage(replies(i), path, DefaultRetries);
        assert result == outcomes(i);
        ghost var tail := SessionFrom(prompts, outcomes, i + 1);
        if result.Raised? {
          return requests + [Request(prompt)], CallRaised;
        }
        ConcatAssoc(requests, [Request(prompt)], tail.requests);
        requests := requests + [Request(prompt)];
      }
      i := i + 1;
    }
    assert requests + [] == requests;
    return requests, InputEnded;
  }

  /** No call before turn `k` raised. */
  predicate NoRaiseBefore(prompts: seq<string>, outcomes: nat -> Generated, i: nat, k: nat)
    requires i <= k <= |prompts|
  {
    forall j :: i <= j < k ==> !TurnRaises(prompts, outcomes, j)
  }

  /** Some turn from `i` on reads "exit" before any call raised. */
  predicate ExitReached(prompts: seq<string>, outcomes: nat -> Generated, i: nat)
    requires i <= |prompts|
  {
    exists k :: i <= k < |prompts| && IsExit(prompts[k]) && NoRaiseBefore(prompts, outcomes, i, k)
  }

  /** A turn that neither exits nor raises passes the question on to the next turn. */
  lemma ExitReachedStep(prompts: seq<string>, outcomes: nat -> Generated, i: nat)
    requires i < |prompts| && !IsExit(prompts[i]) && !TurnRaises(prompts, outcomes, i)
    ensures ExitReached(prompts, outcomes, i) <==> ExitReached(prompts, outcomes, i + 1)
  {
    if ExitReached(prompts, outcomes, i) {
      var k :| i <= k < |prompts| && IsExit(prompts[k]) && NoRaiseBefore(prompts, outcomes, i, k);
      assert NoRaiseBefore(prompts, outcomes, i + 1, k);
    }
    if ExitReached(prompts, outcomes, i + 1) {
      var k :| i + 1 <= k < |prompts| && IsExit(prompts[k]) && NoRaiseBefore(prompts, outcomes, i + 1, k);
      assert NoRaiseBefore(prompts, outcomes, i, k);
    }
  }

  /** The session ends by "exit" exactly when one is typed before any call raises. */
  lemma {:induction false} SessionExitedFrom(prompts: seq<string>, outcomes: nat -> Generated, i: nat)
    requires i <= |prompts|
    ensures SessionFrom(prompts, outcomes, i).ending == Exited <==> ExitReached(prompts, outcomes, i)
    decreases |prompts| - i
  {
    if i < |prompts| {
      if IsExit(prompts[i]) {
        assert NoRaiseBefore(prompts, outcomes, i, i);
      } else if !TurnRaises(prompts, outcomes, i) {
        SessionExitedFrom(prompts, outcomes, i + 1);
        ExitReachedStep(prompts, outcomes, i);
      }
    }
  }

  lemma SessionExited(prompts: seq<string>, outcomes: nat -> Generated)
    ensures SessionOf(prompts, outcomes).ending == Exited <==>
              exists k :: 0 <= k < |prompts| && IsExit(prompts[k]) && NoRaiseBefore(prompts, outcomes, 0, k)
  {
    SessionExitedFrom(prompts, outcomes, 0);
  }

  /** Each call is for a typed prompt that is neither blank nor "exit", and goes
      to that prompt's cleaned file name; there are no more calls than turns. */
  lemma {:induction false} SessionRequestsFrom(prompts: seq<string>, outcomes: nat -> Generated, i: nat)
    requires i <= |prompts|
    ensures |SessionFrom(prompts, outcomes, i).requests| <= |prompts| - i
    ensures forall r :: r in SessionFrom(prompts, outcomes, i).requests ==>
              r.prompt in prompts[i..] && !IsBlank(r.prompt) && !IsExit(r.prompt) && r.Path() == OutputPath(r.prompt)
    decreases |prompts| - i
  {
    if i < |prompts| && !IsExit(prompts[i]) {
      SessionRequestsFrom(prompts, outcomes, i + 1);
      assert prompts[i] in prompts[i..];
      forall r | r in SessionFrom(prompts, outcomes, i + 1).requests ensures r.prompt in prompts[i..] {
        assert prompts[i + 1..] == prompts[i..][1..];
      }
    }
  }

  lemma SessionRequests(prompts: seq<string>, outcomes: nat -> Generated)
    ensures |SessionOf(prompts, outcomes).requests| <= |prompts|
    ensures forall r :: r in SessionOf(prompts, outcomes).requests ==>
              r.prompt in prompts && !IsBlank(r.prompt) && !IsExit(r.prompt) && r.Path() == OutputPath(r.prompt)
  {
    SessionRequestsFrom(prompts, outcomes, 0);
    assert prompts[0..] == prompts;
  }

  /** A call that raises ends the session: it is the last call made, and no
      prompt after it is read. */
  lemma {:induction false} RaiseEndsSessionFrom(prompts: seq<string>, outcomes: nat -> Generated, i: nat, k: nat)
    requires i <= k < |prompts| && TurnRaises(prompts, outcomes, k)
    requires forall j :: i <= j < k ==> !IsExit(prompts[j]) && !TurnRaises(prompts, outcomes, j)
    ensures SessionFrom(prompts, outcomes, i).ending == CallRaised
    ensures 0 < |SessionFrom(prompts, outcomes, i).requests| <= k + 1 - i
    ensures var rs := SessionFrom(prompts, outcomes, i).requests; |rs| > 0 ==> rs[|rs| - 1] == TurnRequest(prompts, k)
    decreases k - i
  {
    if i < k {
      RaiseEndsSessionFrom(prompts, outcomes, i + 1, k);
    }
  }

  lemma RaiseEndsSession(prompts: seq<string>, outcomes: nat -> Generated, k: nat)
    requires k < |prompts| && TurnRaises(prompts, outcomes, k)
    requires forall j :: 0 <= j < k ==> !IsExit(prompts[j]) && !TurnRaises(prompts, outcomes, j)
    ensures SessionOf(prompts, outcomes).ending == CallRaised
    ensures var rs := SessionOf(prompts, outcomes).requests;
            |rs| > 0 && rs[|rs| - 1] == TurnRequest(prompts, k) && |rs| <= k + 1
  {
    RaiseEndsSessionFrom(prompts, outcomes, 0, k);
  }

  /** Every call from turn `i` on, in order, when each of them is made. */
  function Sent(prompts: seq<string>, i: nat): seq<Request>
    requires i <= |prompts|
    decreases |prompts| - i
  {
    if i == |prompts| then [] else [TurnRequest(prompts, i)] + Sent(prompts, i + 1)
  }

  lemma {:induction false} SentIndex(prompts: seq<string>, i: nat)
    requires i <= |prompts|
    ensures |Sent(prompts, i)| == |prompts| - i
    ensures forall k :: 0 <= k < |prompts| - i ==> Sent(prompts, i)[k] == TurnRequest(prompts, i + k)
    decreases |prompts| - i
  {
    if i < |prompts| {
      SentIndex(prompts, i + 1);
      forall k | 0 < k < |prompts| - i ensures Sent(prompts, i)[k] == TurnRequest(prompts, i + k) {
        assert Sent(prompts, i)[k] == Sent(prompts, i + 1)[k - 1];
        assert (i + 1) + (k - 1) == i + k;
      }
    }
  }

  /** Without "exit", blank prompts or a call that raises, every prompt is
      sent, in the order typed, until the input runs out. */
  lemma {:induction false} SessionSendsAllFrom(prompts: seq<string>, outcomes: nat -> Generated, i: nat)
    requires i <= |prompts|
    requires forall k :: i <= k < |prompts| ==>
               !IsExit(prompts[k]) && !IsBlank(prompts[k]) && !TurnRaises(prompts, outcomes, k)
    ensures SessionFrom(prompts, outcomes, i) == Session(Sent(prompts, i), InputEnded)
    decreases |prompts| - i
  {
    if i < |prompts| {
      SessionSendsAllFrom(prompts, outcomes, i + 1);
    }
  }

  lemma SessionSendsAll(prompts: seq<string>, outcomes: nat -> Generated)
    requires forall k :: 0 <= k < |prompts| ==>
               !IsExit(prompts[k]) && !IsBlank(prompts[k]) && !TurnRaises(prompts, outcomes, k)
    ensures SessionOf(prompts, outcomes)
            == Session(seq(|prompts|, k requires 0 <= k < |prompts| => Request(prompts[k])), InputEnded)
  {
    SessionSendsAllFrom(prompts, outcomes, 0);
    SentIndex(prompts, 0);
    var sent := seq(|prompts|, k requires 0 <= k < |prompts| => Request(prompts[k]));
    assert Sent(prompts, 0) == sent;
  }

  /** Every call's path lies in the output directory, with a name free of forbidden characters. */
  lemma OutputPathShape(prompt: string)
    ensures StartsWith(OutputPath(prompt), OutputDir + "/generated_")
    ensures EndsWith(OutputPath(prompt), ".png")
    ensures |OutputPath(prompt)| <= |OutputDir| + 1 + |"generated_"| + MaxFilename + |".png"|
  {
    var p := OutputPath(prompt);
    assert p == (OutputDir + "/generated_") + CleanFilename(prompt) + ".png";
    assert p[..|OutputDir + "/generated_"|] == OutputDir + "/generated_";
    assert p[|p| - 4..] == ".png";
  }
}
