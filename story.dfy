/**
  src/story_generator.py without the Gemini client: the 20-word limit on an
  intro, the quota-error test that selects a fallback, and the fallback
  stories. A model call is an input: the text it returns or the message of
  the exception it raises.
*/
module Story {

  import opened Outcomes
  import opened PyStr

  /** The most words an intro may have. */
  const MaxIntroWords := 20

  /** What the model call (and, for a story, saving it) did. */
  datatype Reply =
    | Replied(text: string)    // `response.text`
    | Raised(message: string)  // `str(e)` of the exception caught

  datatype StoryError =
    | MissingApiKey               // ValueError: GEMINI_API_KEY not set or empty
    | GenerationFailed(message: string)  // RuntimeError wrapping a non-quota error

  // ---------------------------------------------------------------------
  // the 20-word limit
  // ---------------------------------------------------------------------

  /**
    The limit applied to a model intro and to the quota fallback: at most 20
    whitespace-separated words leave the text as it is; more become the first
    20 words joined by single spaces, "..." glued to the last.
  */
  function LimitWords(text: string): (r: string)
    ensures |Words(r)| <= MaxIntroWords
    ensures |Words(text)| <= MaxIntroWords ==> r == text
    ensures |Words(text)| > MaxIntroWords ==>
              Words(r) == Words(text)[..MaxIntroWords - 1]
                          + [Words(text)[MaxIntroWords - 1] + "..."]
  {
    var ws := Words(text);
    if |ws| > MaxIntroWords then
      var r := Join(" ", ws[..MaxIntroWords]) + "...";
      TruncatedWords(ws);
      r
    else
      text
  }

  /** The words of the truncated text: the first 19 words and the 20th with "..." on it. */
  lemma TruncatedWords(ws: seq<string>)
    requires |ws| > MaxIntroWords
    requires forall k :: 0 <= k < |ws| ==> IsWord(ws[k])
    ensures Words(Join(" ", ws[..MaxIntroWords]) + "...")
            == ws[..MaxIntroWords - 1] + [ws[MaxIntroWords - 1] + "..."]
  {
    var first := ws[..MaxIntroWords];
    JoinAppendLast(" ", first, "...");
    var parts := first[..|first| - 1] + [first[|first| - 1] + "..."];
    assert first[..|first| - 1] == ws[..MaxIntroWords - 1];
    var last := ws[MaxIntroWords - 1] + "...";
    assert IsWord(last) by {
      assert IsWord(ws[MaxIntroWords - 1]);
      forall i | 0 <= i < |last| ensures !IsSpace(last[i]) {
        if i >= |ws[MaxIntroWords - 1]| {
          assert last[i] == '.';
        }
      }
    }
    assert forall k :: 0 <= k < |parts| ==> IsWord(parts[k]) by {
      forall k | 0 <= k < |parts| ensures IsWord(parts[k]) {
        if k < |parts| - 1 {
          assert parts[k] == ws[k];
        }
      }
    }
    WordsOfJoin(parts);
  }

  /** Limiting twice is limiting once. */
  lemma LimitWordsIdempotent(text: string)
    ensures LimitWords(LimitWords(text)) == LimitWords(text)
  {
  }

  // ---------------------------------------------------------------------
  // quota errors
  // ---------------------------------------------------------------------

  /** `"429" in str(e) or "quota" in str(e).lower()`. */
  predicate IsQuotaError(message: string) {
    Contains(message, "429") || Contains(Lower(message), "quota")
  }

  /** The test ignores case: it gives the same answer on the lower-cased message. */
  lemma QuotaErrorIgnoresCase(message: string)
    ensures IsQuotaError(Lower(message)) == IsQuotaError(message)
  {
    LowerIdempotent(message);
    LowerDigits(message, "429");
  }

  lemma LowerIdempotent(s: string)
    ensures Lower(Lower(s)) == Lower(s)
  {
  }

  /** A pattern of digits occurs in a text exactly when it occurs in the lower-cased text. */
  lemma LowerDigits(s: string, digits: string)
    requires forall i :: 0 <= i < |digits| ==> IsDigit(digits[i])
    ensures Contains(Lower(s), digits) == Contains(s, digits)
  {
    if Contains(s, digits) {
      var i: nat :| i <= |s| && MatchAt(s, digits, i);
      forall k | 0 <= k < |digits| ensures Lower(s)[i + k] == digits[k] {
        assert s[i + k] == digits[k];
      }
      assert Lower(s)[i..i + |digits|] == digits;
      assert MatchAt(Lower(s), digits, i);
    }
    if Contains(Lower(s), digits) {
      var i: nat :| i <= |Lower(s)| && MatchAt(Lower(s), digits, i);
      forall k | 0 <= k < |digits| ensures s[i + k] == digits[k] {
        assert Lower(s)[i + k] == digits[k];
        assert LowerChar(s[i + k]) == digits[k];
      }
      assert s[i..i + |digits|] == digits;
      assert MatchAt(s, digits, i);
    }
  }

  /** "quota" in any case anywhere in the message makes it a quota error. */
  lemma QuotaInAnyCase(a: string, q: string, b: string)
    requires Lower(q) == "quota"
    ensures IsQuotaError(a + q + b)
  {
    LowerConcat(a + q, b);
    LowerConcat(a, q);
    var l := Lower(a + q + b);
    assert l == Lower(a) + "quota" + Lower(b);
    assert l[|a|..|a| + 5] == "quota";
    assert MatchAt(l, "quota", |a|);
  }

  lemma QuotaExamples()
    ensures IsQuotaError("429 Resource has been exhausted")
    ensures IsQuotaError("You exceeded your current Quota")
  {
    assert MatchAt("429 Resource has been exhausted", "429", 0);
    QuotaInAnyCase("You exceeded your current ", "Quota", "");
    assert "You exceeded your current " + "Quota" + "" == "You exceeded your current Quota";
  }

  // ---------------------------------------------------------------------
  // generate_intro_text and generate_story
  // ---------------------------------------------------------------------

  predicate HasKey(apiKey: Option<string>) {
    apiKey.Some? && apiKey.value != ""
  }

  /**
    `generate_intro_text`: no key is a ValueError before any call; a reply is
    limited to 20 words; a quota error falls back to the story limited to 20
    words; any other error is a RuntimeError.
  */
  function GenerateIntroText(apiKey: Option<string>, story: string, reply: Reply): (r: Result<string, StoryError>)
    ensures !HasKey(apiKey) ==> r == Err(MissingApiKey)
    ensures r.Ok? ==> |Words(r.value)| <= MaxIntroWords
    ensures r.Err? <==> !HasKey(apiKey) || (reply.Raised? && !IsQuotaError(reply.message))
    ensures HasKey(apiKey) && reply.Raised? && !IsQuotaError(reply.message) ==>
              r == Err(GenerationFailed(reply.message))
    ensures HasKey(apiKey) && reply.Raised? && IsQuotaError(reply.message) ==>
              r == Ok(LimitWords(story))
    ensures HasKey(apiKey) && reply.Replied? ==> r == Ok(LimitWords(reply.text))
  {
    if !HasKey(apiKey) then Err(MissingApiKey)
    else match reply
      case Replied(text) => Ok(LimitWords(text))
      case Raised(message) =>
        if IsQuotaError(message) then Ok(LimitWords(story)) else Err(GenerationFailed(message))
  }

  /** A quota fallback of a short story is the story itself. */
  lemma ShortStoryIsOwnIntro(apiKey: Option<string>, story: string, message: string)
    requires HasKey(apiKey) && IsQuotaError(message) && |Words(story)| <= MaxIntroWords
    ensures GenerateIntroText(apiKey, story, Raised(message)) == Ok(story)
  {
  }

  /** `get_fallback_stories`: the five stories used when the quota is exhausted. */
  const FallbackStories: seq<string> := [
    "The old teddy bear sat on the shelf, watching children play for decades. One night, it whispered 'I remember you all.' The next morning, all the children's photos were facing the wall.",
    "Sarah found a diary in her new house that documented her daily routine perfectly. The entries were dated three months into the future. The last entry simply read: 'She found the diary today.'",
    "The smart doorbell kept recording even when unplugged. Every video showed the same figure approaching the door. The timestamp was always 3:33 AM, but the figure never knocked.",
    "My grandmother's recipe called for 'a pinch of love and a dash of memories.' When I made it exactly as written, I could taste conversations from fifty years ago. Some of them were about me.",
    "The GPS kept redirecting me to an empty field despite multiple route requests. When I finally arrived, there was a 'For Sale' sign with my phone number. I had never seen this place before."
  ]

  /**
    `generate_story`: no key is a ValueError; a reply is returned as it is; a
    quota error picks one of the fallback stories (`pick` stands for
    `random.choice`); any other error is a RuntimeError.
  */
  function GenerateStory(apiKey: Option<string>, reply: Reply, pick: nat): (r: Result<string, StoryError>)
    ensures !HasKey(apiKey) ==> r == Err(MissingApiKey)
    ensures r.Ok? ==> (reply.Replied? && r.value == reply.text) || r.value in FallbackStories
    ensures r.Err? <==> !HasKey(apiKey) || (reply.Raised? && !IsQuotaError(reply.message))
    ensures HasKey(apiKey) && reply.Raised? && IsQuotaError(reply.message) ==> r.Ok? && r.value in FallbackStories
    ensures HasKey(apiKey) && reply.Raised? && !IsQuotaError(reply.message) ==>
              r == Err(GenerationFailed(reply.message))
    ensures HasKey(apiKey) && reply.Replied? ==> r == Ok(reply.text)
  {
    if !HasKey(apiKey) then Err(MissingApiKey)
    else match reply
      case Replied(text) => Ok(text)
      case Raised(message) =>
        if IsQuotaError(message) then Ok(FallbackStories[pick % |FallbackStories|])
        else Err(GenerationFailed(message))
  }

  /** Every fallback story can be picked. */
  lemma EveryFallbackReachable(apiKey: Option<string>, message: string, k: nat)
    requires HasKey(apiKey) && IsQuotaError(message) && k < |FallbackStories|
    ensures GenerateStory(apiKey, Raised(message), k) == Ok(FallbackStories[k])
  {
  }
}
