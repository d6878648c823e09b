/**
  src/thumbnail_generator.py without Playwright: `format_number` and the
  choice of platform, counters and screenshot selector in
  `generate_image_from_text`. The HTML templates and the rendering are not
  part of the model; `random.choice` and `random.randint` are inputs.
*/
module Thumbnail {

  import opened Outcomes
  import opened PyStr

  // ---------------------------------------------------------------------
  // format_number
  // ---------------------------------------------------------------------

  const Thousand := 1_000
  const Million := 1_000_000

  /** `round(num / unit, 1)` as a count of tenths, for `num` of at least one
      unit; halves round up. The count is within half a tenth of the exact
      quotient: |t / 10 - num / unit| <= 1 / 20. */
  function Tenths(num: int, unit: nat): (t: nat)
    requires unit > 0 && num >= unit
    ensures 20 * num - unit < 2 * t * unit <= 20 * num + unit
  {
    (20 * num + unit) / (2 * unit)
  }

  /** How Python prints a float with one decimal: the integer part, ".", one digit. */
  function DecimalText(t: nat): string {
    NatToString(t / 10) + "." + [DigitChar(t % 10)]
  }

  /** `format_number(num)`: one-decimal M at a million or more, one-decimal K at a
      thousand or more, `str(num)` below. */
  function FormatNumber(num: int): string {
    if num >= Million then DecimalText(Tenths(num, Million)) + "M"
    else if num >= Thousand then DecimalText(Tenths(num, Thousand)) + "K"
    else IntToString(num)
  }

  /** The buckets: "M" exactly from a million, "K" exactly from a thousand below
      a million, and below a thousand the plain integer, ending in a digit. */
  lemma {:induction false} FormatBuckets(num: int)
    ensures EndsWith(FormatNumber(num), "M") <==> num >= Million
    ensures EndsWith(FormatNumber(num), "K") <==> Thousand <= num < Million
    ensures num < Thousand ==> FormatNumber(num) == IntToString(num) && IsDigit(Last(FormatNumber(num)))
  {
    var r := FormatNumber(num);
    if num >= Million {
      var body := DecimalText(Tenths(num, Million));
      assert r[|r| - 1..] == "M";
    } else if num >= Thousand {
      var body := DecimalText(Tenths(num, Thousand));
      assert r[|r| - 1..] == "K";
    } else {
      var digits := if num < 0 then NatToString(-num) else NatToString(num);
      assert r[|r| - 1] == digits[|digits| - 1];
      assert IsDigit(r[|r| - 1]);
      assert r[|r| - 1..] == [r[|r| - 1]];
    }
  }

  function Last(s: string): char
    requires s != []
  {
    s[|s| - 1]
  }

  /** The integer part printed before the "." reads back as the rounded quotient's whole part. */
  lemma DecimalTextParts(t: nat)
    ensures DecimalText(t)[..|NatToString(t / 10)|] == NatToString(t / 10)
    ensures ParseDigits(NatToString(t / 10)) == t / 10
    ensures DecimalText(t)[|DecimalText(t)| - 2] == '.'
    ensures ParseDigits([DecimalText(t)[|DecimalText(t)| - 1]]) == t % 10
  {
    ParseNatToString(t / 10);
    var d := [DigitChar(t % 10)];
    assert ParseDigits(d) == ParseDigits(d[..0]) * 10 + (d[0] as int - '0' as int);
  }

  /** Just under a million is still a thousands value, rounded up to "1000.0K". */
  lemma AlmostAMillion()
    ensures FormatNumber(999_999) == "1000.0K"
  {
    assert Tenths(999_999, Thousand) == 10000;
    assert DigitChar(0) == '0';
    assert NatToString(1) == "1";
    assert NatToString(10) == "10";
    assert NatToString(100) == "100";
    assert NatToString(1000) == "1000";
  }

  /** Both thresholds belong to the larger bucket. */
  lemma Thresholds()
    ensures FormatNumber(Thousand) == "1.0K"
    ensures FormatNumber(Million) == "1.0M"
    ensures FormatNumber(999) == "999"
  {
    assert Tenths(Thousand, Thousand) == 10 && Tenths(Million, Million) == 10;
    assert NatToString(1) == "1" && DigitChar(0) == '0';
    assert NatToString(9) == "9";
    assert NatToString(99) == "99";
  }

  // ---------------------------------------------------------------------
  // platform and counters of generate_image_from_text
  // ---------------------------------------------------------------------

  datatype Platform = X | Facebook

  datatype ThumbnailError = UnsupportedPlatform(name: string)  // ValueError

  /** The parameters the template is filled with, and the element screenshotted. */
  datatype PostSettings = PostSettings(
    platform: Platform,
    likes: string,
    comments: string,
    shares: string,
    selector: string)

  /** The range `random.randint` draws each default counter from. */
  predicate InRange(n: int, lo: int, hi: int) {
    lo <= n <= hi
  }

  /** The list `random.choice` picks a platform from. */
  const PlatformNames: seq<string> := ["x", "facebook"]

  /** `platform` after the default: `pick` stands for `random.choice`. */
  function PlatformName(platform: Option<string>, pick: nat): (name: string)
    ensures platform.None? ==> name in PlatformNames
  {
    match platform
    case Some(p) => p
    case None => PlatformNames[pick % |PlatformNames|]
  }

  /** A counter that was passed is used as it is; a missing one is the formatted draw. */
  function Counter(given: Option<string>, draw: int): string {
    match given
    case Some(c) => c
    case None => FormatNumber(draw)
  }

  /**
    The setup of `generate_image_from_text` before rendering: the platform
    default, the counter defaults, the template choice ("x" or "facebook",
    anything else a ValueError), and the selector of the card screenshotted.
  */
  function Settings(platform: Option<string>, pick: nat,
                    likes: Option<string>, comments: Option<string>, shares: Option<string>,
                    likesDraw: int, commentsDraw: int, sharesDraw: int): (r: Result<PostSettings, ThumbnailError>)
    ensures r.Err? <==> platform.Some? && platform.value !in PlatformNames
    ensures r.Err? ==> r.error == UnsupportedPlatform(platform.value)
    ensures r.Ok? ==> (r.value.platform == X <==> PlatformName(platform, pick) == "x")
    ensures r.Ok? ==> r.value.selector == (if r.value.platform == X then ".tweet-card" else ".fb-card")
    ensures r.Ok? ==>
              && r.value.likes == Counter(likes, likesDraw)
              && r.value.comments == Counter(comments, commentsDraw)
              && r.value.shares == Counter(shares, sharesDraw)
  {
    var name := PlatformName(platform, pick);
    var l := Counter(likes, likesDraw);
    var c := Counter(comments, commentsDraw);
    var s := Counter(shares, sharesDraw);
    if name == "x" then Ok(PostSettings(X, l, c, s, ".tweet-card"))
    else if name == "facebook" then Ok(PostSettings(Facebook, l, c, s, ".fb-card"))
    else Err(UnsupportedPlatform(name))
  }

  /** Without a platform the settings never fail. */
  lemma DefaultPlatformSucceeds(pick: nat, likes: Option<string>, comments: Option<string>, shares: Option<string>,
                                ld: int, cd: int, sd: int)
    ensures Settings(None, pick, likes, comments, shares, ld, cd, sd).Ok?
  {
  }

  /** The default counters: likes and comments always carry a "K"; shares carry
      one from 1000 on and are plain digits below. */
  lemma DefaultCounters(likesDraw: int, commentsDraw: int, sharesDraw: int)
    requires InRange(likesDraw, 20000, 100000)
    requires InRange(commentsDraw, 1000, 10000)
    requires InRange(sharesDraw, 500, 5000)
    ensures EndsWith(Counter(None, likesDraw), "K")
    ensures EndsWith(Counter(None, commentsDraw), "K")
    ensures EndsWith(Counter(None, sharesDraw), "K") <==> sharesDraw >= Thousand
    ensures sharesDraw < Thousand ==> Counter(None, sharesDraw) == NatToString(sharesDraw)
  {
    FormatBuckets(likesDraw);
    FormatBuckets(commentsDraw);
    FormatBuckets(sharesDraw);
  }
}
