/**
  src/utils/telegram_notifier.py without HTTP: the IP line of `get_ip_info`
  over the decoded JSON, the configuration check of `TelegramNotifier`, the
  Markdown escaping of the details, the message `notify` builds, and the
  request `send_message` would post.
*/
module Telegram {

  import opened Outcomes
  import opened PyStr

  // ---------------------------------------------------------------------
  // get_ip_info
  // ---------------------------------------------------------------------

  const NotAvailable := "N/A"
  const IpFailure := "Could not retrieve IP info"

  /** `data.get(key, "N/A")`. */
  function Field(data: map<string, string>, key: string): string {
    if key in data then data[key] else NotAvailable
  }

  /** `get_ip_info` given the decoded reply, or None when the request raised. */
  function IpInfo(reply: Option<map<string, string>>): (r: string)
    ensures reply.None? ==> r == IpFailure
  {
    match reply
    case None => IpFailure
    case Some(data) =>
      Field(data, "ip") + " (" + Field(data, "city") + ", " + Field(data, "country") + ")"
  }

  /** A successful lookup always ends with ")", so it is never the failure text. */
  lemma IpInfoDistinct(data: map<string, string>)
    ensures IpInfo(Some(data))[|IpInfo(Some(data))| - 1] == ')'
    ensures IpInfo(Some(data)) != IpFailure
  {
    assert IpFailure[|IpFailure| - 1] == 'o';
  }

  /** Missing keys fall back to "N/A" one by one. */
  lemma IpInfoDefaults()
    ensures IpInfo(Some(map[])) == "N/A (N/A, N/A)"
    ensures IpInfo(Some(map["ip" := "1.2.3.4"])) == "1.2.3.4 (N/A, N/A)"
  {
  }

  // ---------------------------------------------------------------------
  // TelegramNotifier.__init__
  // ---------------------------------------------------------------------

  const TokenPlaceholder := "YOUR_TELEGRAM_BOT_TOKEN"
  const ChatIdPlaceholder := "YOUR_TELEGRAM_CHAT_ID"

  datatype ConfigError =
    | TokenNotConfigured   // ValueError about the token
    | ChatIdNotConfigured  // ValueError about the chat id

  /** A constructed notifier: the two configured values. */
  datatype Notifier = Notifier(token: string, chatId: string)

  /** A value counts as configured when it is set, non-empty and free of the placeholder. */
  predicate Configured(value: Option<string>, placeholder: string) {
    value.Some? && value.value != "" && !Contains(value.value, placeholder)
  }

  /** `TelegramNotifier()`: the token is checked first, then the chat id. */
  function NewNotifier(token: Option<string>, chatId: Option<string>): (r: Result<Notifier, ConfigError>)
    ensures r.Ok? <==> Configured(token, TokenPlaceholder) && Configured(chatId, ChatIdPlaceholder)
    ensures !Configured(token, TokenPlaceholder) ==> r == Err(TokenNotConfigured)
    ensures Configured(token, TokenPlaceholder) && !Configured(chatId, ChatIdPlaceholder) ==>
              r == Err(ChatIdNotConfigured)
    ensures r.Ok? ==> r.value == Notifier(token.value, chatId.value)
  {
    if !Configured(token, TokenPlaceholder) then Err(TokenNotConfigured)
    else if !Configured(chatId, ChatIdPlaceholder) then Err(ChatIdNotConfigured)
    else Ok(Notifier(token.value, chatId.value))
  }

  /** A value still holding the placeholder is refused wherever the placeholder stands. */
  lemma PlaceholderRefused(pre: string, post: string, chatId: Option<string>)
    ensures NewNotifier(Some(pre + TokenPlaceholder + post), chatId) == Err(TokenNotConfigured)
  {
    var t := pre + TokenPlaceholder + post;
    assert t[|pre|..|pre| + |TokenPlaceholder|] == TokenPlaceholder;
    assert MatchAt(t, TokenPlaceholder, |pre|);
  }

  /** What `send_message` posts. */
  datatype SendRequest = SendRequest(url: string, chatId: string, text: string, parseMode: string)

  function SendMessage(n: Notifier, message: string): SendRequest {
    SendRequest("https://api.telegram.org/bot" + n.token + "/sendMessage", n.chatId, message, "Markdown")
  }

  // ---------------------------------------------------------------------
  // Markdown escaping
  // ---------------------------------------------------------------------

  /** The characters the details are escaped for. */
  predicate IsMarkdownSpecial(c: char) {
    c == '_' || c == '*' || c == '[' || c == ']'
  }

  /** The chained `replace` calls of `notify`, each on the result of the previous one. */
  function EscapeMarkdown(details: string): string {
    Replace(Replace(Replace(Replace(details, "_", "\\_"), "*", "\\*"), "[", "\\["), "]", "\\]")
  }

  /** The reference definition: a backslash before each special character, the rest kept. */
  function EscapeChars(s: string): string {
    if s == [] then []
    else (if IsMarkdownSpecial(s[0]) then ['\\', s[0]] else [s[0]]) + EscapeChars(s[1..])
  }

  /** One-character `replace`: each occurrence of `c` becomes `rep`. */
  function ReplaceChar(s: string, c: char, rep: string): string {
    if s == [] then [] else (if s[0] == c then rep else [s[0]]) + ReplaceChar(s[1..], c, rep)
  }

  lemma {:induction false} ReplaceSingle(s: string, c: char, rep: string)
    ensures Replace(s, [c], rep) == ReplaceChar(s, c, rep)
  {
    if s != [] {
      assert s[..1] == [c] <==> s[0] == c;
      ReplaceSingle(s[1..], c, rep);
    }
  }

  lemma {:induction false} ReplaceCharConcat(a: string, b: string, c: char, rep: string)
    ensures ReplaceChar(a + b, c, rep) == ReplaceChar(a, c, rep) + ReplaceChar(b, c, rep)
  {
    if a != [] {
      assert (a + b)[1..] == a[1..] + b;
      ReplaceCharConcat(a[1..], b, c, rep);
    } else {
      assert a + b == b;
    }
  }

  function Chain(s: string): string {
    ReplaceChar(ReplaceChar(ReplaceChar(ReplaceChar(s, '_', "\\_"), '*', "\\*"), '[', "\\["), ']', "\\]")
  }

  lemma ChainConcat(a: string, b: string)
    ensures Chain(a + b) == Chain(a) + Chain(b)
  {
    var a1, b1 := ReplaceChar(a, '_', "\\_"), ReplaceChar(b, '_', "\\_");
    ReplaceCharConcat(a, b, '_', "\\_");
    var a2, b2 := ReplaceChar(a1, '*', "\\*"), ReplaceChar(b1, '*', "\\*");
    ReplaceCharConcat(a1, b1, '*', "\\*");
    var a3, b3 := ReplaceChar(a2, '[', "\\["), ReplaceChar(b2, '[', "\\[");
    ReplaceCharConcat(a2, b2, '[', "\\[");
    ReplaceCharConcat(a3, b3, ']', "\\]");
  }

  lemma ReplaceCharTwo(x: char, y: char, c: char, rep: string)
    requires x != c && y != c
    ensures ReplaceChar([x, y], c, rep) == [x, y]
  {
    assert [x, y][1..] == [y];
    ReplaceCharOne(y, c, rep);
    assert ReplaceChar([x, y], c, rep) == [x] + ReplaceChar([y], c, rep);
  }

  lemma ReplaceCharOne(x: char, c: char, rep: string)
    ensures ReplaceChar([x], c, rep) == if x == c then rep else [x]
  {
    assert [x][1..] == [];
  }

  lemma ChainOne(x: char)
    ensures Chain([x]) == EscapeChars([x])
  {
    assert [x][1..] == [];
    ReplaceCharOne(x, '_', "\\_");
    if x == '_' {
      ReplaceCharTwo('\\', '_', '*', "\\*");
      ReplaceCharTwo('\\', '_', '[', "\\[");
      ReplaceCharTwo('\\', '_', ']', "\\]");
    } else {
      ReplaceCharOne(x, '*', "\\*");
      if x == '*' {
        ReplaceCharTwo('\\', '*', '[', "\\[");
        ReplaceCharTwo('\\', '*', ']', "\\]");
      } else {
        ReplaceCharOne(x, '[', "\\[");
        if x == '[' {
          ReplaceCharTwo('\\', '[', ']', "\\]");
        } else {
          ReplaceCharOne(x, ']', "\\]");
        }
      }
    }
  }

  lemma {:induction false} ChainIsEscape(s: string)
    ensures Chain(s) == EscapeChars(s)
  {
    if s != [] {
      assert s == [s[0]] + s[1..];
      ChainConcat([s[0]], s[1..]);
      ChainOne(s[0]);
      ChainIsEscape(s[1..]);
    }
  }

  /** The chained replaces escape each special character once: no replacement
      sees the backslash an earlier one inserted as something to escape. */
  lemma EscapeMarkdownIsEscapeChars(details: string)
    ensures EscapeMarkdown(details) == EscapeChars(details)
  {
    var s1 := ReplaceChar(details, '_', "\\_");
    ReplaceSingle(details, '_', "\\_");
    var s2 := ReplaceChar(s1, '*', "\\*");
    ReplaceSingle(s1, '*', "\\*");
    var s3 := ReplaceChar(s2, '[', "\\[");
    ReplaceSingle(s2, '[', "\\[");
    ReplaceSingle(s3, ']', "\\]");
    ChainIsEscape(details);
  }

  /** The escaped text grows by one backslash per special character. */
  lemma {:induction false} EscapeLength(s: string)
    ensures |EscapeChars(s)| == |s| + Count(s, '_') + Count(s, '*') + Count(s, '[') + Count(s, ']')
  {
    if s != [] {
      EscapeLength(s[1..]);
    }
  }

  /** Text without special characters is left as it is. */
  lemma {:induction false} EscapeUnchanged(s: string)
    requires forall i :: 0 <= i < |s| ==> !IsMarkdownSpecial(s[i])
    ensures EscapeChars(s) == s
  {
    if s != [] {
      EscapeUnchanged(s[1..]);
    }
  }

  /** Reading Markdown back: a backslash before a special character is dropped. */
  function Unescape(s: string): string {
    if s == [] then []
    else if |s| >= 2 && s[0] == '\\' && IsMarkdownSpecial(s[1]) then [s[1]] + Unescape(s[2..])
    else [s[0]] + Unescape(s[1..])
  }

  lemma EscapeHead(s: string)
    ensures EscapeChars(s) == [] || !IsMarkdownSpecial(EscapeChars(s)[0])
  {
    if s != [] && IsMarkdownSpecial(s[0]) {
      assert EscapeChars(s)[0] == '\\';
    }
  }

  /** Escaping loses nothing: unescaping gives the details back. */
  lemma {:induction false} UnescapeEscape(s: string)
    ensures Unescape(EscapeChars(s)) == s
  {
    if s != [] {
      var e := EscapeChars(s[1..]);
      UnescapeEscape(s[1..]);
      EscapeHead(s[1..]);
      if IsMarkdownSpecial(s[0]) {
        assert EscapeChars(s) == ['\\', s[0]] + e;
        assert (['\\', s[0]] + e)[2..] == e;
      } else {
        assert EscapeChars(s) == [s[0]] + e;
        assert ([s[0]] + e)[1..] == e;
      }
    }
  }

  lemma {:induction false} EscapeNoLineBreak(s: string)
    requires NoLineBreak(s)
    ensures NoLineBreak(EscapeChars(s))
  {
    if s != [] {
      EscapeNoLineBreak(s[1..]);
      var head := if IsMarkdownSpecial(s[0]) then ['\\', s[0]] else [s[0]];
      assert NoLineBreak(head);
      NoLineBreakConcat(head, EscapeChars(s[1..]));
    }
  }

  // ---------------------------------------------------------------------
  // notify
  // ---------------------------------------------------------------------

  const DefaultEmoji := "\U{2699}\U{FE0F}"

  /** `emojis.get(status, "⚙️")`. */
  function StatusEmoji(status: string): string {
    if status == "Started" then "\U{1F680}"
    else if status == "Completed" then "\U{2705}"
    else if status == "Failed" then "\U{274C}"
    else if status == "Info" then "\U{2139}\U{FE0F}"
    else DefaultEmoji
  }

  /** Only the four known statuses have their own emoji. */
  lemma StatusEmojiTable(status: string)
    ensures StatusEmoji(status) == DefaultEmoji <==> status !in {"Started", "Completed", "Failed", "Info"}
    ensures NoLineBreak(StatusEmoji(status))
  {
  }

  const StatusLabel := " *Status:* "
  const DetailsLabel := "\U{1F4DD} *Details:* "
  const LocationLabel := "\U{1F4CD} *Location:* "

  function StatusLine(status: string): string {
    StatusEmoji(status) + StatusLabel + status
  }

  function DetailsLine(details: string): string {
    DetailsLabel + EscapeMarkdown(details)
  }

  function LocationLine(ipInfo: string): string {
    LocationLabel + ipInfo
  }

  /** The lines of the message: the bold event, a blank line, the status, the
      details only when there are any, and the location last. */
  function MessageLines(event: string, status: string, details: string, ipInfo: string): seq<string> {
    ["*" + event + "*", "", StatusLine(status)]
    + (if details != "" then [DetailsLine(details)] else [])
    + [LocationLine(ipInfo)]
  }

  /** `notify` building the message by successive `+=`. */
  method ComposeMessage(event: string, status: string, details: string, ipInfo: string) returns (message: string)
    ensures message == Join("\n", MessageLines(event, status, details, ipInfo))
  {
    message := "*" + event + "*\n\n";
    message := message + StatusLine(status) + "\n";
    if details != "" {
      var escaped := EscapeMarkdown(details);
      message := message + DetailsLabel + escaped + "\n";
    }
    message := message + LocationLine(ipInfo);
    MessageIsJoin(event, status, details, ipInfo);
  }

  lemma MessageIsJoin(event: string, status: string, details: string, ipInfo: string)
    ensures Join("\n", MessageLines(event, status, details, ipInfo))
            == "*" + event + "*\n\n" + StatusLine(status) + "\n"
               + (if details != "" then DetailsLine(details) + "\n" else "")
               + LocationLine(ipInfo)
  {
    var h, s, l := "*" + event + "*", StatusLine(status), LocationLine(ipInfo);
    HeaderJoin(event);
    if details != "" {
      var d := DetailsLine(details);
      assert MessageLines(event, status, details, ipInfo) == [h, "", s, d, l];
      JoinFive("\n", h, "", s, d, l);
    } else {
      assert MessageLines(event, status, details, ipInfo) == [h, "", s, l];
      JoinFour("\n", h, "", s, l);
    }
  }

  lemma HeaderJoin(event: string)
    ensures ("*" + event + "*") + "\n" + "" + "\n" == "*" + event + "*\n\n"
  {
  }

  lemma JoinFour(sep: string, a: string, b: string, c: string, d: string)
    ensures Join(sep, [a, b, c, d]) == a + sep + b + sep + c + sep + d
  {
    assert [a, b, c, d][1..] == [b, c, d] && [b, c, d][1..] == [c, d] && [c, d][1..] == [d];
    assert Join(sep, [c, d]) == c + sep + d;
    assert Join(sep, [b, c, d]) == b + sep + (c + sep + d);
    assert Join(sep, [a, b, c, d]) == a + sep + (b + sep + (c + sep + d));
  }

  lemma JoinFive(sep: string, a: string, b: string, c: string, d: string, e: string)
    ensures Join(sep, [a, b, c, d, e]) == a + sep + b + sep + c + sep + d + sep + e
  {
    assert [a, b, c, d, e][1..] == [b, c, d, e];
    JoinFour(sep, b, c, d, e);
    assert Join(sep, [a, b, c, d, e]) == a + sep + (b + sep + c + sep + d + sep + e);
  }

  /** When none of the parts holds a line break, the message splits back into
      exactly its lines: four without details, five with. */
  lemma MessageSplits(event: string, status: string, details: string, ipInfo: string)
    requires NoLineBreak(event) && NoLineBreak(status) && NoLineBreak(details) && NoLineBreak(ipInfo)
    ensures SplitLines(Join("\n", MessageLines(event, status, details, ipInfo)))
            == MessageLines(event, status, details, ipInfo)
    ensures |MessageLines(event, status, details, ipInfo)| == if details != "" then 5 else 4
  {
    var ls := MessageLines(event, status, details, ipInfo);
    MessageLinesOneLine(event, status, details, ipInfo);
    SplitLinesOfJoin(ls);
  }

  /** No line of the message breaks when none of its parts holds a line break. */
  lemma MessageLinesOneLine(event: string, status: string, details: string, ipInfo: string)
    requires NoLineBreak(event) && NoLineBreak(status) && NoLineBreak(details) && NoLineBreak(ipInfo)
    ensures var ls := MessageLines(event, status, details, ipInfo);
            forall k :: 0 <= k < |ls| ==> NoLineBreak(ls[k])
  {
    FixedPartsOneLine();
    StatusEmojiTable(status);
    NoLineBreakConcat("*", event);
    NoLineBreakConcat("*" + event, "*");
    NoLineBreakConcat(StatusEmoji(status), StatusLabel);
    NoLineBreakConcat(StatusEmoji(status) + StatusLabel, status);
    NoLineBreakConcat(LocationLabel, ipInfo);
    if details != "" {
      EscapeMarkdownIsEscapeChars(details);
      EscapeNoLineBreak(details);
      NoLineBreakConcat(DetailsLabel, EscapeMarkdown(details));
    }
  }

  lemma FixedPartsOneLine()
    ensures NoLineBreak("*") && NoLineBreak("") && NoLineBreak(StatusLabel)
    ensures NoLineBreak(LocationLabel) && NoLineBreak(DetailsLabel)
  {
  }

  /** `notify` after `get_ip_info`: the message is built first; constructing the
      notifier may then raise; otherwise the message is posted with the
      notifier's token and chat id. */
  function Notify(event: string, status: string, details: string, ipInfo: string,
                  token: Option<string>, chatId: Option<string>): (r: Result<SendRequest, ConfigError>)
    ensures r.Ok? <==> NewNotifier(token, chatId).Ok?
    ensures r.Ok? ==> r.value.text == Join("\n", MessageLines(event, status, details, ipInfo))
                      && r.value.chatId == chatId.value && r.value.parseMode == "Markdown"
  {
    var message := Join("\n", MessageLines(event, status, details, ipInfo));
    match NewNotifier(token, chatId)
    case Ok(n) => Ok(SendMessage(n, message))
    case Err(e) => Err(e)
  }
}
