/**
 * The two transcript renderings of a thread's history (transcripts.py): plain
 * text, one line per message, and an HTML page with every user-supplied string
 * escaped. Message timestamps arrive already formatted; the files' UTF-8
 * encoding is not modelled, so contents are strings.
 */
module Transcripts {
  import opened Wrappers
  import opened Text
  import opened Platform

  /** `content.replace("\n", " \\n ")`: each newline becomes space, backslash, `n`, space. */
  function EscapeNewlines(s: string): (r: string)
    ensures '\n' !in r
  {
    if s == [] then [] else (if s[0] == '\n' then " \\n " else [s[0]]) + EscapeNewlines(s[1..])
  }

  /** Replacing the newlines leaves a newline-free text as it is. */
  lemma {:induction false} EscapeNewlinesKeepsPlain(s: string)
    requires '\n' !in s
    ensures EscapeNewlines(s) == s
  {
    if s != [] {
      EscapeNewlinesKeepsPlain(s[1..]);
      assert [s[0]] + s[1..] == s;
    }
  }

  /** `f"[{ts} UTC] {message.author} ({message.author.id}): {content}"` */
  function PlainLine(m: Message): string {
    "[" + m.plainTs + " UTC] " + m.authorName + " (" + IntToString(m.authorId) + "): " + EscapeNewlines(m.content)
  }

  /** The `lines` list of `export_plain`: one line per message, oldest first. */
  function PlainLines(history: seq<Message>): (r: seq<string>)
    ensures |r| == |history|
    ensures forall i :: 0 <= i < |history| ==> r[i] == PlainLine(history[i])
  {
    seq(|history|, i requires 0 <= i < |history| => PlainLine(history[i]))
  }

  /** The text of `export_plain`: the lines joined with newlines. */
  function PlainText(history: seq<Message>): string {
    Join(PlainLines(history), '\n')
  }

  /** `export_plain`: builds the line list in a loop over the history, then joins it. */
  method ExportPlain(history: seq<Message>) returns (text: string)
    ensures text == PlainText(history)
  {
    var lines: seq<string> := [];
    for i := 0 to |history|
      invariant |lines| == i
      invariant forall k :: 0 <= k < i ==> lines[k] == PlainLine(history[k])
    {
      lines := lines + [PlainLine(history[i])];
    }
    assert lines == PlainLines(history);
    text := Join(lines, '\n');
  }

  lemma NoNewlineInNumber(n: int)
    ensures '\n' !in IntToString(n)
  {
    var d := NatToString(if n < 0 then -n else n);
    assert forall k :: 0 <= k < |d| ==> d[k] != '\n';
  }

  /**
   * When no author name or timestamp holds a newline, the plain transcript of
   * a non-empty history splits back into exactly one line per message.
   */
  lemma PlainTextOneLinePerMessage(history: seq<Message>)
    requires |history| >= 1
    requires forall i :: 0 <= i < |history| ==> '\n' !in history[i].authorName && '\n' !in history[i].plainTs
    ensures Split(PlainText(history), '\n') == PlainLines(history)
  {
    var lines := PlainLines(history);
    forall i | 0 <= i < |lines| ensures '\n' !in lines[i] {
      PlainLineNoNewline(history[i]);
    }
    SplitJoin(lines, '\n');
  }

  /** A message whose author name and timestamp hold no newline renders as one line. */
  lemma PlainLineNoNewline(m: Message)
    requires '\n' !in m.authorName && '\n' !in m.plainTs
    ensures '\n' !in PlainLine(m)
  {
    NoNewlineInNumber(m.authorId);
  }

  /** One character as `html.escape` (with `quote=True`) writes it. */
  function EscapeChar(c: char): string {
    match c
    case '&' => "&amp;"
    case '<' => "&lt;"
    case '>' => "&gt;"
    case '"' => "&quot;"
    case '\'' => "&#x27;"
    case _ => [c]
  }

  /** `html.escape(s)`: `&`, `<`, `>`, `"` and `'` as entities, every other character as itself. */
  function HtmlEscape(s: string): (r: string)
    ensures '<' !in r && '>' !in r && '"' !in r && '\'' !in r
  {
    if s == [] then [] else EscapeCharSafe(s[0]); EscapeChar(s[0]) + HtmlEscape(s[1..])
  }

  /** No escaped character writes a bracket or a quote. */
  lemma EscapeCharSafe(c: char)
    ensures var e := EscapeChar(c); '<' !in e && '>' !in e && '"' !in e && '\'' !in e
  {
  }

  /** Reads the five entities back; an `&` that starts none of them stays as it is. */
  function HtmlUnescape(s: string): string
    decreases |s|
  {
    if s == [] then []
    else if s[0] != '&' then [s[0]] + HtmlUnescape(s[1..])
    else
      match EntityAt(s)
      case None => "&" + HtmlUnescape(s[1..])
      case Some((entity, text)) => text + HtmlUnescape(s[|entity|..])
  }

  /** The entity `s` starts with and the character it stands for, if it starts with one of the five. */
  function EntityAt(s: string): (r: Option<(string, string)>)
    ensures r.Some? ==> 1 <= |r.value.0| <= |s| && s[..|r.value.0|] == r.value.0
  {
    if StartsWith(s, "&amp;") then Some(("&amp;", "&"))
    else if StartsWith(s, "&lt;") then Some(("&lt;", "<"))
    else if StartsWith(s, "&gt;") then Some(("&gt;", ">"))
    else if StartsWith(s, "&quot;") then Some(("&quot;", "\""))
    else if StartsWith(s, "&#x27;") then Some(("&#x27;", "'"))
    else None
  }

  /** An escaped character followed by more text reads back as the character, whatever follows. */
  lemma UnescapeAfterChar(c: char, rest: string)
    ensures HtmlUnescape(EscapeChar(c) + rest) == [c] + HtmlUnescape(rest)
  {
    var e := EscapeChar(c);
    var s := e + rest;
    assert s[..|e|] == e && s[|e|..] == rest;
    if e != [c] {
      assert s[0] == '&' && s[1] == e[1];
      assert EntityAt(s) == Some((e, [c]));
    } else {
      assert s[0] == c && s[1..] == rest;
    }
  }

  /** Escaping loses nothing: unescaping gives the original text back. */
  lemma {:induction false} HtmlEscapeRoundTrip(s: string)
    ensures HtmlUnescape(HtmlEscape(s)) == s
  {
    if s != [] {
      UnescapeAfterChar(s[0], HtmlEscape(s[1..]));
      HtmlEscapeRoundTrip(s[1..]);
      assert [s[0]] + s[1..] == s;
    }
  }

  /** The first entry of `buf`. */
  const HtmlHead := "<html><head><meta charset='utf-8'><title>Transcript</title></head><body>"

  /** The last entry of `buf`. */
  const HtmlTail := "</body></html>"

  /** The five `buf` entries one message contributes. */
  function MessageHtml(m: Message): seq<string> {
    [ "<div class='msg'>",
      "<span class='ts'>" + m.isoTs + "</span> ",
      "<strong>" + HtmlEscape(m.authorName) + "</strong>: ",
      "<span class='content'>" + HtmlEscape(m.content) + "</span>",
      "</div>" ]
  }

  /** The entries of all messages, oldest first. */
  function MessagesHtml(history: seq<Message>): (r: seq<string>)
    ensures |r| == 5 * |history|
  {
    if history == [] then [] else MessagesHtml(history[..|history| - 1]) + MessageHtml(history[|history| - 1])
  }

  /** Message `k`'s entries sit at positions `5k` to `5k+4`. */
  lemma {:induction false} MessagesHtmlAt(history: seq<Message>, k: int, j: int)
    requires 0 <= k < |history| && 0 <= j < 5
    ensures MessagesHtml(history)[5 * k + j] == MessageHtml(history[k])[j]
  {
    var n := |history| - 1;
    var front := MessagesHtml(history[..n]);
    var last := MessageHtml(history[n]);
    assert MessagesHtml(history) == front + last;
    if k < n {
      MessagesHtmlAt(history[..n], k, j);
      assert history[..n][k] == history[k];
      assert 5 * k + j < |front|;
    } else {
      assert 5 * k + j == |front| + j;
    }
  }

  /** The whole `buf` list of `export_html`. */
  function HtmlBuffer(name: string, history: seq<Message>): seq<string> {
    [HtmlHead, TitleHtml(name)] + MessagesHtml(history) + [HtmlTail]
  }

  /** The text of `export_html`: the buffer joined with newlines. */
  function HtmlText(name: string, history: seq<Message>): string {
    Join(HtmlBuffer(name, history), '\n')
  }

  /** The page structure: head and title first, five entries per message in order, the closing tags last. */
  lemma HtmlBufferLayout(name: string, history: seq<Message>)
    ensures |HtmlBuffer(name, history)| == 5 * |history| + 3
    ensures HtmlBuffer(name, history)[0] == HtmlHead
    ensures HtmlBuffer(name, history)[1] == TitleHtml(name)
    ensures HtmlBuffer(name, history)[5 * |history| + 2] == HtmlTail
  {
  }

  /** Message `k`'s five entries follow the head and title, in history order. */
  lemma HtmlBufferMessage(name: string, history: seq<Message>, k: int, j: int)
    requires 0 <= k < |history| && 0 <= j < 5
    ensures 2 + 5 * k + j < |HtmlBuffer(name, history)|
    ensures HtmlBuffer(name, history)[2 + 5 * k + j] == MessageHtml(history[k])[j]
  {
    var m := MessagesHtml(history);
    assert 5 * k + j < |m| by {
      assert 5 * (k + 1) <= 5 * |history|;
    }
    MessagesHtmlAt(history, k, j);
    IndexMiddle([HtmlHead, TitleHtml(name)], m, [HtmlTail], 5 * k + j);
  }

  /** Position `i` of the middle part, counted from the start of the whole. */
  lemma IndexMiddle<T>(front: seq<T>, middle: seq<T>, back: seq<T>, i: int)
    requires 0 <= i < |middle|
    ensures |front| + i < |front + middle + back| && (front + middle + back)[|front| + i] == middle[i]
  {
  }

  /** A join of at least three parts starts with the first two, each followed by the separator. */
  lemma JoinStartsWithTwo(parts: seq<string>, sep: char)
    requires |parts| >= 3
    ensures StartsWith(Join(parts, sep), parts[0] + [sep] + parts[1] + [sep])
  {
    var j1 := Join(parts[1..], sep);
    var j2 := Join(parts[2..], sep);
    assert parts[1..][1..] == parts[2..];
    assert j1 == parts[1] + [sep] + j2;
    assert Join(parts, sep) == (parts[0] + [sep] + parts[1] + [sep]) + j2;
  }

  /** A join of at least two parts ends with a separator and the last part. */
  lemma {:induction false} JoinEndsWith(parts: seq<string>, sep: char)
    requires |parts| >= 2
    ensures var j := Join(parts, sep); var e := [sep] + parts[|parts| - 1];
      |e| <= |j| && j[|j| - |e|..] == e
  {
    var j := Join(parts, sep);
    var e := [sep] + parts[|parts| - 1];
    if |parts| > 2 {
      JoinEndsWith(parts[1..], sep);
      var rest := Join(parts[1..], sep);
      assert j == parts[0] + [sep] + rest;
      assert j[|j| - |e|..] == rest[|rest| - |e|..];
    }
  }

  /** The `<h1>` entry of a thread's page. */
  function TitleHtml(name: string): string {
    "<h1>Transcript: " + HtmlEscape(name) + "</h1>"
  }

  /** The page opens with the fixed head and the escaped thread name on the next line. */
  lemma HtmlTextStart(name: string, history: seq<Message>)
    ensures StartsWith(HtmlText(name, history), HtmlHead + "\n" + TitleHtml(name) + "\n")
  {
    HtmlBufferLayout(name, history);
    JoinStartsWithTwo(HtmlBuffer(name, history), '\n');
  }

  /** The page closes with `</body></html>` on a line of its own. */
  lemma HtmlTextEnd(name: string, history: seq<Message>)
    ensures var t := HtmlText(name, history); var e := "\n" + HtmlTail;
      |e| <= |t| && t[|t| - |e|..] == e
  {
    HtmlBufferLayout(name, history);
    JoinEndsWith(HtmlBuffer(name, history), '\n');
  }

  /** `export_html`: builds the buffer in a loop over the history, then joins it. */
  method ExportHtml(name: string, history: seq<Message>) returns (text: string)
    ensures text == HtmlText(name, history)
  {
    var buf := [HtmlHead];
    buf := buf + [TitleHtml(name)];
    for i := 0 to |history|
      invariant buf == [HtmlHead, TitleHtml(name)] + MessagesHtml(history[..i])
    {
      assert history[..i + 1][..i] == history[..i];
      buf := buf + MessageHtml(history[i]);
    }
    assert history[..|history|] == history;
    buf := buf + [HtmlTail];
    text := Join(buf, '\n');
  }

  /** A `discord.File`: its name and its contents. */
  datatype TranscriptFile = TranscriptFile(filename: string, content: string)

  /** `build_transcript_files`: the plain file, then the HTML file, both named after the thread id. */
  method BuildTranscriptFiles(thread: Thread) returns (files: seq<TranscriptFile>)
    ensures |files| == 2
    ensures files[0] == TranscriptFile("transcript-" + IntToString(thread.id) + ".txt", PlainText(thread.history))
    ensures files[1] == TranscriptFile("transcript-" + IntToString(thread.id) + ".html", HtmlText(thread.name, thread.history))
  {
    var plain := ExportPlain(thread.history);
    var html := ExportHtml(thread.name, thread.history);
    files := [
      TranscriptFile("transcript-" + IntToString(thread.id) + ".txt", plain),
      TranscriptFile("transcript-" + IntToString(thread.id) + ".html", html)];
  }
}
