// mbox formatting: header sanitising, mboxrd quoting, message layout (src/mail/mbox.rs),
// and the reader that inverts them. Text is UTF-8; a char below 256 stands for one byte.

module Mbox {
  import opened Prelude

  // ---------------------------------------------------------------------
  // Lines
  // ---------------------------------------------------------------------

  predicate OneLine(s: string) {
    '\n' !in s
  }

  predicate EndsWithNewline(s: string) {
    s != "" && s[|s| - 1] == '\n'
  }

  /** The pieces with a newline between each two. */
  function Join(ls: seq<string>): string
    requires ls != []
  {
    if |ls| == 1 then ls[0] else Join(ls[..|ls| - 1]) + "\n" + ls[|ls| - 1]
  }

  /** The lines, each ended by a newline. */
  function Block(ls: seq<string>): string {
    if ls == [] then "" else Block(ls[..|ls| - 1]) + ls[|ls| - 1] + "\n"
  }

  predicate OneLiners(ls: seq<string>) {
    forall i :: 0 <= i < |ls| ==> OneLine(ls[i])
  }

  /** The lines of a text, ignoring whether the last one is terminated. */
  function LinesOf(s: string): (r: seq<string>)
    ensures OneLiners(r)
  {
    var ls := Split(s, '\n');
    if ls[|ls| - 1] == "" then ls[..|ls| - 1] else ls
  }

  lemma JoinSnoc(ls: seq<string>, l: string)
    requires ls != []
    ensures Join(ls + [l]) == Join(ls) + ['\n'] + l
  {
    assert (ls + [l])[..|ls|] == ls;
  }

  /** Lengthening the last piece lengthens the text. */
  lemma JoinGrows(init: seq<string>, last: string, c: char)
    ensures Join(init + [last + [c]]) == Join(init + [last]) + [c]
  {
    if init == [] {
      assert Join([last + [c]]) == last + [c];
    } else {
      JoinSnoc(init, last);
      JoinSnoc(init, last + [c]);
      Regroup2(Join(init) + ['\n'], last, [c]);
    }
  }

  lemma {:induction false} JoinSplit(s: string)
    ensures Join(Split(s, '\n')) == s
  {
    if s != "" {
      var init, c := s[..|s| - 1], s[|s| - 1];
      JoinSplit(init);
      assert s == init + [c];
      SplitSnoc(init, '\n', c);
      var p := Split(init, '\n');
      if c == '\n' {
        JoinSnoc(p, "");
        assert init + ['\n'] + "" == s;
      } else {
        assert p == p[..|p| - 1] + [p[|p| - 1]];
        JoinGrows(p[..|p| - 1], p[|p| - 1], c);
      }
    }
  }

  lemma {:induction false} SplitJoin(ls: seq<string>)
    requires ls != [] && OneLiners(ls)
    ensures Split(Join(ls), '\n') == ls
  {
    var init, last := ls[..|ls| - 1], ls[|ls| - 1];
    assert ls == init + [last];
    SplitOnePiece(last, '\n');
    if init == [] {
      assert ls == [last];
    } else {
      JoinSnoc(init, last);
      SplitJoin(init);
      SplitAppend(Join(init), '\n', last);
    }
  }

  lemma {:induction false} BlockIsJoin(ls: seq<string>)
    ensures Block(ls) == Join(ls + [""])
    ensures ls != [] ==> Block(ls) == Join(ls) + "\n"
  {
    assert (ls + [""])[..|ls|] == ls;
    if ls != [] {
      BlockIsJoin(ls[..|ls| - 1]);
      if |ls| > 1 {
        assert Block(ls[..|ls| - 1]) == Join(ls[..|ls| - 1]) + "\n";
        assert Block(ls) == (Join(ls[..|ls| - 1]) + "\n" + ls[|ls| - 1]) + "\n";
      } else {
        assert ls[..0] == [];
        assert Block(ls) == ls[0] + "\n";
      }
    }
  }

  lemma SplitBlock(ls: seq<string>)
    requires OneLiners(ls)
    ensures Split(Block(ls), '\n') == ls + [""]
    ensures LinesOf(Block(ls)) == ls
  {
    BlockIsJoin(ls);
    SplitJoin(ls + [""]);
  }

  lemma {:induction false} BlockAppend(a: seq<string>, b: seq<string>)
    ensures Block(a + b) == Block(a) + Block(b)
    decreases |b|
  {
    if b == [] {
      assert a + b == a;
    } else {
      assert (a + b)[..|a + b| - 1] == a + b[..|b| - 1];
      BlockAppend(a, b[..|b| - 1]);
      assert Block(a + b) == Block(a) + (Block(b[..|b| - 1]) + b[|b| - 1] + "\n");
    }
  }

  // ---------------------------------------------------------------------
  // Header values
  // ---------------------------------------------------------------------

  function CleanByte(c: char): char {
    if c < ' ' then ' ' else c
  }

  /** Every control byte replaced by a space, every other byte kept. */
  function Sanitized(s: string): (r: string)
    ensures |r| == |s|
    ensures forall i :: 0 <= i < |s| ==> r[i] >= ' ' && (s[i] >= ' ' ==> r[i] == s[i]) && (s[i] < ' ' ==> r[i] == ' ')
  {
    Map(CleanByte, s)
  }

  /** A UTF-8 continuation byte: the top two bits are 10. */
  predicate IsContinuation(c: char) {
    (c as int / 64) % 4 == 2
  }

  /** Walks the bytes code point by code point, copying or replacing. */
  method SanitizeHeader(input: string) returns (out: string)
    ensures out == Sanitized(input)
  {
    out := "";
    var i := 0;
    while i < |input|
      invariant 0 <= i <= |input|
      invariant out == Sanitized(input)[..i]
    {
      var b := input[i];
      if b < ' ' && b != ' ' {
        out := out + " ";
        i := i + 1;
        continue;
      }
      var end := i + 1;
      while end < |input| && IsContinuation(input[end])
        invariant i < end <= |input|
        invariant forall j :: i <= j < end ==> input[j] >= ' '
      {
        end := end + 1;
      }
      out := out + input[i..end];
      assert Sanitized(input)[i..end] == input[i..end];
      i := end;
    }
  }

  lemma SanitizedIsOneLine(s: string)
    ensures OneLine(Sanitized(s)) && '\r' !in Sanitized(s)
    ensures Sanitized(Sanitized(s)) == Sanitized(s)
    ensures Sanitized(s) == s <==> forall c :: c in s ==> c >= ' '
  {
    var r := Sanitized(s);
    if forall c :: c in s ==> c >= ' ' {
      forall i | 0 <= i < |s|
        ensures r[i] == s[i]
      {
        assert s[i] in s;
      }
      assert r == s;
    } else {
      var i :| 0 <= i < |s| && s[i] < ' ';
      assert r[i] != s[i];
    }
  }

  // ---------------------------------------------------------------------
  // mboxrd quoting
  // ---------------------------------------------------------------------

  const FROM: string := "From "

  predicate IsFromLine(line: string) {
    FROM <= line
  }

  function TrimMarks(line: string): string {
    if line != "" && line[0] == '>' then TrimMarks(line[1..]) else line
  }

  predicate NeedsQuote(line: string) {
    IsFromLine(TrimMarks(line))
  }

  function QuoteLine(line: string): string {
    if NeedsQuote(line) then ">" + line else line
  }

  /** Strips exactly one mark from a line whose remainder needs quoting. */
  function UnquoteLine(line: string): string {
    if line != "" && line[0] == '>' && NeedsQuote(line[1..]) then line[1..] else line
  }

  function Escaped(body: string): string {
    Join(Map(QuoteLine, Split(body, '\n')))
  }

  function Unescaped(text: string): string {
    Join(Map(UnquoteLine, Split(text, '\n')))
  }

  /** k marks, then the separator. */
  predicate Marked(line: string, k: nat) {
    k <= |line| && IsFromLine(line[k..]) && forall j :: 0 <= j < k ==> line[j] == '>'
  }

  lemma MarkedTail(line: string, k: nat)
    requires line != "" && line[0] == '>'
    ensures !Marked(line, 0)
    ensures Marked(line, k + 1) <==> Marked(line[1..], k)
  {
    if k <= |line[1..]| {
      assert line[1..][k..] == line[k + 1..];
      assert forall j :: 0 <= j < k ==> line[1..][j] == line[j + 1];
      assert forall j :: 0 < j < k + 1 ==> line[j] == line[1..][j - 1];
    }
  }

  /** A line needs quoting exactly when it is some number of marks followed by the separator. */
  lemma {:induction false} NeedsQuoteIsPattern(line: string)
    ensures NeedsQuote(line) <==> exists k: nat :: Marked(line, k)
  {
    if line != "" && line[0] == '>' {
      NeedsQuoteIsPattern(line[1..]);
      if NeedsQuote(line) {
        var k: nat :| Marked(line[1..], k);
        MarkedTail(line, k);
      }
      if k: nat :| Marked(line, k) {
        MarkedTail(line, if k > 0 then k - 1 else 0);
        assert Marked(line[1..], k - 1);
      }
    } else {
      assert line[0..] == line;
      assert NeedsQuote(line) ==> Marked(line, 0);
    }
  }

  lemma LineRoundTrip(line: string)
    requires OneLine(line)
    ensures OneLine(QuoteLine(line)) && !IsFromLine(QuoteLine(line))
    ensures UnquoteLine(QuoteLine(line)) == line
  {
    if NeedsQuote(line) {
      assert (">" + line)[1..] == line;
    }
  }

  lemma UnquoteKeepsLine(line: string)
    requires OneLine(line)
    ensures OneLine(UnquoteLine(line))
    ensures QuoteLine(UnquoteLine(line)) == line <==> !IsFromLine(line)
  {
    if line != "" && line[0] == '>' && NeedsQuote(line[1..]) {
      assert line == ">" + line[1..];
    }
  }

  /** k times `>`, then `From `. */
  predicate LooksLikeSeparator(line: string, k: nat) {
    k + 5 <= |line| && line[k..k + 5] == "From " && forall j :: 0 <= j < k ==> line[j] == '>'
  }

  /** The line with one more mark in front exactly when it is some number of marks followed by the separator. */
  lemma QuotedExactly(line: string)
    ensures QuoteLine(line)
            == if exists k: nat :: LooksLikeSeparator(line, k) then ">" + line else line
  {
    NeedsQuoteIsPattern(line);
    if k: nat :| Marked(line, k) {
      assert line[k..k + 5] == line[k..][..5];
      assert LooksLikeSeparator(line, k);
    }
    if k: nat :| LooksLikeSeparator(line, k) {
      assert line[k..][..5] == line[k..k + 5];
      assert Marked(line, k);
    }
  }

  lemma EscapedLines(body: string)
    ensures Split(Escaped(body), '\n') == Map(QuoteLine, Split(body, '\n'))
  {
    var ls := Split(body, '\n');
    forall i | 0 <= i < |ls|
      ensures OneLine(QuoteLine(ls[i]))
    {
      LineRoundTrip(ls[i]);
    }
    SplitJoin(Map(QuoteLine, ls));
  }

  /** Unquoting inverts quoting on every body, and a quoted body has no separator line. */
  lemma EscapeRoundTrip(body: string)
    ensures Unescaped(Escaped(body)) == body
    ensures forall i :: 0 <= i < |Split(Escaped(body), '\n')| ==> !IsFromLine(Split(Escaped(body), '\n')[i])
  {
    EscapedLines(body);
    var ls := Split(body, '\n');
    forall i | 0 <= i < |ls|
      ensures UnquoteLine(QuoteLine(ls[i])) == ls[i] && !IsFromLine(QuoteLine(ls[i]))
    {
      LineRoundTrip(ls[i]);
    }
    assert Map(UnquoteLine, Map(QuoteLine, ls)) == ls;
    JoinSplit(body);
  }

  lemma EscapeInjective(a: string, b: string)
    requires Escaped(a) == Escaped(b)
    ensures a == b
  {
    EscapeRoundTrip(a);
    EscapeRoundTrip(b);
  }

  /** The quoted bodies are exactly the texts without a separator line: on those, quoting inverts unquoting. */
  lemma EscapeImage(text: string)
    ensures Escaped(Unescaped(text)) == text
            <==> forall i :: 0 <= i < |Split(text, '\n')| ==> !IsFromLine(Split(text, '\n')[i])
  {
    var ls := Split(text, '\n');
    forall i | 0 <= i < |ls|
      ensures OneLine(UnquoteLine(ls[i]))
      ensures QuoteLine(UnquoteLine(ls[i])) == ls[i] <==> !IsFromLine(ls[i])
    {
      UnquoteKeepsLine(ls[i]);
    }
    SplitJoin(Map(UnquoteLine, ls));
    var back := Map(QuoteLine, Map(UnquoteLine, ls));
    EscapedLines(Unescaped(text));
    JoinSplit(text);
    if Escaped(Unescaped(text)) == text {
      assert back == ls;
    } else {
      assert back != ls;
      var i :| 0 <= i < |ls| && back[i] != ls[i];
    }
  }

  method EscapeMboxrd(body: string) returns (out: string)
    ensures out == Escaped(body)
  {
    var ls := Split(body, '\n');
    ghost var quoted := Map(QuoteLine, ls);
    out := "";
    for i := 0 to |ls|
      invariant i == 0 ==> out == ""
      invariant i > 0 ==> out == Join(quoted[..i])
    {
      if i > 0 {
        out := out + "\n";
      }
      if NeedsQuote(ls[i]) {
        out := out + ">";
      }
      out := out + ls[i];
      assert quoted[..i + 1][..i] == quoted[..i];
      assert i > 0 ==> Join(quoted[..i + 1]) == Join(quoted[..i]) + "\n" + quoted[i];
    }
    assert quoted[..|ls|] == quoted;
  }

  // ---------------------------------------------------------------------
  // The message
  // ---------------------------------------------------------------------

  /** Separator line and headers, one per line. */
  function HeaderLines(fromDate: string, dateHeader: string, user: string, host: string, subject: string): (r: seq<string>)
    ensures |r| == 7
  {
    ["From gcit " + fromDate,
     "Date: " + Sanitized(dateHeader),
     "From: gcit@" + Sanitized(host),
     "To: " + Sanitized(user) + "@" + Sanitized(host),
     "Subject: " + Sanitized(subject),
     "Content-Type: text/plain; charset=utf-8",
     "MIME-Version: 1.0"]
  }

  /** Reference layout: headers, a blank line, the quoted body lines, a blank line, every line terminated. */
  function MessageLines(fromDate: string, dateHeader: string, user: string, host: string, subject: string, body: string): seq<string> {
    HeaderLines(fromDate, dateHeader, user, host, subject) + [""] + Map(QuoteLine, LinesOf(body)) + [""]
  }

  lemma EscapedBlock(body: string)
    ensures var text := Escaped(body);
            Block(Map(QuoteLine, LinesOf(body))) == if text == "" || EndsWithNewline(text) then text else text + "\n"
  {
    var ls := Split(body, '\n');
    var quoted := Map(QuoteLine, ls);
    var n := |ls| - 1;
    var text := Escaped(body);
    EscapedLines(body);
    LineRoundTrip(ls[n]);
    if ls[n] == "" {
      assert quoted == Map(QuoteLine, ls[..n]) + [""];
      BlockIsJoin(Map(QuoteLine, ls[..n]));
      LastPiece(text);
    } else {
      BlockIsJoin(quoted);
      assert quoted[n] != "";
      LastPiece(text);
    }
  }

  /** A text ends with a newline, or is empty, exactly when its last piece is empty. */
  lemma LastPiece(s: string)
    ensures Split(s, '\n')[|Split(s, '\n')| - 1] == "" <==> s == "" || EndsWithNewline(s)
  {
  }

  lemma BlockSnoc(ls: seq<string>, n: nat)
    requires n < |ls|
    ensures Block(ls[..n + 1]) == Block(ls[..n]) + ls[n] + "\n"
  {
    assert ls[..n + 1][..n] == ls[..n];
  }

  /** Pushes one header line. */
  method PushHeader(before: string, name: string, value: string, ghost ls: seq<string>, ghost n: nat)
    returns (out: string)
    requires n < |ls| && ls[n] == name + value && before == Block(ls[..n])
    ensures out == Block(ls[..n + 1])
  {
    BlockSnoc(ls, n);
    Regroup2(before, name, value);
    out := before + name;
    out := out + value;
    out := out + "\n";
  }

  /** Pushes a line that is wholly fixed. */
  method PushLine(before: string, line: string, ghost ls: seq<string>, ghost n: nat) returns (out: string)
    requires n < |ls| && ls[n] == line && before == Block(ls[..n])
    ensures out == Block(ls[..n + 1])
  {
    BlockSnoc(ls, n);
    out := before + line;
    out := out + "\n";
  }

  /** Pushes the separator line, the headers and the blank line that ends them. */
  method FormatHeaders(fromDate: string, dateHeader: string, user: string, host: string, subject: string)
    returns (out: string)
    ensures out == Block(HeaderLines(fromDate, dateHeader, user, host, subject) + [""])
  {
    ghost var ls := HeaderLines(fromDate, dateHeader, user, host, subject);
    out := PushHeader("", "From gcit ", fromDate, ls, 0);
    var clean := SanitizeHeader(dateHeader);
    out := PushHeader(out, "Date: ", clean, ls, 1);
    clean := SanitizeHeader(host);
    out := PushHeader(out, "From: gcit@", clean, ls, 2);
    clean := SanitizeHeader(user);
    var cleanHost := SanitizeHeader(host);
    out := PushHeader(out, "To: " + clean + "@", cleanHost, ls, 3);
    clean := SanitizeHeader(subject);
    out := PushHeader(out, "Subject: ", clean, ls, 4);
    out := PushLine(out, "Content-Type: text/plain; charset=utf-8", ls, 5);
    out := PushLine(out, "MIME-Version: 1.0", ls, 6);
    assert ls[..7] == ls;
    BlockBlank(ls);
    out := out + "\n";
  }

  /** A blank line adds its terminator. */
  lemma BlockBlank(ls: seq<string>)
    ensures Block(ls + [""]) == Block(ls) + "\n"
  {
    assert (ls + [""])[..|ls|] == ls;
    assert Block(ls) + "" == Block(ls);
  }

  lemma NewlineAfterBlock(ls: seq<string>, quoted: string)
    requires ls != []
    ensures EndsWithNewline(Block(ls) + quoted) <==> quoted == "" || EndsWithNewline(quoted)
  {
  }

  /** Builds the message piece by piece. */
  method FormatMessage(fromDate: string, dateHeader: string, user: string, host: string, subject: string, body: string)
    returns (out: string)
    ensures out == Block(MessageLines(fromDate, dateHeader, user, host, subject, body))
  {
    out := FormatHeaders(fromDate, dateHeader, user, host, subject);
    ghost var head := HeaderLines(fromDate, dateHeader, user, host, subject) + [""];
    ghost var bodyLines := Map(QuoteLine, LinesOf(body));
    var quoted := EscapeMboxrd(body);
    NewlineAfterBlock(head, quoted);
    Regroup2(out, quoted, "\n");
    out := out + quoted;
    if !EndsWithNewline(out) {
      out := out + "\n";
    }
    EscapedBlock(body);
    assert out == Block(head) + Block(bodyLines);
    BlockAppend(head, bodyLines);
    out := out + "\n";
    BlockBlank(head + bodyLines);
  }

  // ---------------------------------------------------------------------
  // Reading a message back
  // ---------------------------------------------------------------------

  datatype Message = Message(headers: seq<string>, body: string)

  function FirstBlank(ls: seq<string>): (n: nat)
    ensures n <= |ls|
    ensures forall i :: 0 <= i < n ==> ls[i] != ""
    ensures n < |ls| ==> ls[n] == ""
  {
    if ls == [] || ls[0] == "" then 0 else 1 + FirstBlank(ls[1..])
  }

  /** Headers up to the first blank line; the rest, without the closing blank line, unquoted. */
  function ReadMessage(text: string): Option<Message> {
    var ls := LinesOf(text);
    var h := FirstBlank(ls);
    if h + 2 > |ls| || ls[|ls| - 1] != "" then None
    else Some(Message(ls[..h], Block(Map(UnquoteLine, ls[h + 1..|ls| - 1]))))
  }

  /** A body as mail stores it: a nonempty one ends with a newline. */
  function Completed(body: string): string {
    if body == "" || EndsWithNewline(body) then body else body + "\n"
  }

  lemma CompletedIsBlock(body: string)
    ensures Block(LinesOf(body)) == Completed(body)
  {
    var ls := Split(body, '\n');
    var n := |ls| - 1;
    JoinSplit(body);
    LastPiece(body);
    if ls[n] == "" {
      assert ls == ls[..n] + [""];
      BlockIsJoin(ls[..n]);
    } else {
      BlockIsJoin(ls);
    }
  }

  lemma OneLineAppend(a: string, b: string)
    ensures OneLine(a + b) <==> OneLine(a) && OneLine(b)
  {
    if !OneLine(a) || !OneLine(b) {
      assert '\n' in a + b;
    }
  }

  lemma HeaderOneLine(name: string, value: string)
    requires OneLine(name) && name != "" && OneLine(value)
    ensures OneLine(name + value) && name + value != ""
  {
    OneLineAppend(name, value);
  }

  lemma AddressHeadersOneLine(user: string, host: string)
    requires OneLine(user) && OneLine(host)
    ensures OneLine("From: gcit@" + host) && OneLine("To: " + user + "@" + host)
  {
    HeaderOneLine("From: gcit@", host);
    HeaderOneLine("To: ", user);
    HeaderOneLine("To: " + user, "@");
    HeaderOneLine("To: " + user + "@", host);
  }

  lemma ValueHeadersOneLine(fromDate: string, date: string, subject: string)
    requires OneLine(fromDate) && OneLine(date) && OneLine(subject)
    ensures OneLine("From gcit " + fromDate) && OneLine("Date: " + date) && OneLine("Subject: " + subject)
  {
    HeaderOneLine("From gcit ", fromDate);
    HeaderOneLine("Date: ", date);
    HeaderOneLine("Subject: ", subject);
  }

  lemma FixedHeadersOneLine()
    ensures OneLine("Content-Type: text/plain; charset=utf-8") && OneLine("MIME-Version: 1.0")
  {
  }

  lemma HeadersOneLiners(fromDate: string, dateHeader: string, user: string, host: string, subject: string)
    requires OneLine(fromDate)
    ensures OneLiners(HeaderLines(fromDate, dateHeader, user, host, subject))
  {
    SanitizedIsOneLine(dateHeader);
    SanitizedIsOneLine(user);
    SanitizedIsOneLine(host);
    SanitizedIsOneLine(subject);
    AddressHeadersOneLine(Sanitized(user), Sanitized(host));
    ValueHeadersOneLine(fromDate, Sanitized(dateHeader), Sanitized(subject));
    FixedHeadersOneLine();
  }

  lemma HeadersNotBlank(fromDate: string, dateHeader: string, user: string, host: string, subject: string)
    ensures forall i :: 0 <= i < 7 ==> HeaderLines(fromDate, dateHeader, user, host, subject)[i] != ""
  {
  }

  lemma MessageLinesOneLiners(fromDate: string, dateHeader: string, user: string, host: string, subject: string, body: string)
    requires OneLine(fromDate)
    ensures OneLiners(MessageLines(fromDate, dateHeader, user, host, subject, body))
  {
    HeadersOneLiners(fromDate, dateHeader, user, host, subject);
    var ls := LinesOf(body);
    forall i | 0 <= i < |ls|
      ensures OneLine(QuoteLine(ls[i]))
    {
      LineRoundTrip(ls[i]);
    }
  }

  lemma {:induction false} FirstBlankAt(ls: seq<string>, h: nat)
    requires h < |ls| && ls[h] == "" && forall i :: 0 <= i < h ==> ls[i] != ""
    ensures FirstBlank(ls) == h
  {
  }

  lemma LinesOfBlock(ls: seq<string>)
    requires OneLiners(ls)
    ensures LinesOf(Block(ls)) == ls
  {
    SplitBlock(ls);
  }

  /** Reading any nonempty header lines, a blank line, body lines and a closing blank line. */
  lemma ReadBlock(headers: seq<string>, lines: seq<string>)
    requires forall i :: 0 <= i < |headers| ==> headers[i] != ""
    requires OneLiners(headers + [""] + lines + [""])
    ensures ReadMessage(Block(headers + [""] + lines + [""])) == Some(Message(headers, Block(Map(UnquoteLine, lines))))
  {
    var ls := headers + [""] + lines + [""];
    LinesOfBlock(ls);
    FirstBlankAt(ls, |headers|);
    assert ls[..|headers|] == headers;
    assert ls[|headers| + 1..|ls| - 1] == lines;
  }

  /**
   * Whatever the subject, user, host and body contain, a reader of the formatted message sees exactly
   * the intended header lines and the body, completed by at most a final newline.
   */
  lemma MessageRoundTrip(fromDate: string, dateHeader: string, user: string, host: string, subject: string, body: string)
    requires OneLine(fromDate)
    ensures ReadMessage(Block(MessageLines(fromDate, dateHeader, user, host, subject, body)))
            == Some(Message(
                 ["From gcit " + fromDate, "Date: " + Sanitized(dateHeader), "From: gcit@" + Sanitized(host),
                  "To: " + Sanitized(user) + "@" + Sanitized(host), "Subject: " + Sanitized(subject),
                  "Content-Type: text/plain; charset=utf-8", "MIME-Version: 1.0"],
                 if body == "" || body[|body| - 1] == '\n' then body else body + "\n"))
  {
    var bodyLines := LinesOf(body);
    HeadersNotBlank(fromDate, dateHeader, user, host, subject);
    MessageLinesOneLiners(fromDate, dateHeader, user, host, subject, body);
    ReadBlock(HeaderLines(fromDate, dateHeader, user, host, subject), Map(QuoteLine, bodyLines));
    UnquoteLines(bodyLines);
    CompletedIsBlock(body);
  }

  lemma UnquoteLines(ls: seq<string>)
    requires OneLiners(ls)
    ensures Map(UnquoteLine, Map(QuoteLine, ls)) == ls
  {
    forall i | 0 <= i < |ls|
      ensures UnquoteLine(QuoteLine(ls[i])) == ls[i]
    {
      LineRoundTrip(ls[i]);
    }
  }

  // ---------------------------------------------------------------------
  // Reading a spool
  // ---------------------------------------------------------------------

  function Ended(ls: seq<string>): seq<string> {
    seq(|ls|, i requires 0 <= i < |ls| => ls[i] + "\n")
  }

  /** Lines with their terminators; the last one may lack it. */
  function Terminated(ls: seq<string>): seq<string>
    requires ls != []
  {
    var n := |ls| - 1;
    Ended(ls[..n]) + if ls[n] == "" then [] else [ls[n]]
  }

  lemma TerminatedConcat(a: seq<string>, b: seq<string>)
    requires b != []
    ensures Terminated(a + b) == Ended(a) + Terminated(b)
  {
    assert (a + b)[..|a + b| - 1] == a + b[..|b| - 1];
    assert Ended(a + b[..|b| - 1]) == Ended(a) + Ended(b[..|b| - 1]);
  }

  lemma TerminatedBlank(ls: seq<string>)
    ensures Terminated(ls + [""]) == Ended(ls)
  {
    assert (ls + [""])[..|ls|] == ls;
  }

  /** Records begin at each separator line; leading text without one forms a record too. */
  function Group(ls: seq<string>): (r: seq<string>)
    ensures r == [] <==> ls == []
  {
    if ls == [] then []
    else
      var g, l := Group(ls[..|ls| - 1]), ls[|ls| - 1];
      if g == [] || IsFromLine(l) then g + [l]
      else g[..|g| - 1] + [g[|g| - 1] + l]
  }

  function Records(spool: string): seq<string> {
    Group(Terminated(Split(spool, '\n')))
  }

  /** Text appended next starts a line of its own. */
  predicate AtLineStart(s: string) {
    s == "" || EndsWithNewline(s)
  }

  /** One record: whole lines, of which the first and only the first is a separator. */
  ghost predicate IsRecord(m: string) {
    exists ls :: RecordLines(ls) && m == Block(ls)
  }

  ghost predicate RecordLines(ls: seq<string>) {
    && ls != [] && OneLiners(ls) && IsFromLine(ls[0])
    && forall i :: 0 < i < |ls| ==> !IsFromLine(ls[i])
  }

  lemma HeadersNotSeparators(fromDate: string, dateHeader: string, user: string, host: string, subject: string)
    ensures forall i :: 0 < i < 7 ==> !IsFromLine(HeaderLines(fromDate, dateHeader, user, host, subject)[i])
  {
    var h := HeaderLines(fromDate, dateHeader, user, host, subject);
    assert FROM[0] == 'F' && FROM[4] == ' ';
    assert h[1][0] == 'D' && h[2][4] == ':' && h[3][0] == 'T' && h[4][0] == 'S' && h[5][0] == 'C' && h[6][0] == 'M';
  }

  lemma FormattedIsRecord(fromDate: string, dateHeader: string, user: string, host: string, subject: string, body: string)
    requires OneLine(fromDate)
    ensures IsRecord(Block(MessageLines(fromDate, dateHeader, user, host, subject, body)))
  {
    var ls := MessageLines(fromDate, dateHeader, user, host, subject, body);
    MessageLinesOneLiners(fromDate, dateHeader, user, host, subject, body);
    var bodyLines := LinesOf(body);
    forall i | 0 <= i < |bodyLines|
      ensures !IsFromLine(QuoteLine(bodyLines[i]))
    {
      LineRoundTrip(bodyLines[i]);
    }
    assert ls[0][..5] == FROM;
    HeadersNotSeparators(fromDate, dateHeader, user, host, subject);
    forall i | 0 < i < |ls|
      ensures !IsFromLine(ls[i])
    {
      if i < 7 {
        assert ls[i] == HeaderLines(fromDate, dateHeader, user, host, subject)[i];
      } else if 8 <= i < |ls| - 1 {
        assert ls[i] == QuoteLine(bodyLines[i - 8]);
      }
    }
    assert RecordLines(ls);
  }

  lemma {:induction false} GroupAppend(a: seq<string>, b: seq<string>)
    requires b != [] && IsFromLine(b[0])
    ensures Group(a + b) == Group(a) + Group(b)
    decreases |b|
  {
    var b' := b[..|b| - 1];
    assert (a + b)[..|a + b| - 1] == a + b';
    if b' == [] {
      assert a + b' == a;
    } else {
      GroupAppend(a, b');
      var g, l := Group(b'), b[|b| - 1];
      if IsFromLine(l) {
        assert (Group(a) + g) + [l] == Group(a) + (g + [l]);
      } else {
        ReplaceLast(Group(a), g, g[|g| - 1] + l);
      }
    }
  }

  lemma {:induction false} GroupOne(ls: seq<string>)
    requires RecordLines(ls)
    ensures Group(Ended(ls)) == [Block(ls)]
    decreases |ls|
  {
    var n := |ls| - 1;
    var t, l := Ended(ls), ls[n] + "\n";
    assert t[..n] == Ended(ls[..n]) && t[n] == l;
    assert Block(ls) == Block(ls[..n]) + ls[n] + "\n";
    Regroup2(Block(ls[..n]), ls[n], "\n");
    if n == 0 {
      assert t == [l] && t[..0] == [] && ls[..0] == [];
      assert Block(ls) == l;
    } else {
      GroupOne(ls[..n]);
      NotFromTerminated(ls[n]);
    }
  }

  lemma NotFromTerminated(l: string)
    ensures IsFromLine(l + "\n") <==> IsFromLine(l)
  {
    if IsFromLine(l + "\n") {
      assert (l + "\n")[4] == FROM[4] == ' ';
      assert |l| > 4;
    }
  }

  lemma TerminatedAppend(a: string, ls: seq<string>)
    requires AtLineStart(a) && ls != [] && OneLiners(ls)
    ensures Terminated(Split(a + Block(ls), '\n')) == Terminated(Split(a, '\n')) + Ended(ls)
  {
    var b := Block(ls);
    SplitBlock(ls);
    TerminatedBlank(ls);
    if a == "" {
      assert a + b == b;
    } else {
      var a' := a[..|a| - 1];
      assert a == a' + "\n";
      SplitAppend(a', '\n', b);
      assert Split(a, '\n') == Split(a', '\n') + [""];
      TerminatedConcat(Split(a', '\n'), [""]);
      TerminatedConcat(Split(a', '\n'), ls + [""]);
    }
  }

  /** Appending a record at a line start adds exactly that record. */
  lemma AppendRecovered(spool: string, m: string)
    requires IsRecord(m) && AtLineStart(spool)
    ensures Records(spool + m) == Records(spool) + [m]
    ensures AtLineStart(spool + m)
  {
    var ls :| RecordLines(ls) && m == Block(ls);
    var t := Ended(ls);
    TerminatedAppend(spool, ls);
    assert t[0] == ls[0] + "\n";
    NotFromTerminated(ls[0]);
    GroupAppend(Terminated(Split(spool, '\n')), t);
    GroupOne(ls);
    assert m[|m| - 1] == '\n';
  }

  /** Whole records appended in any number are all recovered, in order. */
  lemma {:induction false} SpoolRecovered(spool: string, ms: seq<string>)
    requires AtLineStart(spool) && forall i :: 0 <= i < |ms| ==> IsRecord(ms[i])
    ensures Records(spool + Concat(ms)) == Records(spool) + ms
    ensures AtLineStart(spool + Concat(ms))
    decreases |ms|
  {
    if ms == [] {
      assert spool + Concat(ms) == spool;
    } else {
      var init, m := ms[..|ms| - 1], ms[|ms| - 1];
      SpoolRecovered(spool, init);
      RecoveredSnoc(Records(spool), spool + Concat(init), init, m);
      Regroup2(spool, Concat(init), m);
      assert init + [m] == ms;
    }
  }

  lemma RecoveredSnoc(found: seq<string>, before: string, ms: seq<string>, m: string)
    requires Records(before) == found + ms && AtLineStart(before) && IsRecord(m)
    ensures Records(before + m) == found + (ms + [m]) && AtLineStart(before + m)
  {
    AppendRecovered(before, m);
  }

  // ---------------------------------------------------------------------
  // A record appended in the middle of a line is lost
  // ---------------------------------------------------------------------

  /** Text after the first line adds no record when it contains no separator line. */
  lemma {:induction false} GroupTail(a: seq<string>, b: seq<string>)
    requires a != [] && forall i :: 0 <= i < |b| ==> !IsFromLine(b[i])
    ensures |Group(a + b)| == |Group(a)|
    decreases |b|
  {
    if b == [] {
      assert a + b == a;
    } else {
      assert (a + b)[..|a + b| - 1] == a + b[..|b| - 1];
      GroupTail(a, b[..|b| - 1]);
    }
  }

  /** Replacing the last line by a longer one that is a separator line just when the old one was keeps the count. */
  lemma GroupLast(ls: seq<string>, x: string, y: string)
    requires IsFromLine(x) <==> IsFromLine(y)
    ensures |Group(ls + [x])| == |Group(ls + [y])|
  {
    assert (ls + [x])[..|ls|] == ls == (ls + [y])[..|ls|];
  }

  lemma GluedLine(x: string, y: string)
    requires x != "" && IsFromLine(y)
    ensures IsFromLine(x + y) <==> IsFromLine(x)
  {
    assert y[0] == FROM[0] == 'F' && (x + y)[|x|] == 'F';
    assert forall j :: 0 < j < 5 ==> FROM[j] != 'F';
    if IsFromLine(x + y) {
      assert |x| >= 5;
      assert (x + y)[..5] == x[..5];
    }
  }

  lemma {:induction false} SplitPrefix(a: string, b: string)
    requires OneLine(b)
    ensures var s := Split(a, '\n'); Split(a + b, '\n') == s[..|s| - 1] + [s[|s| - 1] + b]
    decreases |b|
  {
    if b == "" {
      var s := Split(a, '\n');
      assert a + b == a && s[|s| - 1] + b == s[|s| - 1];
    } else {
      var b' := b[..|b| - 1];
      assert (a + b)[..|a + b| - 1] == a + b';
      var c := b[|b| - 1];
      assert b == b' + [c] && c != '\n';
      SplitPrefix(a, b');
      var s := Split(a, '\n');
      Regroup2(s[|s| - 1], b', [c]);
      assert (s[..|s| - 1] + [s[|s| - 1] + b'])[..|s| - 1] == s[..|s| - 1];
    }
  }

  /** The pieces of a spool whose unterminated last line runs into a block. */
  lemma GluedSplit(spool: string, ls: seq<string>)
    requires ls != [] && OneLiners(ls)
    ensures var s := Split(spool, '\n');
            Split(spool + Block(ls), '\n') == (s[..|s| - 1] + [s[|s| - 1] + ls[0]]) + (ls[1..] + [""])
  {
    assert ls == [ls[0]] + ls[1..];
    BlockAppend([ls[0]], ls[1..]);
    var rest := Block(ls[1..]);
    assert Block([ls[0]]) == ls[0] + "\n";
    assert spool + Block(ls) == (spool + ls[0]) + "\n" + rest;
    SplitAppend(spool + ls[0], '\n', rest);
    SplitPrefix(spool, ls[0]);
    SplitBlock(ls[1..]);
  }

  lemma TerminatedMiddle(init: seq<string>, line: string, rest: seq<string>)
    ensures Terminated((init + [line]) + (rest + [""])) == Ended(init) + [line + "\n"] + Ended(rest)
  {
    TerminatedConcat(init + [line], rest + [""]);
    TerminatedBlank(rest);
    assert Ended(init + [line]) == Ended(init) + [line + "\n"];
  }

  /** The lines of a spool whose unterminated last line runs into a record of lines `ls`. */
  lemma GluedLines(spool: string, ls: seq<string>)
    requires ls != [] && OneLiners(ls)
    ensures var s := Split(spool, '\n');
            var n := |s| - 1;
            Terminated(Split(spool + Block(ls), '\n')) == Ended(s[..n]) + [s[n] + ls[0] + "\n"] + Ended(ls[1..])
  {
    var s := Split(spool, '\n');
    GluedSplit(spool, ls);
    TerminatedMiddle(s[..|s| - 1], s[|s| - 1] + ls[0], ls[1..]);
  }

  /** Appended in the middle of a line, a record does not add to the number of records. */
  lemma GluedRecordLost(spool: string, m: string)
    requires IsRecord(m) && !AtLineStart(spool)
    ensures |Records(spool + m)| == |Records(spool)|
  {
    var ls :| RecordLines(ls) && m == Block(ls);
    var s := Split(spool, '\n');
    var init, x := s[..|s| - 1], s[|s| - 1];
    var glued, tail := x + ls[0] + "\n", Ended(ls[1..]);
    LastPiece(spool);
    GluedLines(spool, ls);
    forall i | 0 <= i < |tail|
      ensures !IsFromLine(tail[i])
    {
      NotFromTerminated(ls[1..][i]);
    }
    GroupTail(Ended(init) + [glued], tail);
    NotFromTerminated(x + ls[0]);
    GluedLine(x, ls[0]);
    GroupLast(Ended(init), x, glued);
  }

  /** Exactly when: an appended record is recovered if and only if the spool was at a line start. */
  lemma RecoveredIffLineStart(spool: string, m: string)
    requires IsRecord(m)
    ensures Records(spool + m) == Records(spool) + [m] <==> AtLineStart(spool)
  {
    if AtLineStart(spool) {
      AppendRecovered(spool, m);
    } else {
      GluedRecordLost(spool, m);
    }
  }

  // ---------------------------------------------------------------------
  // A record with text on both sides
  // ---------------------------------------------------------------------

  /** The first piece of a text, with its newline if it has one, begins the text. */
  lemma {:induction false} FirstPiece(b: string)
    ensures var s := Split(b, '\n'); if |s| == 1 then s[0] == b else s[0] + ['\n'] <= b
  {
    if b != "" {
      var init, c := b[..|b| - 1], b[|b| - 1];
      assert b == init + [c];
      FirstPiece(init);
      SplitSnoc(init, '\n', c);
    }
  }

  lemma LineDecides(line: string, b: string)
    requires OneLine(line) && line + ['\n'] <= b
    ensures IsFromLine(line + ['\n']) <==> IsFromLine(b)
  {
    var l := line + ['\n'];
    assert forall i :: 0 <= i < |l| ==> l[i] == b[i];
    if IsFromLine(b) {
      assert b[|line|] == '\n';
      assert b[..5] == FROM && '\n' !in FROM;
      assert |line| >= 5;
    }
  }

  /** The first line of a text is a separator line exactly when the text begins with the separator. */
  lemma FirstLineDecides(b: string)
    requires b != ""
    ensures Terminated(Split(b, '\n')) != []
    ensures IsFromLine(Terminated(Split(b, '\n'))[0]) <==> IsFromLine(b)
  {
    var s := Split(b, '\n');
    FirstPiece(b);
    if |s| > 1 {
      assert Terminated(s)[0] == s[0] + ['\n'];
      LineDecides(s[0], b);
    }
  }

  /** Joined at a line that is no separator, the last record and the first become one. */
  lemma {:induction false} GroupJoin(a: seq<string>, b: seq<string>)
    requires a != [] && b != [] && !IsFromLine(b[0])
    ensures |Group(a + b)| == |Group(a)| + |Group(b)| - 1
    decreases |b|
  {
    var b' := b[..|b| - 1];
    assert (a + b)[..|a + b| - 1] == a + b';
    if b' == [] {
      assert a + b' == a;
    } else {
      GroupJoin(a, b');
    }
  }

  /** Text appended at a line start keeps all records apart exactly when it begins with a separator. */
  lemma RecordsJoin(a: string, b: string)
    requires EndsWithNewline(a) && b != ""
    ensures IsFromLine(b) ==> Records(a + b) == Records(a) + Records(b)
    ensures !IsFromLine(b) ==> |Records(a + b)| == |Records(a)| + |Records(b)| - 1
  {
    var a' := a[..|a| - 1];
    assert a == a' + ['\n'];
    SplitSnoc(a', '\n', '\n');
    SplitAppend(a', '\n', b);
    TerminatedBlank(Split(a', '\n'));
    TerminatedConcat(Split(a', '\n'), Split(b, '\n'));
    FirstLineDecides(b);
    var x, y := Ended(Split(a', '\n')), Terminated(Split(b, '\n'));
    if IsFromLine(b) {
      GroupAppend(x, y);
    } else {
      GroupJoin(x, y);
    }
  }

  /**
   * Exactly when a reader finds a record where it stands in a larger text, apart from what is around it:
   * the text before ends at a line start and the text after, if any, begins with a separator. Otherwise
   * there are fewer records than the three parts have.
   */
  lemma RecordInPlaceIff(before: string, m: string, rest: string)
    requires IsRecord(m)
    ensures var intact := AtLineStart(before) && (rest == "" || IsFromLine(rest));
            && (Records(before + m + rest) == Records(before) + [m] + Records(rest) <==> intact)
            && (!intact ==> |Records(before + m + rest)| < |Records(before)| + 1 + |Records(rest)|)
  {
    RecoveredIffLineStart(before, m);
    if AtLineStart(before) {
      AppendRecovered(before, m);
    } else {
      GluedRecordLost(before, m);
    }
    RecordEndsLine(m);
    if rest == "" {
      assert before + m + rest == before + m;
      assert Records("") == [];
    } else {
      assert EndsWithNewline(before + m);
      RecordsJoin(before + m, rest);
    }
  }

  lemma RecordEndsLine(m: string)
    requires IsRecord(m)
    ensures EndsWithNewline(m) && IsFromLine(m)
  {
    var ls :| RecordLines(ls) && m == Block(ls);
    assert m[|m| - 1] == '\n';
    assert ls == [ls[0]] + ls[1..];
    BlockAppend([ls[0]], ls[1..]);
    assert Block([ls[0]]) == ls[0] + "\n";
  }

  /** A torn separator at the end is read as the last line of the record before it. */
  lemma TornTail(a: string, b: string)
    requires EndsWithNewline(a) && b != "" && OneLine(b) && !IsFromLine(b)
    ensures Records(a) != []
    ensures var r := Records(a); Records(a + b) == r[..|r| - 1] + [r[|r| - 1] + b]
  {
    var a' := a[..|a| - 1];
    assert a == a' + ['\n'];
    SplitSnoc(a', '\n', '\n');
    SplitAppend(a', '\n', b);
    SplitOnePiece(b, '\n');
    TerminatedBlank(Split(a', '\n'));
    TerminatedConcat(Split(a', '\n'), [b]);
    var x := Ended(Split(a', '\n'));
    assert Terminated([b]) == [b];
    assert (x + [b])[..|x|] == x;
  }
}
