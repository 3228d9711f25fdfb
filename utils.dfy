/** The pure helpers of lib/utils.ts: relative timestamps, truncation and the
    content-type heuristic. */
module Utils {
  import opened Strings
  import opened Types

  // ---------------------------------------------------------------- formatTimestamp

  const Minute: int := 60000
  const Hour: int := 3600000
  const Day: int := 86400000
  const Week: int := 604800000

  /** What `formatTimestamp` shows: a relative age, or (a week or more back) the
      locale-formatted date of the timestamp, which this model does not render. */
  datatype Age = JustNow | MinutesAgo(n: nat) | HoursAgo(n: nat) | DaysAgo(n: nat) | OnDate(timestamp: int)

  /** `formatTimestamp(timestamp)` with the clock reading passed in as `now`. The
      age in each unit is the whole number of elapsed units; anything less than a
      minute old, including a timestamp in the future, is "just now". */
  function FormatTimestamp(timestamp: int, now: int): (r: Age)
    ensures r.JustNow? <==> now - timestamp < Minute
    ensures r.MinutesAgo? <==> Minute <= now - timestamp < Hour
    ensures r.HoursAgo? <==> Hour <= now - timestamp < Day
    ensures r.DaysAgo? <==> Day <= now - timestamp < Week
    ensures r.MinutesAgo? ==> 1 <= r.n < 60 && r.n * Minute <= now - timestamp < (r.n + 1) * Minute
    ensures r.HoursAgo? ==> 1 <= r.n < 24 && r.n * Hour <= now - timestamp < (r.n + 1) * Hour
    ensures r.DaysAgo? ==> 1 <= r.n < 7 && r.n * Day <= now - timestamp < (r.n + 1) * Day
    ensures r.OnDate? ==> r.timestamp == timestamp
  {
    var diff := now - timestamp;
    if diff < Minute then JustNow
    else if diff < Hour then MinutesAgo(diff / Minute)
    else if diff < Day then HoursAgo(diff / Hour)
    else if diff < Week then DaysAgo(diff / Day)
    else OnDate(timestamp)
  }

  /** s is a canonical decimal numeral of value n followed by unit
      (ShowsCountIsRendering: that numeral is `String(n)`). */
  predicate ShowsCount(s: string, n: nat, unit: string) {
    |s| > |unit| && s[|s| - |unit|..] == unit
      && IsDecimal(s[..|s| - |unit|]) && ParseNat(s[..|s| - |unit|]) == n
  }

  /** A label that shows n is exactly `${n}` followed by the unit. */
  lemma ShowsCountIsRendering(s: string, n: nat, unit: string)
    requires ShowsCount(s, n, unit)
    ensures s == NatToString(n) + unit
  {
    DecimalIsRendering(s[..|s| - |unit|]);
    assert s == s[..|s| - |unit|] + s[|s| - |unit|..];
  }

  /** The text `formatTimestamp` returns for a relative age; None for the
      locale-formatted date. */
  function AgeLabel(a: Age): (r: Option<string>)
    ensures r.None? <==> a.OnDate?
    ensures a.JustNow? ==> r == Some("Just now")
    ensures a.MinutesAgo? ==> r.Some? && ShowsCount(r.value, a.n, "m ago")
    ensures a.HoursAgo? ==> r.Some? && ShowsCount(r.value, a.n, "h ago")
    ensures a.DaysAgo? ==> r.Some? && ShowsCount(r.value, a.n, "d ago")
  {
    match a
    case JustNow => Some("Just now")
    case MinutesAgo(n) => Some(CountLabel(n, "m ago"))
    case HoursAgo(n) => Some(CountLabel(n, "h ago"))
    case DaysAgo(n) => Some(CountLabel(n, "d ago"))
    case OnDate(_) => None
  }

  function CountLabel(n: nat, unit: string): (s: string)
    ensures ShowsCount(s, n, unit)
  {
    var s := NatToString(n) + unit;
    assert s[..|s| - |unit|] == NatToString(n) && s[|s| - |unit|..] == unit;
    ParseNatToString(n);
    s
  }

  // ---------------------------------------------------------------- truncateText

  /** `truncateText(text, maxLength)`: text itself when it fits, otherwise its
      first maxLength characters followed by "..." (a negative maxLength keeps
      nothing, as `substring` clamps it to 0). */
  function TruncateText(text: string, maxLength: int): (r: string)
    ensures |text| <= maxLength ==> r == text
    ensures |text| > maxLength && maxLength >= 0 ==>
      |r| == maxLength + 3 && IsPrefix(r[..maxLength], text) && r[maxLength..] == "..."
    ensures |text| > maxLength && maxLength < 0 ==> r == "..."
    ensures |r| <= |text| + 3
  {
    if |text| <= maxLength then text
    else text[..if maxLength < 0 then 0 else maxLength] + "..."
  }

  /** The `maxLength` used when the caller gives none. */
  const DefaultTruncateLength: int := 100

  /** With the default length, a text of up to 100 characters is shown whole and a
      longer one as its first 100 characters and "...". */
  lemma DefaultTruncation(text: string)
    ensures |text| <= 100 ==> TruncateText(text, DefaultTruncateLength) == text
    ensures |text| > 100 ==> TruncateText(text, DefaultTruncateLength) == text[..100] + "..."
  {
  }

  // ---------------------------------------------------------------- detectContentType

  /** `^` under the `m` flag matches at position i of s. */
  predicate LineStart(s: string, i: int) {
    0 <= i <= |s| && (i == 0 || IsLineTerminator(s[i - 1]))
  }

  /** /^https?:\/\/[^\s]+$/: the scheme, then one or more non-whitespace
      characters up to the end of the string. */
  predicate IsUrl(t: string) {
    || (IsPrefix("http://", t) && |t| > 7 && NoWhitespace(t[7..]))
    || (IsPrefix("https://", t) && |t| > 8 && NoWhitespace(t[8..]))
  }

  const Keywords: seq<string> :=
    ["function", "const", "let", "var", "class", "import", "export", "if", "for", "while"]

  predicate StartsWithKeyword(t: string) {
    || IsPrefix("function", t) || IsPrefix("const", t) || IsPrefix("let", t)
    || IsPrefix("var", t) || IsPrefix("class", t) || IsPrefix("import", t)
    || IsPrefix("export", t) || IsPrefix("if", t) || IsPrefix("for", t)
    || IsPrefix("while", t)
  }

  /** /^(function|const|let|var|class|import|export|if|for|while)/m — no word
      boundary follows the keyword. */
  predicate KeywordAtLineStart(s: string) {
    exists i :: 0 <= i <= |s| && LineStart(s, i) && StartsWithKeyword(s[i..])
  }

  predicate IsBracket(c: char) {
    c == '<' || c == '>' || c == '{' || c == '}' || c == '[' || c == ']'
  }

  /** /^[\s]*[<>{}[\]]/m — the whitespace run may cross line ends, since `\s`
      matches them. */
  predicate BracketAfterIndent(s: string) {
    exists i, j :: 0 <= i <= j < |s| && LineStart(s, i) && AllWhitespace(s[i..j]) && IsBracket(s[j])
  }

  /** /^[\s]*#![\/\w]+/ — without the `m` flag `^` matches only at position 0. */
  predicate Shebang(s: string) {
    exists j :: 0 <= j < |s| && ShebangAt(s, j)
  }

  /** The whole of s before j is whitespace, and `#!` followed by `/` or a word character starts at j. */
  predicate ShebangAt(s: string, j: int) {
    0 <= j && j + 2 < |s| && AllWhitespace(s[..j]) && s[j] == '#' && s[j + 1] == '!'
      && (s[j + 2] == '/' || IsWordChar(s[j + 2]))
  }

  /** /^[\s]*\/\*|\*\/|\/\//m — three alternatives: an opening block comment
      after the indentation of a line, a closing one anywhere, or `//` anywhere. */
  predicate CommentMarker(s: string) {
    || (exists i, j :: 0 <= i <= j && j + 1 < |s| && LineStart(s, i) && AllWhitespace(s[i..j])
          && s[j] == '/' && s[j + 1] == '*')
    || Contains(s, "*/")
    || Contains(s, "//")
  }

  /** `codePatterns.some(pattern => pattern.test(content))`. */
  predicate LooksLikeCode(s: string) {
    KeywordAtLineStart(s) || BracketAfterIndent(s) || Shebang(s) || CommentMarker(s)
  }

  /** `detectContentType(content)`: first match wins — the URL test on the
      trimmed text, then the code patterns on the text as given, else plain text. */
  function DetectContentType(content: string): (r: ContentType)
    ensures r != Image
  {
    if IsUrl(Trim(content)) then Link
    else if LooksLikeCode(content) then Script
    else Text
  }

  // ---------------------------------------------------------------- properties of the classifier

  /** t is the scheme followed by rest, and rest is a non-empty run of non-whitespace. */
  predicate UrlWithRest(t: string, rest: string) {
    rest != "" && NoWhitespace(rest) && (t == "http://" + rest || t == "https://" + rest)
  }

  /** The result is a link exactly when the trimmed input is an HTTP or HTTPS
      scheme followed by one or more non-whitespace characters and nothing else. */
  lemma LinkIff(content: string)
    ensures DetectContentType(content) == Link <==> exists rest :: UrlWithRest(Trim(content), rest)
  {
    var t := Trim(content);
    assert DetectContentType(content) == Link <==> IsUrl(t);
    UrlShape(t);
  }

  lemma UrlShape(t: string)
    ensures IsUrl(t) <==> exists rest :: UrlWithRest(t, rest)
  {
    if IsPrefix("http://", t) && |t| > 7 && NoWhitespace(t[7..]) {
      assert t == "http://" + t[7..];
      assert UrlWithRest(t, t[7..]);
    } else if IsPrefix("https://", t) && |t| > 8 && NoWhitespace(t[8..]) {
      assert t == "https://" + t[8..];
      assert UrlWithRest(t, t[8..]);
    }
    if rest :| UrlWithRest(t, rest) {
      if t == "http://" + rest {
        assert t[..7] == "http://" && t[7..] == rest;
      } else {
        assert t[..8] == "https://" && t[8..] == rest;
      }
    }
  }

  /** The keyword test of the classifier is a test against the list of keywords. */
  lemma StartsWithKeywordIff(t: string)
    ensures StartsWithKeyword(t) <==> exists k :: 0 <= k < |Keywords| && IsPrefix(Keywords[k], t)
  {
    if StartsWithKeyword(t) {
      if IsPrefix("function", t) { assert IsPrefix(Keywords[0], t); }
      else if IsPrefix("const", t) { assert IsPrefix(Keywords[1], t); }
      else if IsPrefix("let", t) { assert IsPrefix(Keywords[2], t); }
      else if IsPrefix("var", t) { assert IsPrefix(Keywords[3], t); }
      else if IsPrefix("class", t) { assert IsPrefix(Keywords[4], t); }
      else if IsPrefix("import", t) { assert IsPrefix(Keywords[5], t); }
      else if IsPrefix("export", t) { assert IsPrefix(Keywords[6], t); }
      else if IsPrefix("if", t) { assert IsPrefix(Keywords[7], t); }
      else if IsPrefix("for", t) { assert IsPrefix(Keywords[8], t); }
      else { assert IsPrefix(Keywords[9], t); }
    }
  }

  /** Unless the input is a link, `//` or a closing block-comment marker anywhere in it makes it a script
      (so does prose that mentions a URL among other words). */
  lemma CommentMarkerMakesScript(pre: string, marker: string, post: string)
    requires marker == "//" || marker == "*/"
    requires DetectContentType(pre + marker + post) != Link
    ensures DetectContentType(pre + marker + post) == Script
  {
    CommentMarkerIsCode(pre, marker, post);
  }

  lemma CommentMarkerIsCode(pre: string, marker: string, post: string)
    requires marker == "//" || marker == "*/"
    ensures LooksLikeCode(pre + marker + post)
  {
    var s := pre + marker + post;
    assert s[|pre|..][..2] == marker;
    assert OccursAt(s, marker, |pre|);
  }

  /** Unless the input is a link, a line that starts with a keyword makes it a
      script; nothing needs to follow the keyword, so "letter" counts. */
  lemma KeywordLineMakesScript(pre: string, k: nat, post: string)
    requires pre == "" || IsLineTerminator(pre[|pre| - 1])
    requires k < |Keywords|
    requires DetectContentType(pre + Keywords[k] + post) != Link
    ensures DetectContentType(pre + Keywords[k] + post) == Script
  {
    KeywordLineIsCode(pre, k, post);
  }

  lemma KeywordLineIsCode(pre: string, k: nat, post: string)
    requires pre == "" || IsLineTerminator(pre[|pre| - 1])
    requires k < |Keywords|
    ensures LooksLikeCode(pre + Keywords[k] + post)
  {
    var s := pre + Keywords[k] + post;
    assert s[|pre|..][..|Keywords[k]|] == Keywords[k];
    StartsWithKeywordIff(s[|pre|..]);
    assert LineStart(s, |pre|);
  }

  /** Unless the input is a link, a line that is indentation followed by one of
      `<>{}[]` makes it a script. */
  lemma BracketLineMakesScript(pre: string, indent: string, b: char, post: string)
    requires pre == "" || IsLineTerminator(pre[|pre| - 1])
    requires AllWhitespace(indent) && IsBracket(b)
    requires DetectContentType(pre + indent + [b] + post) != Link
    ensures DetectContentType(pre + indent + [b] + post) == Script
  {
    BracketLineIsCode(pre, indent, b, post);
  }

  lemma BracketLineIsCode(pre: string, indent: string, b: char, post: string)
    requires pre == "" || IsLineTerminator(pre[|pre| - 1])
    requires AllWhitespace(indent) && IsBracket(b)
    ensures LooksLikeCode(pre + indent + [b] + post)
  {
    var s := pre + indent + [b] + post;
    assert s[|pre|..|pre| + |indent|] == indent;
    assert s[|pre| + |indent|] == b;
    assert LineStart(s, |pre|);
  }

  /** Unless the input is a link, a line that is indentation followed by an
      opening block-comment marker makes it a script. */
  lemma OpeningCommentLineMakesScript(pre: string, indent: string, post: string)
    requires pre == "" || IsLineTerminator(pre[|pre| - 1])
    requires AllWhitespace(indent)
    requires DetectContentType(pre + indent + "/*" + post) != Link
    ensures DetectContentType(pre + indent + "/*" + post) == Script
  {
    OpeningCommentLineIsCode(pre, indent, post);
  }

  lemma OpeningCommentLineIsCode(pre: string, indent: string, post: string)
    requires pre == "" || IsLineTerminator(pre[|pre| - 1])
    requires AllWhitespace(indent)
    ensures CommentMarker(pre + indent + "/*" + post)
  {
    var s := pre + indent + "/*" + post;
    var i, j := |pre|, |pre| + |indent|;
    assert s[i..j] == indent;
    assert s[j] == '/' && s[j + 1] == '*';
    assert LineStart(s, i);
  }

  /** A shebang (`#!` then `/` or a word character) after leading whitespace makes
      the input a script; it cannot be a link, since it does not start with 'h'. */
  lemma ShebangMakesScript(indent: string, c: char, post: string)
    requires AllWhitespace(indent)
    requires c == '/' || IsWordChar(c)
    ensures DetectContentType(indent + "#!" + [c] + post) == Script
  {
    var s := indent + "#!" + [c] + post;
    var j := |indent|;
    assert s[..j] == indent;
    assert s[j] == '#' && s[j + 1] == '!' && s[j + 2] == c;
    assert ShebangAt(s, j);
    NotLinkUnlessH(s, j);
  }

  /** A shebang is recognised only as the first non-whitespace of the whole input. */
  lemma ShebangOnlyAtStart(s: string)
    requires Shebang(s)
    ensures IsPrefix("#!", TrimStart(s))
  {
    var j :| 0 <= j < |s| && ShebangAt(s, j);
    TrimStartAt(s, j);
    var t := s[j..];
    assert t[..2] == "#!" by {
      assert t[0] == '#' && t[1] == '!';
    }
  }

  /** An HTTPS scheme followed by a run of non-whitespace, with nothing around it, is a link. */
  lemma HttpsUrlIsLink(rest: string)
    requires rest != "" && NoWhitespace(rest)
    ensures DetectContentType("https://" + rest) == Link
  {
    var u := "https://" + rest;
    assert u[0] == 'h' && u[|u| - 1] == rest[|rest| - 1];
    assert TrimStart(u) == u && TrimEnd(u) == u;
    assert u[..8] == "https://" && u[8..] == rest;
  }

  /** Plain text is what is left: a single line that starts with a capital letter
      and holds neither '/' nor '*' matches no pattern, so it is text. The capital
      rules out a URL, a keyword, indentation, a bracket and a shebang at the only
      line start; the missing characters rule out every comment marker. */
  lemma ProseLineIsText(s: string)
    requires s != [] && 'A' <= s[0] <= 'Z'
    requires '/' !in s && '*' !in s
    requires forall c :: c in s ==> !IsLineTerminator(c)
    ensures DetectContentType(s) == Text
  {
    NotLinkUnlessH(s, 0);
    OnlyLineStartIsFirst(s);
    NoKeywordLine(s);
    NoBracketLine(s);
    NoShebang(s);
    NoCommentMarker(s);
  }

  lemma NoKeywordLine(s: string)
    requires s != [] && 'A' <= s[0] <= 'Z'
    requires forall i :: LineStart(s, i) ==> i == 0
    ensures !KeywordAtLineStart(s)
  {
    if StartsWithKeyword(s[0..]) {
      StartsWithKeywordIff(s[0..]);
      var k :| 0 <= k < |Keywords| && IsPrefix(Keywords[k], s[0..]);
      PrefixFirstChar(Keywords[k], s[0..]);
    }
  }

  lemma NoBracketLine(s: string)
    requires s != [] && 'A' <= s[0] <= 'Z'
    requires forall i :: LineStart(s, i) ==> i == 0
    ensures !BracketAfterIndent(s)
  {
    forall j | 0 < j <= |s|
      ensures !AllWhitespace(s[0..j])
    {
      assert s[0..j][0] == s[0];
    }
  }

  lemma NoShebang(s: string)
    requires s != [] && 'A' <= s[0] <= 'Z'
    ensures !Shebang(s)
  {
    forall j | 0 < j <= |s|
      ensures !AllWhitespace(s[..j])
    {
      assert s[..j][0] == s[0];
    }
  }

  lemma NoCommentMarker(s: string)
    requires '/' !in s && '*' !in s
    ensures !CommentMarker(s)
  {
    forall j | 0 <= j < |s|
      ensures s[j] != '/'
    {
      assert s[j] in s;
    }
    if Contains(s, "//") { ContainsFirstChar(s, "//"); }
    if Contains(s, "*/") { ContainsFirstChar(s, "*/"); }
  }

  /** In a text without line terminators, `^` under the `m` flag matches only at 0. */
  lemma OnlyLineStartIsFirst(s: string)
    requires forall c :: c in s ==> !IsLineTerminator(c)
    ensures forall i :: LineStart(s, i) ==> i == 0
  {
    forall i | LineStart(s, i)
      ensures i == 0
    {
      if i > 0 { assert s[i - 1] in s; }
    }
  }

  /** Example inputs and their classes. */
  lemma TextExample()
    ensures DetectContentType("Hello, how are you?") == Text
  {
    ProseLineIsText("Hello, how are you?");
  }

  lemma UrlExample()
    ensures DetectContentType("https://" + "example.com/path") == Link
  {
    ExampleHostHasNoWhitespace();
    HttpsUrlIsLink("example.com/path");
  }

  lemma ExampleHostHasNoWhitespace()
    ensures NoWhitespace("example.com/path")
  {
  }

  /** Nothing whose first non-whitespace character (at k) is not 'h' is a link. */
  lemma NotLinkUnlessH(content: string, k: nat)
    requires k < |content| && AllWhitespace(content[..k])
    requires !IsWhitespace(content[k]) && content[k] != 'h'
    ensures DetectContentType(content) != Link
  {
    TrimFirst(content, k);
    var t := Trim(content);
    if IsPrefix("http://", t) {
      PrefixFirstChar("http://", t);
    }
    if IsPrefix("https://", t) {
      PrefixFirstChar("https://", t);
    }
  }

  lemma KeywordExample()
    ensures DetectContentType("const x = 1") == Script
  {
    var c := "const x = 1";
    assert c == "" + Keywords[1] + " x = 1";
    NotLinkUnlessH(c, 0);
    KeywordLineMakesScript("", 1, " x = 1");
  }

  lemma CommentExample()
    ensures DetectContentType("  " + "//" + " a comment\nsome text") == Script
  {
    IndentedCommentIsScript(" a comment\nsome text");
  }

  /** A `//` comment after two spaces makes a script, whatever follows. */
  lemma IndentedCommentIsScript(rest: string)
    ensures DetectContentType("  " + "//" + rest) == Script
  {
    var m := "  " + "//" + rest;
    assert m[..2] == "  ";
    assert m[2] == '/';
    NotLinkUnlessH(m, 2);
    CommentMarkerMakesScript("  ", "//", rest);
  }
}
