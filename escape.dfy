/** The two table-driven rewrites of lib/iron/web/html.rb: `Html.escape_once`, which
    turns text into HTML without escaping an entity twice, and
    `Html.escape_javascript`, which prepares text for a JavaScript string literal. */
module HtmlEscape {
  import opened Support
  import opened SafeStrings

  /** `HTML_ESCAPE`: the replacement of each character the HTML escaper rewrites. */
  const HTML_ESCAPE: map<char, string> :=
    map['&' := "&amp;", '>' := "&gt;", '<' := "&lt;", '"' := "&quot;"]

  /** Text that starts with `letters;` (a named character reference after `&`). */
  predicate NameRef(t: string) {
    |t| >= 2 && IsLetter(t[0]) && (t[1] == ';' || NameRef(t[1..]))
  }

  /** Text that starts with `digits;`. */
  predicate DigitsRef(t: string) {
    |t| >= 2 && IsDigit(t[0]) && (t[1] == ';' || DigitsRef(t[1..]))
  }

  /** The look-ahead `([a-zA-Z]+|(#\d+));` of the escaper's pattern: the text after an
      `&` completes an entity, so that `&` is left alone. */
  predicate StartsEntity(t: string) {
    NameRef(t) || (|t| >= 1 && t[0] == '#' && DigitsRef(t[1..]))
  }

  /** Whether the character at the head of `s` is rewritten: `"`, `<`, `>` always,
      `&` only when it does not begin an entity. */
  predicate Rewritten(s: string)
    requires s != []
  {
    s[0] in HTML_ESCAPE && (s[0] != '&' || !StartsEntity(s[1..]))
  }

  /** The `gsub` of `escape_once`, character by character from the left. */
  function EscapeOnceText(s: string): string
    decreases |s|
  {
    if s == [] then []
    else (if Rewritten(s) then HTML_ESCAPE[s[0]] else [s[0]]) + EscapeOnceText(s[1..])
  }

  /** Text the escaper leaves alone: no raw `<`, `>` or `"`, and every `&` begins an
      entity. */
  predicate WellEscaped(t: string)
    decreases |t|
  {
    t == [] ||
    (t[0] != '<' && t[0] != '>' && t[0] != '"' &&
     (t[0] == '&' ==> StartsEntity(t[1..])) &&
     WellEscaped(t[1..]))
  }

  /** `Html.escape_once`: a value already marked safe is returned as it is; any other
      value has its text rewritten and comes back marked safe. */
  function EscapeOnce(v: SafeString): (r: SafeString)
    ensures IsHtmlSafe(r)
    ensures IsHtmlSafe(v) ==> r == v
    ensures !IsHtmlSafe(v) ==> r.text == EscapeOnceText(v.text)
  {
    if IsHtmlSafe(v) then v else SafeString(EscapeOnceText(v.text), true)
  }

  // ---------------------------------------------------------------------------
  // Escaping twice is escaping once

  /** Characters the escaper never touches pass through whatever follows them. */
  predicate Inert(c: char) {
    c != '&' && c != '<' && c != '>' && c != '"'
  }

  lemma {:induction false} InertPrefix(w: string, x: string)
    requires forall i :: 0 <= i < |w| ==> Inert(w[i])
    ensures EscapeOnceText(w + x) == w + EscapeOnceText(x)
    ensures WellEscaped(x) ==> WellEscaped(w + x)
  {
    if w == [] {
      assert w + x == x;
    } else {
      InertPrefix(w[1..], x);
      var wx := w + x;
      assert wx[0] == w[0] && w[0] !in HTML_ESCAPE;
      assert wx[1..] == w[1..] + x;
      assert !Rewritten(wx);
      assert EscapeOnceText(wx) == [w[0]] + (w[1..] + EscapeOnceText(x));
      assert [w[0]] + (w[1..] + EscapeOnceText(x)) == w + EscapeOnceText(x);
      if WellEscaped(x) {
        assert WellEscaped(wx[1..]);
      }
    }
  }

  /** Text without any of the four special characters is left as it is. */
  lemma InertText(w: string)
    requires forall i :: 0 <= i < |w| ==> Inert(w[i])
    ensures EscapeOnceText(w) == w
  {
    InertPrefix(w, []);
    assert w + [] == w;
  }

  /** A plain value without special characters is escaped to itself. */
  lemma InertValue(w: string)
    requires forall i :: 0 <= i < |w| ==> Inert(w[i])
    ensures EscapeOnce(Plain(w)).text == w
  {
    InertText(w);
  }

  lemma {:induction false} NameRefSuffix(w: string, x: string)
    requires |w| >= 1 && forall i :: 0 <= i < |w| ==> IsLetter(w[i])
    ensures NameRef(w + ";" + x)
  {
    if |w| > 1 {
      NameRefSuffix(w[1..], x);
      assert (w + ";" + x)[1..] == w[1..] + ";" + x;
    }
  }

  lemma {:induction false} NameRefKept(t: string)
    requires NameRef(t)
    ensures NameRef(EscapeOnceText(t))
    decreases |t|
  {
    assert !Rewritten(t);
    if t[1] == ';' {
      assert !Rewritten(t[1..]);
    } else {
      NameRefKept(t[1..]);
    }
  }

  lemma {:induction false} DigitsRefKept(t: string)
    requires DigitsRef(t)
    ensures DigitsRef(EscapeOnceText(t))
    decreases |t|
  {
    assert !Rewritten(t);
    if t[1] == ';' {
      assert !Rewritten(t[1..]);
    } else {
      DigitsRefKept(t[1..]);
    }
  }

  /** The escaper keeps an entity an entity. */
  lemma EntityKept(t: string)
    requires StartsEntity(t)
    ensures StartsEntity(EscapeOnceText(t))
  {
    if NameRef(t) {
      NameRefKept(t);
    } else {
      assert !Rewritten(t);
      DigitsRefKept(t[1..]);
    }
  }

  /** Each rewritten character becomes an entity that the escaper leaves alone. */
  lemma {:induction false} EntityPrefix(c: char, x: string)
    requires c in HTML_ESCAPE && WellEscaped(x)
    ensures WellEscaped(HTML_ESCAPE[c] + x)
  {
    var e := HTML_ESCAPE[c];
    var name := e[1..|e| - 1];
    EntityName(c);
    InertPrefix(name + ";", x);
    NameRefSuffix(name, x);
    assert (e + x)[1..] == name + ";" + x;
  }

  predicate InertName(name: string) {
    forall i :: 0 <= i < |name| ==> IsLetter(name[i]) && Inert(name[i])
  }

  /** Each replacement is `&`, a name of inert letters, and `;`. */
  lemma EntityName(c: char)
    requires c in HTML_ESCAPE
    ensures var e := HTML_ESCAPE[c];
            |e| >= 3 && e == "&" + e[1..|e| - 1] + ";" && InertName(e[1..|e| - 1])
  {
    var e := HTML_ESCAPE[c];
    if c == '&' {
      assert e == "&amp;";
    } else if c == '>' {
      assert e == "&gt;";
    } else if c == '<' {
      assert e == "&lt;";
    } else {
      assert e == "&quot;";
    }
  }

  /** Everything `escape_once` produces is well escaped. */
  lemma {:induction false} EscapedIsWellEscaped(s: string)
    ensures WellEscaped(EscapeOnceText(s))
    decreases |s|
  {
    if s != [] {
      EscapedIsWellEscaped(s[1..]);
      var rest := EscapeOnceText(s[1..]);
      if Rewritten(s) {
        EntityPrefix(s[0], rest);
      } else if s[0] == '&' {
        EntityKept(s[1..]);
        assert ([s[0]] + rest)[1..] == rest;
      } else {
        assert ([s[0]] + rest)[1..] == rest;
      }
    }
  }

  /** Well-escaped text is a fixed point of the escaper. */
  lemma {:induction false} WellEscapedFixed(t: string)
    requires WellEscaped(t)
    ensures EscapeOnceText(t) == t
    decreases |t|
  {
    if t != [] {
      WellEscapedFixed(t[1..]);
      assert !Rewritten(t);
    }
  }

  lemma {:induction false} NameRefExtends(t: string, y: string)
    requires NameRef(t)
    ensures NameRef(t + y)
    decreases |t|
  {
    assert (t + y)[1..] == t[1..] + y;
    if t[1] != ';' {
      NameRefExtends(t[1..], y);
    }
  }

  lemma {:induction false} DigitsRefExtends(t: string, y: string)
    requires DigitsRef(t)
    ensures DigitsRef(t + y)
    decreases |t|
  {
    assert (t + y)[1..] == t[1..] + y;
    if t[1] != ';' {
      DigitsRefExtends(t[1..], y);
    }
  }

  /** Appending text after an entity leaves it an entity. */
  lemma EntityExtends(t: string, y: string)
    requires StartsEntity(t)
    ensures StartsEntity(t + y)
  {
    if NameRef(t) {
      NameRefExtends(t, y);
    } else {
      DigitsRefExtends(t[1..], y);
      assert (t + y)[1..] == t[1..] + y;
    }
  }

  /** Joining two well-escaped texts gives well-escaped text. */
  lemma {:induction false} WellEscapedConcat(a: string, b: string)
    requires WellEscaped(a) && WellEscaped(b)
    ensures WellEscaped(a + b)
    decreases |a|
  {
    if a == [] {
      assert a + b == b;
    } else {
      WellEscapedConcat(a[1..], b);
      assert (a + b)[1..] == a[1..] + b;
      if a[0] == '&' {
        EntityExtends(a[1..], b);
      }
    }
  }

  /** The escaper brings in no character but those of its entities: any other
      character occurs in its output exactly when it occurs in its input. */
  lemma {:induction false} EscapeKeepsOtherChars(s: string, c: char)
    requires c !in "&<>\";amplgtquo"
    ensures c in EscapeOnceText(s) <==> c in s
    decreases |s|
  {
    if s != [] {
      EscapeKeepsOtherChars(s[1..], c);
      var head := if Rewritten(s) then HTML_ESCAPE[s[0]] else [s[0]];
      assert EscapeOnceText(s) == head + EscapeOnceText(s[1..]);
      assert s == [s[0]] + s[1..];
      assert c in head <==> c == s[0];
    }
  }

  /** Text is left unchanged by the escaper exactly when it is well escaped. */
  lemma FixedIffWellEscaped(t: string)
    ensures EscapeOnceText(t) == t <==> WellEscaped(t)
  {
    EscapedIsWellEscaped(t);
    if WellEscaped(t) {
      WellEscapedFixed(t);
    }
  }

  /** `escape_once` is idempotent on text, and re-escaping its result does nothing
      even after the safe mark has been lost (for instance by plain concatenation). */
  lemma EscapeOnceIdempotent(v: SafeString)
    ensures EscapeOnceText(EscapeOnceText(v.text)) == EscapeOnceText(v.text)
    ensures !IsHtmlSafe(v) ==> EscapeOnce(Plain(EscapeOnce(v).text)) == EscapeOnce(v)
  {
    EscapedIsWellEscaped(v.text);
    WellEscapedFixed(EscapeOnceText(v.text));
  }

  // ---------------------------------------------------------------------------
  // escape_javascript

  /** `JS_ESCAPE`: the replacement of each match. Keys that are missing give `nil`,
      which `gsub` turns into the empty string. */
  const JS_ESCAPE: map<string, string> :=
    map["\\" := "\\\\", "</" := "<\\/", "\r\n" := "\\n", "\n" := "\\n", "\r" := "\\n",
        "\"" := "\\\"", "'" := "\\'"]

  const LINE_SEPARATOR: char := '\U{2028}'
  const PARAGRAPH_SEPARATOR: char := '\U{2029}'

  function JsReplacement(m: string): string {
    if m in JS_ESCAPE then JS_ESCAPE[m] else ""
  }

  /** The match of the pattern `(\|<\/|\r\n|\342\200\250|\342\200\251|[\n\r"'])` at the
      head of `s`, if any. Its first alternative is the literal three characters
      `|</`; backslash and a bare `</` are not matched. */
  function JsMatchAsWritten(s: string): (m: string)
    ensures m == [] || (|m| <= |s| && s[..|m|] == m)
  {
    if StartsWith(s, "|</") then "|</"
    else if StartsWith(s, "\r\n") then "\r\n"
    else if s != [] && (s[0] == LINE_SEPARATOR || s[0] == PARAGRAPH_SEPARATOR
                        || s[0] == '\n' || s[0] == '\r' || s[0] == '"' || s[0] == '\'') then [s[0]]
    else []
  }

  /** The `gsub` of `escape_javascript` as written. */
  function EscapeJavascriptText(s: string): string
    decreases |s|
  {
    if s == [] then []
    else
      var m := JsMatchAsWritten(s);
      if m == [] then [s[0]] + EscapeJavascriptText(s[1..])
      else JsReplacement(m) + EscapeJavascriptText(s[|m|..])
  }

  /** `Html.escape_javascript`: nil gives the empty string; otherwise the rewritten
      text, marked safe exactly when the input was. */
  function EscapeJavascript(js: Option<SafeString>): (r: SafeString)
    ensures js.None? ==> r.text == ""
    ensures js.Some? ==> r.text == EscapeJavascriptText(js.value.text)
    ensures js.Some? ==> (IsHtmlSafe(r) <==> IsHtmlSafe(js.value))
  {
    match js
    case None => Plain("")
    case Some(v) =>
      var res := EscapeJavascriptText(v.text);
      if IsHtmlSafe(v) then HtmlSafe(Plain(res)) else Plain(res)
  }

  /** No raw line feed or carriage return in `t`. */
  predicate NoRawBreaks(t: string) {
    forall i :: 0 <= i < |t| ==> t[i] != '\n' && t[i] != '\r'
  }

  /** Every quote in `t` is preceded by a backslash. */
  predicate QuotesEscaped(t: string) {
    forall i :: 0 <= i < |t| && (t[i] == '"' || t[i] == '\'') ==> i > 0 && t[i - 1] == '\\'
  }

  lemma LiteralPieces(p: string, rest: string)
    requires NoRawBreaks(p) && QuotesEscaped(p)
    requires NoRawBreaks(rest) && QuotesEscaped(rest)
    ensures NoRawBreaks(p + rest) && QuotesEscaped(p + rest)
  {
    var t := p + rest;
    forall i | 0 <= i < |t| && (t[i] == '"' || t[i] == '\'')
      ensures i > 0 && t[i - 1] == '\\'
    {
      if i >= |p| {
        assert rest[i - |p|] == t[i];
      }
    }
  }

  /** No line break survives `escape_javascript`, and every quote in its output is
      preceded by a backslash. */
  lemma {:induction false} JsNoRawBreaks(s: string)
    ensures NoRawBreaks(EscapeJavascriptText(s))
    ensures QuotesEscaped(EscapeJavascriptText(s))
    decreases |s|
  {
    if s != [] {
      var m := JsMatchAsWritten(s);
      if m == [] {
        JsNoRawBreaks(s[1..]);
        assert s[0] != '\n' && s[0] != '\r' && s[0] != '"' && s[0] != '\'';
        LiteralPieces([s[0]], EscapeJavascriptText(s[1..]));
      } else {
        JsNoRawBreaks(s[|m|..]);
        var p := JsReplacement(m);
        assert p == "" || p == "\\n" || p == "\\\"" || p == "\\'";
        LiteralPieces(p, EscapeJavascriptText(s[|m|..]));
      }
    }
  }

  // ---------------------------------------------------------------------------
  // The escaper as evidently intended: the first alternative of the pattern was
  // meant to be `\\` (a backslash) followed by the alternative `<\/`, so that the
  // table's entries for backslash and `</` are used.

  function JsMatchIntended(s: string): (m: string)
    ensures m == [] || (|m| <= |s| && s[..|m|] == m)
  {
    if StartsWith(s, "\\") then "\\"
    else if StartsWith(s, "</") then "</"
    else if StartsWith(s, "\r\n") then "\r\n"
    else if s != [] && (s[0] == LINE_SEPARATOR || s[0] == PARAGRAPH_SEPARATOR
                        || s[0] == '\n' || s[0] == '\r' || s[0] == '"' || s[0] == '\'') then [s[0]]
    else []
  }

  function EscapeJavascriptIntended(s: string): string
    decreases |s|
  {
    if s == [] then []
    else
      var m := JsMatchIntended(s);
      if m == [] then [s[0]] + EscapeJavascriptIntended(s[1..])
      else JsReplacement(m) + EscapeJavascriptIntended(s[|m|..])
  }

  /** How a JavaScript engine reads the body of a string literal, for the escapes the
      table produces: a backslash makes the next character literal, except that
      `\n` is a line feed. */
  function JsLiteralValue(t: string): string
    decreases |t|
  {
    if t == [] then []
    else if t[0] == '\\' && |t| >= 2 then (if t[1] == 'n' then "\n" else [t[1]]) + JsLiteralValue(t[2..])
    else [t[0]] + JsLiteralValue(t[1..])
  }

  /** The text a literal is meant to carry: line breaks of every style become one line
      feed, and the two Unicode separators (absent from the table) are dropped. */
  function NormalizedBreaks(s: string): string
    decreases |s|
  {
    if s == [] then []
    else if StartsWith(s, "\r\n") then "\n" + NormalizedBreaks(s[2..])
    else if s[0] == '\r' then "\n" + NormalizedBreaks(s[1..])
    else if s[0] == LINE_SEPARATOR || s[0] == PARAGRAPH_SEPARATOR then NormalizedBreaks(s[1..])
    else [s[0]] + NormalizedBreaks(s[1..])
  }

  lemma JsValueOfEscape(e: char, x: string)
    requires e != 'n'
    ensures JsLiteralValue(['\\', e] + x) == [e] + JsLiteralValue(x)
  {
    assert (['\\', e] + x)[2..] == x;
  }

  lemma JsValueOfPlain(c: char, x: string)
    requires c != '\\'
    ensures JsLiteralValue([c] + x) == [c] + JsLiteralValue(x)
  {
    assert ([c] + x)[1..] == x;
  }

  /** The corrected escaper round-trips: the literal it builds reads back as the input
      with its line breaks normalised. */
  /** What a matched piece of the input means inside the literal. */
  function JsMeaning(m: string): string {
    if m == "\r\n" || m == "\r" then "\n"
    else if m == [LINE_SEPARATOR] || m == [PARAGRAPH_SEPARATOR] then ""
    else m
  }

  /** Reading back one replacement gives the meaning of the piece it replaced. */
  lemma ReplacementReadsBack(m: string, rest: string)
    requires m in {"\\", "</", "\r\n", "\n", "\r", "\"", "'", [LINE_SEPARATOR], [PARAGRAPH_SEPARATOR]}
    ensures JsLiteralValue(JsReplacement(m) + rest) == JsMeaning(m) + JsLiteralValue(rest)
  {
    if m == "\\" || m == "\"" || m == "'" {
      EscapedReadsBack(m, rest);
    } else if m == "</" {
      ScriptEndReadsBack(rest);
    } else if m == "\r\n" || m == "\n" || m == "\r" {
      BreakReadsBack(m, rest);
    } else {
      SeparatorReadsBack(m, rest);
    }
  }

  lemma EscapedReadsBack(m: string, rest: string)
    requires m in {"\\", "\"", "'"}
    ensures JsLiteralValue(JsReplacement(m) + rest) == JsMeaning(m) + JsLiteralValue(rest)
  {
    JsValueOfEscape(m[0], rest);
  }

  lemma ScriptEndReadsBack(rest: string)
    ensures JsLiteralValue(JsReplacement("</") + rest) == JsMeaning("</") + JsLiteralValue(rest)
  {
    assert JsReplacement("</") + rest == ['<'] + (['\\', '/'] + rest);
    JsValueOfEscape('/', rest);
    JsValueOfPlain('<', ['\\', '/'] + rest);
  }

  lemma BreakReadsBack(m: string, rest: string)
    requires m in {"\r\n", "\n", "\r"}
    ensures JsLiteralValue(JsReplacement(m) + rest) == JsMeaning(m) + JsLiteralValue(rest)
  {
    assert JsReplacement(m) + rest == ['\\', 'n'] + rest;
    assert (['\\', 'n'] + rest)[2..] == rest;
  }

  lemma SeparatorReadsBack(m: string, rest: string)
    requires m in {[LINE_SEPARATOR], [PARAGRAPH_SEPARATOR]}
    ensures JsLiteralValue(JsReplacement(m) + rest) == JsMeaning(m) + JsLiteralValue(rest)
  {
    assert m !in JS_ESCAPE;
    assert JsReplacement(m) + rest == rest;
  }

  /** Normalising the input takes its first matched piece to that piece's meaning. */
  lemma NormalizedHead(s: string)
    requires JsMatchIntended(s) != []
    ensures NormalizedBreaks(s) == JsMeaning(JsMatchIntended(s)) + NormalizedBreaks(s[|JsMatchIntended(s)|..])
  {
    var m := JsMatchIntended(s);
    if m == "</" {
      assert NormalizedBreaks(s) == "<" + NormalizedBreaks(s[1..]);
      assert s[1..][1..] == s[2..];
      assert NormalizedBreaks(s[1..]) == "/" + NormalizedBreaks(s[2..]);
    } else if m == "\n" {
      assert !StartsWith(s, "\r\n");
    }
  }

  /** The corrected escaper round-trips: the literal it builds reads back as the input
      with its line breaks normalised. */
  lemma {:induction false} IntendedRoundTrip(s: string)
    ensures JsLiteralValue(EscapeJavascriptIntended(s)) == NormalizedBreaks(s)
    decreases |s|
  {
    if s != [] {
      var m := JsMatchIntended(s);
      if m == [] {
        IntendedRoundTrip(s[1..]);
        JsValueOfPlain(s[0], EscapeJavascriptIntended(s[1..]));
      } else {
        IntendedRoundTrip(s[|m|..]);
        ReplacementReadsBack(m, EscapeJavascriptIntended(s[|m|..]));
        NormalizedHead(s);
      }
    }
  }

  /** No separator character (which the table deletes) in `s`. */
  predicate NoSeparators(s: string) {
    forall i :: 0 <= i < |s| ==> s[i] != LINE_SEPARATOR && s[i] != PARAGRAPH_SEPARATOR
  }

  /** No `</` (which would end a script element) in `t`. */
  predicate NoScriptEnd(t: string) {
    forall i :: 0 <= i < |t| - 1 ==> !(t[i] == '<' && t[i + 1] == '/')
  }

  /** The corrected escaper never lets `</` through, as long as no deleted separator
      brings a `<` and a `/` together. */
  lemma {:induction false} IntendedHidesScriptEnd(s: string)
    requires NoSeparators(s)
    ensures NoScriptEnd(EscapeJavascriptIntended(s))
    decreases |s|
  {
    if s != [] {
      var m := JsMatchIntended(s);
      var out := EscapeJavascriptIntended(s);
      if m == [] {
        IntendedHidesScriptEnd(s[1..]);
        var rest := EscapeJavascriptIntended(s[1..]);
        assert out == [s[0]] + rest;
        if s[0] == '<' && |s| >= 2 {
          assert s[1] != '/' && s[1] != LINE_SEPARATOR && s[1] != PARAGRAPH_SEPARATOR;
          JsHeadKept(s[1..]);
        }
        NoScriptEndConcat([s[0]], rest);
      } else {
        IntendedHidesScriptEnd(s[|m|..]);
        var rest := EscapeJavascriptIntended(s[|m|..]);
        var p := JsReplacement(m);
        assert out == p + rest;
        assert p == "\\\\" || p == "<\\/" || p == "\\n" || p == "\\\"" || p == "\\'";
        NoScriptEndConcat(p, rest);
      }
    }
  }

  lemma NoScriptEndConcat(a: string, b: string)
    requires NoScriptEnd(a) && NoScriptEnd(b)
    requires a == [] || b == [] || a[|a| - 1] != '<' || b[0] != '/'
    ensures NoScriptEnd(a + b)
  {
    var t := a + b;
    forall i | 0 <= i < |t| - 1
      ensures !(t[i] == '<' && t[i + 1] == '/')
    {
      if i >= |a| {
        assert t[i] == b[i - |a|] && t[i + 1] == b[i + 1 - |a|];
      } else if i + 1 < |a| {
        assert t[i] == a[i] && t[i + 1] == a[i + 1];
      }
    }
  }

  /** The corrected output of text that does not start with `/` does not start with `/`. */
  lemma JsHeadKept(s: string)
    requires s != [] && s[0] != '/' && s[0] != LINE_SEPARATOR && s[0] != PARAGRAPH_SEPARATOR
    ensures EscapeJavascriptIntended(s) != [] && EscapeJavascriptIntended(s)[0] != '/'
  {
    var m := JsMatchIntended(s);
    if m == [] {
      assert EscapeJavascriptIntended(s) == [s[0]] + EscapeJavascriptIntended(s[1..]);
    } else {
      var p := JsReplacement(m);
      assert p != [] && p[0] != '/';
      assert EscapeJavascriptIntended(s) == p + EscapeJavascriptIntended(s[|m|..]);
    }
  }

  /** Away from backslashes and `<`, the code as written and the corrected escaper
      make the same matches and so the same output. */
  lemma {:induction false} AsWrittenAgrees(s: string)
    requires '\\' !in s && '<' !in s
    ensures EscapeJavascriptText(s) == EscapeJavascriptIntended(s)
    decreases |s|
  {
    if s != [] {
      var m := JsMatchAsWritten(s);
      assert s[0] != '\\' && s[0] != '<';
      if |s| >= 3 {
        assert s[1] != '<' && s[..3][1] == s[1];
      }
      assert m == JsMatchIntended(s);
      var rest := s[|m|..];
      if m == [] {
        assert forall i :: 0 <= i < |s[1..]| ==> s[1..][i] == s[i + 1];
        AsWrittenAgrees(s[1..]);
      } else {
        assert forall i :: 0 <= i < |rest| ==> rest[i] == s[i + |m|];
        AsWrittenAgrees(rest);
      }
    }
  }

  /** So on such input the code as written round-trips as intended: the literal reads
      back as the input with its line breaks normalised. */
  lemma AsWrittenRoundTrip(s: string)
    requires '\\' !in s && '<' !in s
    ensures JsLiteralValue(EscapeJavascriptText(s)) == NormalizedBreaks(s)
  {
    AsWrittenAgrees(s);
    IntendedRoundTrip(s);
  }

  /** The code as written corrupts a literal backslash: the input `\n` (backslash, n)
      reads back as a line feed. */
  lemma AsWrittenCorruptsBackslash()
    ensures EscapeJavascriptText("\\n") == "\\n"
    ensures JsLiteralValue(EscapeJavascriptText("\\n")) == "\n"
    ensures NormalizedBreaks("\\n") == "\\n"
  {
    assert JsMatchAsWritten("\\n") == [];
    assert JsMatchAsWritten("n") == [];
  }

  /** ... lets `</` through, and deletes the three characters `|</`. */
  lemma AsWrittenPassesScriptEnd()
    ensures EscapeJavascriptText("</") == "</"
    ensures EscapeJavascriptText("|</") == ""
  {
    assert JsMatchAsWritten("</") == [];
    assert JsMatchAsWritten("/") == [];
  }
}
