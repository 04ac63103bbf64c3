/** robots.txt path patterns: the regular expression they are compiled to, and the language of
    section 2.2.3 of RFC 9309 that it must decide. */
module RobotsPattern {
  import opened Text
  import opened Wrappers

  // ---------- the compiled regular expression ----------

  predicate IsSpecial(c: char) {
    || c == '.' || c == '+' || c == '?' || c == '^' || c == '$' || c == '{' || c == '}'
    || c == '(' || c == ')' || c == '|' || c == '[' || c == ']' || c == '\\'
  }

  function EscapeChar(c: char): string {
    if IsSpecial(c) then ['\\', c] else [c]
  }

  function Escape(part: string): string {
    if part == "" then "" else EscapeChar(part[0]) + Escape(part[1..])
  }

  function EscapeAll(parts: seq<string>): string {
    if parts == [] then ""
    else if |parts| == 1 then Escape(parts[0])
    else Escape(parts[0]) + ".*" + EscapeAll(parts[1..])
  }

  predicate Anchored(pattern: string) {
    pattern != "" && pattern[|pattern| - 1] == '$'
  }

  function Body(pattern: string): string {
    if Anchored(pattern) then pattern[..|pattern| - 1] else pattern
  }

  /** The source text of the expression, after its leading `^`. */
  function RegexSource(pattern: string): string {
    EscapeAll(Split(Body(pattern), '*')) + if Anchored(pattern) then "$" else ""
  }

  // ---------- regular expressions ----------

  /** The fragment of regular expressions that patterns compile to. */
  datatype Token = Literal(c: char) | AnyRun | End

  /** Reads a source text of the fragment: an escaped special character, `.*`, a final `$`, or a
      plain character.  Anything else is outside the fragment. */
  function ParseRegex(source: string): Option<seq<Token>> {
    if source == "" then Some([])
    else if source[0] == '\\' then
      if |source| >= 2 && IsSpecial(source[1]) then Prepend(Literal(source[1]), ParseRegex(source[2..])) else None
    else if source[0] == '.' then
      if |source| >= 2 && source[1] == '*' then Prepend(AnyRun, ParseRegex(source[2..])) else None
    else if source == "$" then Some([End])
    else if IsSpecial(source[0]) || source[0] == '*' then None
    else Prepend(Literal(source[0]), ParseRegex(source[1..]))
  }

  function Prepend(t: Token, rest: Option<seq<Token>>): Option<seq<Token>> {
    match rest
    case None => None
    case Some(tokens) => Some([t] + tokens)
  }

  predicate IsBreak(c: char) {
    c in {'\n', '\r', '\U{2028}', '\U{2029}'}
  }

  predicate NoBreaks(s: string) {
    forall c <- s :: !IsBreak(c)
  }

  /** Whether the expression matches at the start of the text. */
  predicate Matches(tokens: seq<Token>, text: string)
    decreases |tokens|
  {
    tokens == [] ||
    match tokens[0]
    case Literal(c) => text != "" && text[0] == c && Matches(tokens[1..], text[1..])
    case AnyRun => exists k :: 0 <= k <= |text| && NoBreaks(text[..k]) && Matches(tokens[1..], text[k..])
    case End => text == "" && Matches(tokens[1..], text)
  }

  /** The rule's compiled expression, tested against a path. */
  predicate Test(pattern: string, path: string) {
    var tokens := ParseRegex(RegexSource(pattern));
    tokens.Some? && Matches(tokens.value, path)
  }

  // ---------- the pattern language ----------

  /** The whole text matches: `*` stands for any run of characters, all else for itself. */
  predicate Wild(body: string, text: string)
    decreases |body|
  {
    if body == "" then text == ""
    else if body[0] == '*' then exists k :: 0 <= k <= |text| && Wild(body[1..], text[k..])
    else text != "" && text[0] == body[0] && Wild(body[1..], text[1..])
  }

  /** Some beginning of the text matches the body. */
  predicate WildPrefix(body: string, text: string) {
    exists n :: 0 <= n <= |text| && Wild(body, text[..n])
  }

  /** A trailing `$` asks for the whole path; otherwise some beginning of it must match. */
  predicate Accepts(pattern: string, path: string) {
    if Anchored(pattern) then Wild(Body(pattern), path)
    else WildPrefix(pattern, path)
  }

  // ---------- the expression decides the language ----------

  /** The tokens a body should compile to. */
  function TokensOf(body: string): seq<Token> {
    if body == "" then []
    else [if body[0] == '*' then AnyRun else Literal(body[0])] + TokensOf(body[1..])
  }

  lemma {:induction false} ParseChar(c: char, tail: string, tokens: seq<Token>)
    requires c != '*' && ParseRegex(tail) == Some(tokens)
    ensures ParseRegex(EscapeChar(c) + tail) == Some([Literal(c)] + tokens)
  {
    var source := EscapeChar(c) + tail;
    if IsSpecial(c) {
      assert source[0] == '\\' && source[1] == c && source[2..] == tail;
    } else {
      assert source[0] == c && source[1..] == tail;
    }
  }

  lemma {:induction false} ParseEscaped(part: string, rest: string, tokens: seq<Token>)
    requires '*' !in part && ParseRegex(rest) == Some(tokens)
    ensures ParseRegex(Escape(part) + rest) == Some(TokensOf(part) + tokens)
  {
    if part == "" {
      assert Escape(part) + rest == rest && TokensOf(part) + tokens == tokens;
    } else {
      assert part[0] in part && '*' !in part[1..];
      ParseEscaped(part[1..], rest, tokens);
      ParseChar(part[0], Escape(part[1..]) + rest, TokensOf(part[1..]) + tokens);
      assert Escape(part) + rest == EscapeChar(part[0]) + (Escape(part[1..]) + rest);
      assert TokensOf(part) + tokens == [Literal(part[0])] + (TokensOf(part[1..]) + tokens);
    }
  }

  lemma {:induction false} ParseRun(tail: string, tokens: seq<Token>)
    requires ParseRegex(tail) == Some(tokens)
    ensures ParseRegex(".*" + tail) == Some([AnyRun] + tokens)
  {
    assert (".*" + tail)[2..] == tail;
  }

  lemma {:induction false} TokensJoin(a: string, b: string)
    ensures TokensOf(a + b) == TokensOf(a) + TokensOf(b)
  {
    if a == "" {
      assert a + b == b;
    } else {
      TokensJoin(a[1..], b);
      assert (a + b)[1..] == a[1..] + b;
    }
  }

  lemma {:induction false} ParseAll(parts: seq<string>, rest: string, tokens: seq<Token>)
    requires parts != [] && (forall p <- parts :: '*' !in p) && ParseRegex(rest) == Some(tokens)
    ensures ParseRegex(EscapeAll(parts) + rest) == Some(TokensOf(Join(parts, '*')) + tokens)
    decreases |parts|
  {
    var first := parts[0];
    assert first in parts;
    if |parts| == 1 {
      assert EscapeAll(parts) == Escape(first) && Join(parts, '*') == first;
      ParseEscaped(first, rest, tokens);
    } else {
      ParseAll(parts[1..], rest, tokens);
      var more := Join(parts[1..], '*');
      ParseMore(first, EscapeAll(parts[1..]), rest, TokensOf(more) + tokens);
      TokensOfJoin(first, more, tokens);
    }
  }

  lemma {:induction false} ParseMore(first: string, escaped: string, rest: string, tokens: seq<Token>)
    requires '*' !in first && ParseRegex(escaped + rest) == Some(tokens)
    ensures ParseRegex(Escape(first) + ".*" + escaped + rest) == Some(TokensOf(first) + ([AnyRun] + tokens))
  {
    ParseRun(escaped + rest, tokens);
    ParseEscaped(first, ".*" + (escaped + rest), [AnyRun] + tokens);
    assert Escape(first) + ".*" + escaped + rest == Escape(first) + (".*" + (escaped + rest));
  }

  lemma {:induction false} TokensOfJoin(first: string, more: string, tokens: seq<Token>)
    ensures TokensOf(first + ['*'] + more) + tokens == TokensOf(first) + ([AnyRun] + (TokensOf(more) + tokens))
  {
    TokensJoin(first, ['*'] + more);
    assert first + ['*'] + more == first + (['*'] + more);
    assert (['*'] + more)[1..] == more;
  }

  /** Escaping loses nothing: the compiled expression is always in the fragment. */
  lemma RegexIsPattern(pattern: string)
    ensures ParseRegex(RegexSource(pattern)) ==
            Some(TokensOf(Body(pattern)) + if Anchored(pattern) then [End] else [])
  {
    var body := Body(pattern);
    JoinSplit(body, '*');
    var rest := if Anchored(pattern) then "$" else "";
    assert ParseRegex("$") == Some([End]);
    ParseAll(Split(body, '*'), rest, if Anchored(pattern) then [End] else []);
  }

  lemma {:induction false} WholeMatch(body: string, text: string)
    requires NoBreaks(text)
    ensures Matches(TokensOf(body) + [End], text) <==> Wild(body, text)
    decreases |body|
  {
    var tokens := TokensOf(body) + [End];
    if body == "" {
      assert tokens == [End] && tokens[1..] == [];
    } else {
      assert tokens[1..] == TokensOf(body[1..]) + [End];
      if body[0] == '*' {
        forall k | 0 <= k <= |text|
          ensures NoBreaks(text[..k]) && Matches(tokens[1..], text[k..]) <==> Wild(body[1..], text[k..])
        {
          WholeMatch(body[1..], text[k..]);
        }
      } else if text != "" {
        WholeMatch(body[1..], text[1..]);
      }
    }
  }

  lemma PrefixStar(body: string, text: string)
    requires body != "" && body[0] == '*'
    ensures WildPrefix(body, text) <==> exists k :: 0 <= k <= |text| && WildPrefix(body[1..], text[k..])
  {
    if WildPrefix(body, text) {
      var n :| 0 <= n <= |text| && Wild(body, text[..n]);
      var prefix := text[..n];
      var k :| 0 <= k <= |prefix| && Wild(body[1..], prefix[k..]);
      assert prefix[k..] == text[k..][..n - k];
      assert WildPrefix(body[1..], text[k..]);
    }
    if exists k :: 0 <= k <= |text| && WildPrefix(body[1..], text[k..]) {
      var k :| 0 <= k <= |text| && WildPrefix(body[1..], text[k..]);
      var n :| 0 <= n <= |text| - k && Wild(body[1..], text[k..][..n]);
      assert text[..k + n][k..] == text[k..][..n];
      assert Wild(body, text[..k + n]);
    }
  }

  lemma PrefixChar(body: string, text: string)
    requires body != "" && body[0] != '*'
    ensures WildPrefix(body, text) <==> text != "" && text[0] == body[0] && WildPrefix(body[1..], text[1..])
  {
    if WildPrefix(body, text) {
      var n :| 0 <= n <= |text| && Wild(body, text[..n]);
      assert text[..n][1..] == text[1..][..n - 1];
      assert Wild(body[1..], text[1..][..n - 1]);
    }
    if text != "" && text[0] == body[0] && WildPrefix(body[1..], text[1..]) {
      var n :| 0 <= n <= |text| - 1 && Wild(body[1..], text[1..][..n]);
      assert text[..n + 1][1..] == text[1..][..n];
      assert Wild(body, text[..n + 1]);
    }
  }

  lemma {:induction false} PrefixMatch(body: string, text: string)
    requires NoBreaks(text)
    ensures Matches(TokensOf(body), text) <==> WildPrefix(body, text)
    decreases |body|
  {
    var tokens := TokensOf(body);
    if body == "" {
      assert Wild(body, text[..0]);
    } else if body[0] == '*' {
      PrefixStar(body, text);
      forall k | 0 <= k <= |text|
        ensures NoBreaks(text[..k]) && Matches(tokens[1..], text[k..]) <==> WildPrefix(body[1..], text[k..])
      {
        PrefixMatch(body[1..], text[k..]);
      }
    } else {
      PrefixChar(body, text);
      if text != "" {
        PrefixMatch(body[1..], text[1..]);
      }
    }
  }

  /** On every path without line breaks, the compiled expression decides the pattern language. */
  lemma TestDecides(pattern: string, path: string)
    requires NoBreaks(path)
    ensures Test(pattern, path) <==> Accepts(pattern, path)
  {
    RegexIsPattern(pattern);
    var body := Body(pattern);
    if Anchored(pattern) {
      WholeMatch(body, path);
    } else {
      assert TokensOf(body) + [] == TokensOf(body);
      PrefixMatch(body, path);
    }
  }
}
