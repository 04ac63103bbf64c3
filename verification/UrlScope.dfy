/** The crawl's scope: registrable domains, path prefixes, and glob lists over paths. */
module UrlScope {
  import opened Wrappers
  import opened Sequences
  import opened Text
  import opened RobotsPattern

  // ---------- registrable domains ----------

  /** Second-to-last labels that belong to a public suffix. */
  predicate IsSuffixLabel(first: string) {
    first in {"co", "com", "net", "org", "gov", "ac", "edu"}
  }

  function WithoutDot(host: string): string {
    if host != "" && host[|host| - 1] == '.' then host[..|host| - 1] else host
  }

  function Clean(host: string): string {
    WithoutDot(Lower(Trim(host)))
  }

  function LastLabels(labels: seq<string>, n: nat): string {
    if |labels| <= n then Join(labels, '.') else Join(labels[|labels| - n..], '.')
  }

  /** The last two labels, or three below a public suffix. */
  function DomainOfLabels(labels: seq<string>): string {
    if |labels| <= 2 then Join(labels, '.')
    else LastLabels(labels, if IsSuffixLabel(labels[|labels| - 2]) then 3 else 2)
  }

  function RegistrableDomain(host: string, isIP: string -> bool): string {
    var clean := Clean(host);
    var bare := if |clean| >= 2 && clean[0] == '[' && clean[|clean| - 1] == ']' then clean[1..|clean| - 1] else clean;
    if isIP(bare) then clean else DomainOfLabels(Split(clean, '.'))
  }

  /** A host as the URL parser gives it: lower case, trimmed, no final dot, not an address. */
  predicate PlainHost(host: string, isIP: string -> bool) {
    host != "" && Clean(host) == host && host[0] != '[' && !isIP(host)
  }

  lemma {:induction false} PlainDomain(host: string, isIP: string -> bool)
    requires PlainHost(host, isIP)
    ensures RegistrableDomain(host, isIP) == DomainOfLabels(Split(host, '.'))
  {
  }

  /** Splitting a host with one more label in front. */
  lemma {:induction false} SplitFirst(first: string, host: string)
    requires '.' !in first
    ensures Split(first + "." + host, '.') == [first] + Split(host, '.')
  {
    FindAt(first, '.', "." + host);
    var s := first + "." + host;
    assert s == first + ("." + host) && s[..|first|] == first && s[|first| + 1..] == host;
  }

  /** A subdomain has its parent's registrable domain exactly when the parent has one: three labels or
      more, or two of which the first is no suffix label. */
  lemma {:induction false} SubdomainShares(first: string, host: string, isIP: string -> bool)
    requires '.' !in first && PlainHost(host, isIP) && PlainHost(first + "." + host, isIP)
    ensures var labels := Split(host, '.');
      RegistrableDomain(first + "." + host, isIP) == RegistrableDomain(host, isIP) <==>
        |labels| > 2 || (|labels| == 2 && !IsSuffixLabel(labels[0]))
  {
    var labels := Split(host, '.');
    var all := [first] + labels;
    PlainDomain(host, isIP);
    PlainDomain(first + "." + host, isIP);
    SplitFirst(first, host);
    JoinSplit(host, '.');
    if |labels| > 2 {
      DeeperShares(first, labels);
    } else if |labels| == 2 {
      assert all[1..] == labels && all[3 - 2..] == labels && all[0..] == all;
      LongerJoin(first, labels);
    } else {
      LongerJoin(first, labels);
    }
  }

  predicate LowerLetter(c: char) {
    'a' <= c <= 'z'
  }

  predicate Letters(part: string) {
    part != "" && forall i :: 0 <= i < |part| ==> LowerLetter(part[i])
  }

  lemma LettersArePlain(host: string, isIP: string -> bool)
    requires host != "" && LowerLetter(host[0]) && LowerLetter(host[|host| - 1]) && !isIP(host)
    requires forall i :: 0 <= i < |host| ==> LowerLetter(host[i]) || host[i] == '.'
    ensures PlainHost(host, isIP)
  {
    TrimTrimmed(host);
    assert Lower(host) == host;
  }

  /** The condition fails below a public suffix: the host keeps its own three labels, and the suffix its
      two. */
  lemma BelowSuffix(first: string, suffix: string, top: string, isIP: string -> bool)
    requires Letters(first) && Letters(suffix) && Letters(top) && IsSuffixLabel(suffix)
    requires !isIP(suffix + "." + top) && !isIP(first + "." + (suffix + "." + top))
    ensures RegistrableDomain(first + "." + (suffix + "." + top), isIP) != RegistrableDomain(suffix + "." + top, isIP)
  {
    var parent := suffix + "." + top;
    var host := first + "." + parent;
    LettersArePlain(parent, isIP);
    LettersArePlain(host, isIP);
    SplitFirst(suffix, top);
    OneLabel(top);
    SubdomainShares(first, parent, isIP);
  }

  lemma {:induction false} OneLabel(part: string)
    requires Letters(part)
    ensures Split(part, '.') == [part]
  {
    FindAt(part, '.', "");
    assert part + "" == part;
  }

  /** `x.co.uk` is a domain of its own, not its parent's. */
  lemma SuffixKeepsApart(isIP: string -> bool)
    requires !isIP("co" + "." + "uk") && !isIP("x" + "." + ("co" + "." + "uk"))
    ensures RegistrableDomain("x" + "." + ("co" + "." + "uk"), isIP) != RegistrableDomain("co" + "." + "uk", isIP)
  {
    BelowSuffix("x", "co", "uk", isIP);
  }

  lemma DeeperShares(first: string, labels: seq<string>)
    requires |labels| > 2
    ensures DomainOfLabels([first] + labels) == DomainOfLabels(labels)
  {
    var all := [first] + labels;
    assert all[|all| - 2] == labels[|labels| - 2];
    assert all[|all| - 2..] == labels[|labels| - 2..];
    assert all[|all| - 3..] == labels[|labels| - 3..];
    assert |labels| == 3 ==> labels[0..] == labels;
  }

  lemma {:induction false} LongerJoin(first: string, labels: seq<string>)
    requires labels != []
    ensures |Join([first] + labels, '.')| > |Join(labels, '.')|
  {
    assert ([first] + labels)[1..] == labels;
  }

  // ---------- paths ----------

  /** The path is the scope or lies beneath it, segment by segment. */
  predicate UnderScope(path: string, scope: string) {
    if scope != "" && scope[|scope| - 1] == '/' then path == scope[..|scope| - 1] || StartsAt(path, 0, scope)
    else path == scope || StartsAt(path, 0, scope + "/")
  }

  /** A scope means the same with and without its final slash, and takes in no sibling. */
  lemma ScopeIsSegments(path: string, scope: string)
    requires scope == "" || scope[|scope| - 1] != '/'
    ensures UnderScope(path, scope) <==> UnderScope(path, scope + "/")
    ensures UnderScope(path, scope) <==>
      StartsAt(path, 0, scope) && (|path| == |scope| || path[|scope|] == '/')
  {
    assert (scope + "/")[..|scope|] == scope;
    if StartsAt(path, 0, scope + "/") {
      assert path[0..|scope| + 1][..|scope|] == path[0..|scope|] && path[0..|scope| + 1][|scope|] == '/';
    }
    if StartsAt(path, 0, scope) && |path| > |scope| && path[|scope|] == '/' {
      assert path[0..|scope| + 1] == path[0..|scope|] + [path[|scope|]];
    }
    if StartsAt(path, 0, scope) && |path| == |scope| {
      assert path[0..|scope|] == path;
    }
    if path == scope {
      assert path[0..|scope|] == scope;
    }
  }

  // ---------- globs ----------

  function Rooted(glob: string): string {
    if glob != "" && (glob[0] == '/' || glob[0] == '*' || glob[0] == '?') then glob else "/" + glob
  }

  predicate DoubleStar(glob: string) {
    |glob| >= 2 && glob[0] == '*' && glob[1] == '*'
  }

  /** The source of the compiled expression, between its anchors. */
  function Compile(glob: string): string {
    if glob == "" then ""
    else if DoubleStar(glob) then ".*" + Compile(glob[2..])
    else if glob[0] == '*' then "[^/]*" + Compile(glob[1..])
    else if glob[0] == '?' then "[^/]" + Compile(glob[1..])
    else EscapeChar(glob[0]) + Compile(glob[1..])
  }

  method GlobToRegex(glob: string) returns (out: string)
    ensures out == Compile(Rooted(glob))
  {
    var pattern := Rooted(glob);
    out := "";
    var i := 0;
    while i < |pattern|
      invariant i <= |pattern|
      invariant out + Compile(pattern[i..]) == Compile(pattern)
    {
      var rest := pattern[i..];
      var taken, length := CompileFirst(rest);
      assert rest[length..] == pattern[i + length..];
      Associative(out, taken, Compile(rest[length..]));
      out := out + taken;
      i := i + length;
    }
  }

  /** One turn of the loop: what is appended, and how many characters it stands for. */
  method CompileFirst(rest: string) returns (taken: string, length: nat)
    requires rest != ""
    ensures 1 <= length <= |rest| && Compile(rest) == taken + Compile(rest[length..])
  {
    var c := rest[0];
    if c == '*' {
      if |rest| >= 2 && rest[1] == '*' {
        return ".*", 2;
      }
      return "[^/]*", 1;
    } else if c == '?' {
      return "[^/]", 1;
    }
    return EscapeChar(c), 1;
  }

  /** The fragment of regular expressions that globs compile to. */
  datatype GlobToken = Same(c: char) | AnyText | SegmentText | SegmentChar

  function Before(t: GlobToken, rest: Option<seq<GlobToken>>): Option<seq<GlobToken>> {
    match rest
    case None => None
    case Some(tokens) => Some([t] + tokens)
  }

  predicate NotSlash(source: string) {
    |source| >= 4 && source[0] == '[' && source[1] == '^' && source[2] == '/' && source[3] == ']'
  }

  function ParseGlob(source: string): Option<seq<GlobToken>> {
    if source == "" then Some([])
    else if source[0] == '\\' then
      if |source| >= 2 && IsSpecial(source[1]) then Before(Same(source[1]), ParseGlob(source[2..])) else None
    else if source[0] == '.' then
      if |source| >= 2 && source[1] == '*' then Before(AnyText, ParseGlob(source[2..])) else None
    else if NotSlash(source) then
      if |source| >= 5 && source[4] == '*' then Before(SegmentText, ParseGlob(source[5..]))
      else Before(SegmentChar, ParseGlob(source[4..]))
    else if IsSpecial(source[0]) || source[0] == '*' then None
    else Before(Same(source[0]), ParseGlob(source[1..]))
  }

  /** Whether the anchored expression matches the whole path. */
  predicate MatchAll(tokens: seq<GlobToken>, path: string)
    decreases |tokens|
  {
    if tokens == [] then path == ""
    else
      match tokens[0]
      case Same(c) => path != "" && path[0] == c && MatchAll(tokens[1..], path[1..])
      case AnyText => exists k :: 0 <= k <= |path| && NoBreaks(path[..k]) && MatchAll(tokens[1..], path[k..])
      case SegmentText => exists k :: 0 <= k <= |path| && '/' !in path[..k] && MatchAll(tokens[1..], path[k..])
      case SegmentChar => path != "" && path[0] != '/' && MatchAll(tokens[1..], path[1..])
  }

  predicate GlobTest(glob: string, path: string) {
    var tokens := ParseGlob(Compile(Rooted(glob)));
    tokens.Some? && MatchAll(tokens.value, path)
  }

  /** The glob language: `**` any text, `*` text within a segment, `?` one character of a segment. */
  predicate GlobAccepts(glob: string, path: string)
    decreases |glob|
  {
    if glob == "" then path == ""
    else if DoubleStar(glob) then exists k :: 0 <= k <= |path| && GlobAccepts(glob[2..], path[k..])
    else if glob[0] == '*' then exists k :: 0 <= k <= |path| && '/' !in path[..k] && GlobAccepts(glob[1..], path[k..])
    else if glob[0] == '?' then path != "" && path[0] != '/' && GlobAccepts(glob[1..], path[1..])
    else path != "" && path[0] == glob[0] && GlobAccepts(glob[1..], path[1..])
  }

  function GlobTokens(glob: string): seq<GlobToken> {
    if glob == "" then []
    else if DoubleStar(glob) then [AnyText] + GlobTokens(glob[2..])
    else if glob[0] == '*' then [SegmentText] + GlobTokens(glob[1..])
    else if glob[0] == '?' then [SegmentChar] + GlobTokens(glob[1..])
    else [Same(glob[0])] + GlobTokens(glob[1..])
  }

  lemma {:induction false} ParseText(source: string, tokens: seq<GlobToken>)
    requires ParseGlob(source) == Some(tokens)
    ensures ParseGlob(".*" + source) == Some([AnyText] + tokens)
    ensures ParseGlob("[^/]*" + source) == Some([SegmentText] + tokens)
    ensures source == "" || source[0] != '*'
    ensures ParseGlob("[^/]" + source) == Some([SegmentChar] + tokens)
  {
    assert (".*" + source)[2..] == source;
    assert ("[^/]*" + source)[5..] == source;
    assert ("[^/]" + source)[4..] == source;
  }

  lemma {:induction false} ParseSame(c: char, source: string, tokens: seq<GlobToken>)
    requires ParseGlob(source) == Some(tokens) && c != '*' && c != '?'
    ensures ParseGlob(EscapeChar(c) + source) == Some([Same(c)] + tokens)
  {
    var s := EscapeChar(c) + source;
    if IsSpecial(c) {
      assert s[0] == '\\' && s[1] == c && s[2..] == source;
    } else {
      assert s[0] == c && s[1..] == source;
    }
  }

  lemma {:induction false} ParseCompiled(glob: string)
    ensures ParseGlob(Compile(glob)) == Some(GlobTokens(glob))
    decreases |glob|
  {
    if glob != "" {
      if DoubleStar(glob) {
        ParseCompiled(glob[2..]);
        ParseText(Compile(glob[2..]), GlobTokens(glob[2..]));
      } else {
        ParseCompiled(glob[1..]);
        if glob[0] == '*' || glob[0] == '?' {
          ParseText(Compile(glob[1..]), GlobTokens(glob[1..]));
        } else {
          ParseSame(glob[0], Compile(glob[1..]), GlobTokens(glob[1..]));
        }
      }
    }
  }

  lemma {:induction false} TokensAccept(glob: string, path: string)
    requires NoBreaks(path)
    ensures MatchAll(GlobTokens(glob), path) <==> GlobAccepts(glob, path)
    decreases |glob|
  {
    if glob != "" {
      var rest := if DoubleStar(glob) then glob[2..] else glob[1..];
      var tokens := GlobTokens(glob);
      assert tokens[1..] == GlobTokens(rest);
      forall k | 0 <= k <= |path|
        ensures NoBreaks(path[..k]) && (MatchAll(GlobTokens(rest), path[k..]) <==> GlobAccepts(rest, path[k..]))
      {
        TokensAccept(rest, path[k..]);
      }
    }
  }

  /** On every path without line breaks the compiled expression decides the glob. */
  lemma {:induction false} GlobDecides(glob: string, path: string)
    requires NoBreaks(path)
    ensures GlobTest(glob, path) <==> GlobAccepts(Rooted(glob), path)
  {
    ParseCompiled(Rooted(glob));
    TokensAccept(Rooted(glob), path);
  }

  // ---------- the filter ----------

  datatype UrlClass = InScope | OutOfScope | Blocked

  /** What the URL parser makes of a text. */
  datatype Url = Url(isHttp: bool, host: string, path: string)

  class UrlFilter {
    const originDomain: string
    const pathScope: Option<string>
    const allow: seq<string>
    const block: seq<string>
    const isIP: string -> bool

    constructor (originHost: string, pathScope: string, allow: seq<string>, block: seq<string>, isIP: string -> bool)
      ensures originDomain == RegistrableDomain(originHost, isIP) && this.isIP == isIP
      ensures this.pathScope == if pathScope == "" then None
        else Some(if pathScope[0] == '/' then pathScope else "/" + pathScope)
      ensures this.allow == allow && this.block == block
    {
      this.originDomain := RegistrableDomain(originHost, isIP);
      this.pathScope := if pathScope == "" then None
        else Some(if pathScope[0] == '/' then pathScope else "/" + pathScope);
      this.allow, this.block, this.isIP := allow, block, isIP;
    }

    predicate IsInScope(url: Option<Url>) {
      && url.Some? && url.value.isHttp && RegistrableDomain(url.value.host, isIP) == originDomain
      && (pathScope.None? || UnderScope(url.value.path, pathScope.value))
    }

    predicate IsAllowed(url: Option<Url>) {
      && url.Some? && (forall g <- block :: !GlobTest(g, url.value.path))
      && (allow == [] || exists g <- allow :: GlobTest(g, url.value.path))
    }

    function Classify(url: Option<Url>): (c: UrlClass)
      ensures c == InScope ==> url.Some? && RegistrableDomain(url.value.host, isIP) == originDomain
    {
      if !IsInScope(url) then OutOfScope else if IsAllowed(url) then InScope else Blocked
    }

    /** A URL is crawled exactly when it shares the origin's registrable domain, lies under the path
        scope, is accepted by no block glob and, if there are any, by some allow glob. */
    lemma ClassifyMeans(url: Url)
      requires NoBreaks(url.path)
      ensures Classify(Some(url)) == InScope <==>
        && url.isHttp && RegistrableDomain(url.host, isIP) == originDomain
        && (pathScope.None? || UnderScope(url.path, pathScope.value))
        && (forall g <- block :: !GlobAccepts(Rooted(g), url.path))
        && (allow == [] || exists g <- allow :: GlobAccepts(Rooted(g), url.path))
    {
      forall g
        ensures GlobTest(g, url.path) <==> GlobAccepts(Rooted(g), url.path)
      {
        GlobDecides(g, url.path);
      }
    }
  }
}
