/** The robots.txt line parser, and the round trip from well-formed groups through any text that
    writes them down (section 2.2.1 of RFC 9309). */
module RobotsParse {
  import opened Sequences
  import opened Text
  import opened Wrappers
  import opened RobotsRules

  datatype Field = UserAgent | Allow | Disallow | CrawlDelay | Sitemap | Unknown

  /** What one line says. */
  datatype Directive = Nothing | Directive(field: Field, value: string)

  /** The parser's variables; the open group is the last one. */
  datatype Parsed = Parsed(groups: seq<Group>, collecting: bool, sitemaps: seq<string>)

  const EMPTY := Parsed([], false, [])

  // ---------- lines ----------

  predicate EndsLine(c: char) {
    c == '\n' || c == '\r'
  }

  predicate OneLine(s: string) {
    forall c <- s :: !EndsLine(c)
  }

  function LineLength(s: string): (n: nat)
    ensures n <= |s| && OneLine(s[..n]) && (n < |s| ==> EndsLine(s[n]))
  {
    if s == "" || EndsLine(s[0]) then 0 else 1 + LineLength(s[1..])
  }

  /** The pieces between `\r\n`, `\r` and `\n`. */
  function LinesOf(s: string): seq<string> {
    var n := LineLength(s);
    if n == |s| then [s]
    else [s[..n]] + LinesOf(s[n + EndLength(s[n..])..])
  }

  /** `\r\n` ends a line as one. */
  function EndLength(s: string): (n: nat)
    requires s != ""
    ensures 1 <= n <= |s|
  {
    if |s| >= 2 && s[0] == '\r' && s[1] == '\n' then 2 else 1
  }

  function WithoutMark(txt: string): string {
    if txt != "" && txt[0] == '\U{FEFF}' then txt[1..] else txt
  }

  function ReadLine(rawLine: string): Directive {
    ReadTrimmed(Trim(rawLine[..Find(rawLine, '#')]))
  }

  function ReadTrimmed(line: string): Directive {
    var colon := Find(line, ':');
    if colon == |line| then Nothing
    else Directive(FieldOf(Lower(Trim(line[..colon]))), Trim(line[colon + 1..]))
  }

  function FieldOf(name: string): Field {
    if name == "user-agent" then UserAgent
    else if name == "allow" then Allow
    else if name == "disallow" then Disallow
    else if name == "crawl-delay" then CrawlDelay
    else if name == "sitemap" then Sitemap
    else Unknown
  }

  // ---------- numbers ----------

  function Power10(n: nat): (p: real)
    ensures p > 0.0
  {
    if n == 0 then 1.0 else 10.0 * Power10(n - 1)
  }

  function Unsigned(s: string): Option<real> {
    var dot := Find(s, '.');
    if dot == |s| then Fixed(s, "") else Fixed(s[..dot], s[dot + 1..])
  }

  /** Digits before and after the point; either side may be missing. */
  function Fixed(whole: string, fraction: string): Option<real> {
    if (whole != "" || fraction != "") && Digits(whole, 10) && Digits(fraction, 10)
    then Some(Number(whole, 10) as real + Number(fraction, 10) as real / Power10(|fraction|))
    else None
  }

  /** A number written in plain decimals; the empty text is zero. */
  function Decimal(s: string): Option<real> {
    if s == "" then Some(0.0)
    else if s[0] == '-' then
      match Unsigned(s[1..])
      case None => None
      case Some(x) => Some(-x)
    else if s[0] == '+' then Unsigned(s[1..])
    else Unsigned(s)
  }

  /** Math.round of the seconds in milliseconds, when they are a number that is not negative. */
  function DelayOf(value: string): Option<int> {
    var seconds := Decimal(value);
    if seconds.Some? && seconds.value >= 0.0 then Some((seconds.value * 1000.0 + 0.5).Floor) else None
  }

  // ---------- the parser ----------

  predicate OpensGroup(d: Directive) {
    d.Directive? && d.field == UserAgent
  }

  predicate IsRule(d: Directive) {
    d.Directive? && (d.field == Allow || d.field == Disallow)
  }

  predicate IsDelay(d: Directive) {
    d.Directive? && d.field == CrawlDelay
  }

  predicate IsSitemap(d: Directive) {
    d.Directive? && d.field == Sitemap
  }

  function Last(groups: seq<Group>): Group
    requires groups != []
  {
    groups[|groups| - 1]
  }

  function SetLast(groups: seq<Group>, g: Group): seq<Group>
    requires groups != []
  {
    groups[|groups| - 1 := g]
  }

  function AddAgent(g: Group, value: string): Group {
    if value == "" then g else g.(userAgents := g.userAgents + [Lower(value)])
  }

  function AddRule(g: Group, d: Directive): Group
    requires IsRule(d)
  {
    if d.value == "" then g else g.(rules := g.rules + [Rule(d.field == Allow, d.value)])
  }

  function SetDelay(g: Group, value: string): Group {
    if DelayOf(value).Some? then g.(crawlDelayMs := DelayOf(value)) else g
  }

  /** The effect of one line; `resolve` is what the URL parser makes of an http(s) URL. */
  function Step(p: Parsed, d: Directive, resolve: string -> Option<string>): Parsed {
    if OpensGroup(d) then
      if p.collecting && p.groups != [] then p.(groups := SetLast(p.groups, AddAgent(Last(p.groups), d.value)))
      else Parsed(p.groups + [AddAgent(Group([], [], None), d.value)], true, p.sitemaps)
    else if IsRule(d) then
      if p.groups == [] then p.(collecting := false)
      else Parsed(SetLast(p.groups, AddRule(Last(p.groups), d)), false, p.sitemaps)
    else if IsDelay(d) then
      if p.groups == [] then p.(collecting := false)
      else Parsed(SetLast(p.groups, SetDelay(Last(p.groups), d.value)), false, p.sitemaps)
    else if IsSitemap(d) && resolve(d.value).Some? then p.(sitemaps := p.sitemaps + [resolve(d.value).value])
    else p
  }

  function Fold(p: Parsed, ds: seq<Directive>, resolve: string -> Option<string>): Parsed
    decreases |ds|
  {
    if ds == [] then p else Fold(Step(p, ds[0], resolve), ds[1..], resolve)
  }

  function Parse(txt: string, resolve: string -> Option<string>): Parsed {
    Fold(EMPTY, Map(ReadLine, LinesOf(WithoutMark(txt))), resolve)
  }

  lemma {:induction false} FoldAppend(p: Parsed, ds: seq<Directive>, d: Directive, resolve: string -> Option<string>)
    ensures Fold(p, ds + [d], resolve) == Step(Fold(p, ds, resolve), d, resolve)
    decreases |ds|
  {
    if ds == [] {
      assert ds + [d] == [d];
      assert Fold(Step(p, d, resolve), [], resolve) == Step(p, d, resolve);
    } else {
      FoldAppend(Step(p, ds[0], resolve), ds[1..], d, resolve);
      assert (ds + [d])[1..] == ds[1..] + [d];
    }
  }

  lemma FoldOneMore(lines: seq<string>, i: nat, read: string -> Directive, resolve: string -> Option<string>)
    requires i < |lines|
    ensures Fold(EMPTY, Map(read, lines[..i + 1]), resolve) ==
            Step(Fold(EMPTY, Map(read, lines[..i]), resolve), read(lines[i]), resolve)
  {
    MapSplit(read, lines[..i], [lines[i]]);
    assert Map(read, [lines[i]]) == [read(lines[i])];
    assert lines[..i + 1] == lines[..i] + [lines[i]];
    FoldAppend(EMPTY, Map(read, lines[..i]), read(lines[i]), resolve);
  }

  method ParseRobots(txt: string, resolve: string -> Option<string>) returns (groups: seq<Group>, sitemaps: seq<string>)
    ensures groups == Parse(txt, resolve).groups && sitemaps == Parse(txt, resolve).sitemaps
  {
    groups, sitemaps := [], [];
    var collecting := false;
    var lines := LinesOf(WithoutMark(txt));
    for i := 0 to |lines|
      invariant Parsed(groups, collecting, sitemaps) == Fold(EMPTY, Map(ReadLine, lines[..i]), resolve)
    {
      FoldOneMore(lines, i, ReadLine, resolve);
      groups, collecting, sitemaps := Take(ReadLine(lines[i]), groups, collecting, sitemaps, resolve);
    }
    assert lines[..|lines|] == lines;
  }

  method Take(d: Directive, groups: seq<Group>, collecting: bool, sitemaps: seq<string>,
              resolve: string -> Option<string>)
    returns (groups': seq<Group>, collecting': bool, sitemaps': seq<string>)
    ensures Parsed(groups', collecting', sitemaps') == Step(Parsed(groups, collecting, sitemaps), d, resolve)
  {
    groups', collecting', sitemaps' := groups, collecting, sitemaps;
    if OpensGroup(d) {
      if !collecting || |groups| == 0 {
        groups' := groups' + [Group([], [], None)];
        collecting' := true;
      }
      if d.value != "" {
        groups' := SetLast(groups', AddAgent(Last(groups'), d.value));
      }
    } else if IsRule(d) {
      collecting' := false;
      if |groups| != 0 && d.value != "" {
        groups' := SetLast(groups', AddRule(Last(groups'), d));
      }
    } else if IsDelay(d) {
      collecting' := false;
      if |groups| != 0 {
        var seconds := Decimal(d.value);
        if seconds.Some? && seconds.value >= 0.0 {
          groups' := SetLast(groups', Last(groups').(crawlDelayMs := Some((seconds.value * 1000.0 + 0.5).Floor)));
        }
      }
    } else if IsSitemap(d) {
      match resolve(d.value)
      case None =>
      case Some(url) => sitemaps' := sitemaps' + [url];
    }
  }

  // ---------- noise is ignored ----------

  predicate Counts(d: Directive) {
    OpensGroup(d) || IsRule(d) || IsDelay(d)
  }

  function Relevant(ds: seq<Directive>): seq<Directive> {
    if ds == [] then []
    else (if Counts(ds[0]) then [ds[0]] else []) + Relevant(ds[1..])
  }

  function SitemapsOf(ds: seq<Directive>, resolve: string -> Option<string>): seq<string> {
    if ds == [] then []
    else
      (if IsSitemap(ds[0]) && resolve(ds[0].value).Some? then [resolve(ds[0].value).value] else [])
      + SitemapsOf(ds[1..], resolve)
  }

  lemma NoiseStep(p: Parsed, d: Directive, resolve: string -> Option<string>)
    requires !Counts(d)
    ensures Step(p, d, resolve) == Parsed(p.groups, p.collecting, p.sitemaps + SitemapsOf([d], resolve))
  {
    assert p.sitemaps + [] == p.sitemaps;
    assert SitemapsOf([d], resolve) == if IsSitemap(d) && resolve(d.value).Some? then [resolve(d.value).value] else [];
  }

  lemma CountingStep(p: Parsed, d: Directive, resolve: string -> Option<string>, sitemaps: seq<string>)
    requires Counts(d)
    ensures Step(p, d, resolve).sitemaps == p.sitemaps && SitemapsOf([d], resolve) == []
    ensures Step(p.(sitemaps := sitemaps), d, resolve) == Step(p, d, resolve).(sitemaps := sitemaps)
  {
  }

  lemma {:induction false} SitemapsOfFirst(ds: seq<Directive>, resolve: string -> Option<string>)
    requires ds != []
    ensures SitemapsOf(ds, resolve) == SitemapsOf([ds[0]], resolve) + SitemapsOf(ds[1..], resolve)
  {
  }

  ghost predicate NoiseIgnored(p: Parsed, ds: seq<Directive>, resolve: string -> Option<string>) {
    Fold(p, ds, resolve) == Fold(p, Relevant(ds), resolve).(sitemaps := p.sitemaps + SitemapsOf(ds, resolve))
  }

  lemma CountingFirst(p: Parsed, d: Directive, rest: seq<Directive>, resolve: string -> Option<string>)
    requires Counts(d) && NoiseIgnored(Step(p, d, resolve), rest, resolve)
    ensures NoiseIgnored(p, [d] + rest, resolve)
  {
    var ds := [d] + rest;
    CountingStep(p, d, resolve, []);
    assert ds[1..] == rest;
    SitemapsOfFirst(ds, resolve);
    assert [] + SitemapsOf(rest, resolve) == SitemapsOf(rest, resolve);
    assert Relevant(ds) == [d] + Relevant(rest) && ([d] + Relevant(rest))[1..] == Relevant(rest);
  }

  lemma {:induction false} RelevantNoise(d: Directive, rest: seq<Directive>)
    requires !Counts(d)
    ensures Relevant([d] + rest) == Relevant(rest)
  {
    assert ([d] + rest)[1..] == rest;
    assert [] + Relevant(rest) == Relevant(rest);
  }

  lemma NoiseFirst(p: Parsed, d: Directive, rest: seq<Directive>, resolve: string -> Option<string>)
    requires !Counts(d) && NoiseIgnored(Step(p, d, resolve), rest, resolve)
    ensures NoiseIgnored(p, [d] + rest, resolve)
  {
    var ds, q := [d] + rest, Step(p, d, resolve);
    assert ds[1..] == rest;
    NoiseStep(p, d, resolve);
    assert q == p.(sitemaps := q.sitemaps);
    RelevantNoise(d, rest);
    RelevantCount(rest);
    SitemapsApart(p, q.sitemaps, Relevant(rest), resolve);
    SitemapsOfFirst(ds, resolve);
    Associative(p.sitemaps, SitemapsOf([d], resolve), SitemapsOf(rest, resolve));
  }

  /** Sitemap lines and unknown fields neither open, close nor change a group; sitemaps are collected
      wherever they stand. */
  lemma {:induction false} NoiseIsIgnored(p: Parsed, ds: seq<Directive>, resolve: string -> Option<string>)
    ensures Fold(p, ds, resolve) ==
            Fold(p, Relevant(ds), resolve).(sitemaps := p.sitemaps + SitemapsOf(ds, resolve))
    decreases |ds|
  {
    if ds == [] {
      assert p.sitemaps + [] == p.sitemaps;
    } else {
      NoiseIsIgnored(Step(p, ds[0], resolve), ds[1..], resolve);
      if Counts(ds[0]) {
        CountingFirst(p, ds[0], ds[1..], resolve);
      } else {
        NoiseFirst(p, ds[0], ds[1..], resolve);
      }
      assert ds == [ds[0]] + ds[1..];
    }
  }

  lemma {:induction false} RelevantCount(ds: seq<Directive>)
    ensures forall d <- Relevant(ds) :: Counts(d)
  {
    if ds != [] {
      RelevantCount(ds[1..]);
    }
  }

  lemma {:induction false} SitemapsApart(p: Parsed, sitemaps: seq<string>, ds: seq<Directive>,
                                         resolve: string -> Option<string>)
    requires forall d <- ds :: Counts(d)
    ensures Fold(p.(sitemaps := sitemaps), ds, resolve) == Fold(p, ds, resolve).(sitemaps := sitemaps)
    decreases |ds|
  {
    if ds != [] {
      assert ds[0] in ds;
      CountingStep(p, ds[0], resolve, sitemaps);
      SitemapsApart(Step(p, ds[0], resolve), sitemaps, ds[1..], resolve);
    }
  }
}
