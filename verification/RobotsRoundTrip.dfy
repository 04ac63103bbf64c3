/** Any text that writes well-formed groups down, however it is indented, cased, commented, ended and
    interleaved with other lines, parses back to those groups. */
module RobotsRoundTrip {
  import opened Sequences
  import opened Text
  import opened Wrappers
  import opened RobotsRules
  import opened RobotsParse

  // ---------- groups as directives ----------

  function Threes(m: nat): string
    requires m < 1000
  {
    [DigitChar(m / 100 % 10)] + [DigitChar(m / 10 % 10)] + [DigitChar(m % 10)]
  }

  /** Milliseconds as decimal seconds. */
  function Seconds(ms: nat): string {
    Print(ms / 1000, 10) + "." + Threes(ms % 1000)
  }

  function Agents(tokens: seq<string>): seq<Directive> {
    if tokens == [] then [] else [Directive(UserAgent, tokens[0])] + Agents(tokens[1..])
  }

  function Rules(rules: seq<Rule>): seq<Directive> {
    if rules == [] then []
    else [Directive(if rules[0].allow then Allow else Disallow, rules[0].pattern)] + Rules(rules[1..])
  }

  function Delay(delay: Option<int>): seq<Directive> {
    if delay.Some? && delay.value >= 0 then [Directive(CrawlDelay, Seconds(delay.value))] else []
  }

  function PrintGroup(g: Group): seq<Directive> {
    Agents(g.userAgents) + (Rules(g.rules) + Delay(g.crawlDelayMs))
  }

  function PrintGroups(groups: seq<Group>): seq<Directive> {
    if groups == [] then [] else PrintGroup(groups[0]) + PrintGroups(groups[1..])
  }

  /** At least one lower-case token, and at least one rule or delay; nothing empty. */
  predicate WellFormed(g: Group) {
    && g.userAgents != [] && (forall t <- g.userAgents :: t != "" && Lower(t) == t)
    && (g.rules != [] || g.crawlDelayMs.Some?) && (forall r <- g.rules :: r.pattern != "")
    && (g.crawlDelayMs.Some? ==> g.crawlDelayMs.value >= 0)
  }

  lemma ThreesNumber(m: nat)
    requires m < 1000
    ensures Digits(Threes(m), 10) && Number(Threes(m), 10) == m
  {
    var a, b := [DigitChar(m / 100 % 10)], [DigitChar(m / 100 % 10)] + [DigitChar(m / 10 % 10)];
    LastDigit(m / 100, "", 10);
    assert "" + a == a;
    LastDigit(m / 10, a, 10);
    LastDigit(m, b, 10);
  }

  lemma DecimalRead(whole: string, fraction: string)
    requires whole != "" && Digits(whole, 10)
    ensures Decimal(whole + "." + fraction) == Fixed(whole, fraction)
  {
    var s := whole + "." + fraction;
    assert whole[0] in whole && s[0] == whole[0];
    assert '.' !in whole by {
      assert DigitValue('.') == 16;
    }
    FindAt(whole, '.', "." + fraction);
    assert s == whole + ("." + fraction) && s[..|whole|] == whole && s[|whole| + 1..] == fraction;
  }

  lemma Thousand()
    ensures Power10(3) == 1000.0
  {
    assert Power10(3) == 10.0 * (10.0 * (10.0 * Power10(0)));
  }

  lemma {:induction false} FixedOf(whole: string, fraction: string)
    requires whole != "" && Digits(whole, 10) && Digits(fraction, 10) && |fraction| == 3
    ensures Fixed(whole, fraction) == Some(Number(whole, 10) as real + Number(fraction, 10) as real / 1000.0)
  {
    Thousand();
  }

  lemma {:induction false} FixedThrees(whole: string, m: nat)
    requires whole != "" && Digits(whole, 10) && m < 1000
    ensures Fixed(whole, Threes(m)) == Some(Number(whole, 10) as real + m as real / 1000.0)
  {
    ThreesNumber(m);
    FixedOf(whole, Threes(m));
  }

  lemma SecondsRead(ms: nat)
    ensures DelayOf(Seconds(ms)) == Some(ms)
  {
    var whole := Print(ms / 1000, 10);
    NumberPrint(ms / 1000, 10);
    DecimalRead(whole, Threes(ms % 1000));
    FixedThrees(whole, ms % 1000);
    SecondsExact(ms);
    DelayRead(Seconds(ms), (ms / 1000) as real + (ms % 1000) as real / 1000.0, ms);
  }

  lemma DelayRead(s: string, seconds: real, ms: nat)
    requires Decimal(s) == Some(seconds) && seconds * 1000.0 == ms as real
    ensures DelayOf(s) == Some(ms)
  {
    assert seconds >= 0.0;
    assert (ms as real + 0.5).Floor == ms;
  }

  lemma SecondsExact(ms: nat)
    ensures ((ms / 1000) as real + (ms % 1000) as real / 1000.0) * 1000.0 == ms as real
  {
    assert ms == ms / 1000 * 1000 + ms % 1000;
  }

  // ---------- directives back to groups ----------

  function Open(groups: seq<Group>, g: Group, collecting: bool, sitemaps: seq<string>): Parsed {
    Parsed(groups + [g], collecting, sitemaps)
  }

  lemma {:induction false} FoldAgents(groups: seq<Group>, g: Group, tokens: seq<string>, sitemaps: seq<string>,
                                      resolve: string -> Option<string>)
    requires forall t <- tokens :: t != "" && Lower(t) == t
    ensures Fold(Open(groups, g, true, sitemaps), Agents(tokens), resolve) ==
            Open(groups, g.(userAgents := g.userAgents + tokens), true, sitemaps)
    decreases |tokens|
  {
    if tokens == [] {
      assert g.userAgents + [] == g.userAgents;
    } else {
      var t := tokens[0];
      assert t in tokens;
      var h := g.(userAgents := g.userAgents + [t]);
      assert SetLast(groups + [g], h) == groups + [h];
      assert forall u <- tokens[1..] :: u in tokens;
      FoldAgents(groups, h, tokens[1..], sitemaps, resolve);
      assert g.userAgents + tokens == h.userAgents + tokens[1..];
    }
  }

  lemma {:induction false} FoldRules(groups: seq<Group>, g: Group, collecting: bool, rules: seq<Rule>,
                                     sitemaps: seq<string>, resolve: string -> Option<string>)
    requires forall r <- rules :: r.pattern != ""
    ensures Fold(Open(groups, g, collecting, sitemaps), Rules(rules), resolve) ==
            Open(groups, g.(rules := g.rules + rules), collecting && rules == [], sitemaps)
    decreases |rules|
  {
    if rules == [] {
      assert g.rules + [] == g.rules;
    } else {
      var r := rules[0];
      assert r in rules;
      var h := g.(rules := g.rules + [r]);
      assert SetLast(groups + [g], h) == groups + [h];
      FoldRules(groups, h, false, rules[1..], sitemaps, resolve);
      assert g.rules + rules == h.rules + rules[1..];
    }
  }

  lemma FoldDelay(groups: seq<Group>, g: Group, collecting: bool, delay: Option<int>, sitemaps: seq<string>,
                  resolve: string -> Option<string>)
    requires g.crawlDelayMs.None? && (delay.Some? ==> delay.value >= 0)
    ensures Fold(Open(groups, g, collecting, sitemaps), Delay(delay), resolve) ==
            Open(groups, g.(crawlDelayMs := delay), collecting && delay.None?, sitemaps)
  {
    if delay.Some? {
      var h := g.(crawlDelayMs := delay);
      SecondsRead(delay.value);
      assert SetLast(groups + [g], h) == groups + [h];
      var d := Directive(CrawlDelay, Seconds(delay.value));
      var p := Open(groups, g, collecting, sitemaps);
      FoldAppend(p, [], d, resolve);
      assert [] + [d] == Delay(delay);
    }
  }

  lemma {:induction false} FoldSplit(p: Parsed, a: seq<Directive>, b: seq<Directive>, resolve: string -> Option<string>)
    ensures Fold(p, a + b, resolve) == Fold(Fold(p, a, resolve), b, resolve)
    decreases |a|
  {
    if a == [] {
      assert a + b == b;
    } else {
      FoldSplit(Step(p, a[0], resolve), a[1..], b, resolve);
      assert (a + b)[1..] == a[1..] + b;
    }
  }

  lemma FoldGroup(groups: seq<Group>, g: Group, sitemaps: seq<string>, resolve: string -> Option<string>)
    requires WellFormed(g)
    ensures Fold(Parsed(groups, false, sitemaps), PrintGroup(g), resolve) == Parsed(groups + [g], false, sitemaps)
  {
    var first := g.userAgents[0];
    assert first in g.userAgents;
    var start := Parsed(groups, false, sitemaps);
    var started := Group([first], [], None);
    var named := Group(g.userAgents, [], None);
    var ruled := Group(g.userAgents, g.rules, None);
    assert Agents(g.userAgents)[1..] == Agents(g.userAgents[1..]);
    assert Step(start, Directive(UserAgent, first), resolve) == Open(groups, started, true, sitemaps) by {
      assert [] + [first] == [first];
    }
    assert forall u <- g.userAgents[1..] :: u in g.userAgents;
    FoldAgents(groups, started, g.userAgents[1..], sitemaps, resolve);
    assert [first] + g.userAgents[1..] == g.userAgents;
    assert Fold(start, Agents(g.userAgents), resolve) == Open(groups, named, true, sitemaps);
    FoldRules(groups, named, true, g.rules, sitemaps, resolve);
    assert [] + g.rules == g.rules;
    FoldDelay(groups, ruled, g.rules == [], g.crawlDelayMs, sitemaps, resolve);
    FoldSplit(start, Agents(g.userAgents), Rules(g.rules) + Delay(g.crawlDelayMs), resolve);
    FoldSplit(Open(groups, named, true, sitemaps), Rules(g.rules), Delay(g.crawlDelayMs), resolve);
    assert ruled.(crawlDelayMs := g.crawlDelayMs) == g;
  }

  /** The directives of well-formed groups are read back as those groups. */
  lemma {:induction false} FoldGroups(before: seq<Group>, groups: seq<Group>, sitemaps: seq<string>,
                                      resolve: string -> Option<string>)
    requires forall g <- groups :: WellFormed(g)
    ensures Fold(Parsed(before, false, sitemaps), PrintGroups(groups), resolve) ==
            Parsed(before + groups, false, sitemaps)
    decreases |groups|
  {
    if groups == [] {
      assert before + [] == before;
    } else {
      var g := groups[0];
      assert g in groups;
      assert forall h <- groups[1..] :: h in groups;
      FoldGroups(before + [g], groups[1..], sitemaps, resolve);
      FoldNext(before, g, sitemaps, resolve, PrintGroups(groups[1..]));
      NextGroup(before, groups);
    }
  }

  lemma NextGroup(before: seq<Group>, groups: seq<Group>)
    requires groups != []
    ensures before + [groups[0]] + groups[1..] == before + groups
  {
  }

  lemma {:induction false} FoldNext(before: seq<Group>, g: Group, sitemaps: seq<string>,
                                    resolve: string -> Option<string>, rest: seq<Directive>)
    requires WellFormed(g)
    ensures Fold(Parsed(before, false, sitemaps), PrintGroup(g) + rest, resolve) ==
            Fold(Parsed(before + [g], false, sitemaps), rest, resolve)
  {
    FoldGroup(before, g, sitemaps, resolve);
    FoldSplit(Parsed(before, false, sitemaps), PrintGroup(g), rest, resolve);
  }

  // ---------- written lines ----------

  /** A blank or comment line, or a setting with white space wherever it may stand and an optional
      comment. */
  datatype Source =
    | Remark(indent: string, comment: string)
    | Setting(indent: string, name: string, gap: string, pad: string, value: string, trail: string, comment: string)

  datatype Line = Line(source: Source, end: string)

  predicate Blank(s: string) {
    forall c <- s :: IsSpace(c) && !EndsLine(c) && c != '\U{FEFF}'
  }

  predicate Comment(s: string) {
    OneLine(s) && (s == "" || s[0] == '#')
  }

  predicate WellWritten(s: Source) {
    && Blank(s.indent) && Comment(s.comment)
    && (s.Setting? ==>
          && Blank(s.gap) && Blank(s.pad) && Blank(s.trail)
          && Trimmed(s.name) && ':' !in s.name && '#' !in s.name && OneLine(s.name)
          && (s.value == "" || Trimmed(s.value)) && '#' !in s.value && OneLine(s.value))
  }

  function Core(s: Source): string
    requires s.Setting?
  {
    s.name + s.gap + ":" + if s.value == "" then "" else s.pad + s.value
  }

  function Render(s: Source): string {
    match s
    case Remark(indent, comment) => indent + comment
    case Setting(indent, _, _, pad, value, trail, comment) =>
      indent + Core(s) + (if value == "" then pad + trail else trail) + comment
  }

  /** Names are read in any case, and so are user agents. */
  function Normal(d: Directive): Directive {
    if OpensGroup(d) then Directive(UserAgent, Lower(d.value)) else d
  }

  function Meaning(s: Source): Directive {
    if s.Remark? then Nothing else Normal(Directive(FieldOf(Lower(s.name)), s.value))
  }

  function Meanings(lines: seq<Line>): seq<Directive> {
    if lines == [] then [] else [Meaning(lines[0].source)] + Meanings(lines[1..])
  }

  function TextOf(lines: seq<Line>): string {
    if lines == [] then "" else Render(lines[0].source) + lines[0].end + TextOf(lines[1..])
  }

  predicate IsEnd(end: string) {
    (|end| == 1 && EndsLine(end[0])) || (|end| == 2 && end[0] == '\r' && end[1] == '\n')
  }

  /** The end of a line before more text: a bare `\r` is not run together with a following `\n`. */
  predicate EndsBefore(end: string, rest: string) {
    IsEnd(end) && !(|end| == 1 && end[0] == '\r' && rest != "" && rest[0] == '\n')
  }

  /** Every line is ended; the last one need not be. */
  predicate WellEnded(lines: seq<Line>) {
    forall i :: 0 <= i < |lines| ==>
      EndsBefore(lines[i].end, TextOf(lines[i + 1..])) || (i == |lines| - 1 && lines[i].end == "")
  }

  // ---------- reading written lines ----------

  lemma {:induction false} TrimStartBlank(w: string, s: string)
    requires forall c <- w :: IsSpace(c)
    ensures TrimStart(w + s) == TrimStart(s)
  {
    if w == "" {
      assert w + s == s;
    } else {
      assert w[0] in w;
      TrimStartBlank(w[1..], s);
      assert (w + s)[1..] == w[1..] + s;
    }
  }

  lemma {:induction false} TrimEndBlank(s: string, w: string)
    requires forall c <- w :: IsSpace(c)
    ensures TrimEnd(s + w) == TrimEnd(s)
  {
    if w == "" {
      assert s + w == s;
    } else {
      var n := |w| - 1;
      assert w[n] in w;
      TrimEndBlank(s, w[..n]);
      TrimLast(s + w, s + w[..n], w[n]);
    }
  }

  lemma {:induction false} TrimLast(t: string, before: string, last: char)
    requires t == before + [last] && IsSpace(last)
    ensures TrimEnd(t) == TrimEnd(before)
  {
    assert t[..|t| - 1] == before;
  }

  lemma TrimPadded(w: string, s: string, z: string)
    requires Blank(w) && Blank(z) && (s == "" || Trimmed(s))
    ensures Trim(w + s + z) == s
  {
    TrimStartBlank(w, s + z);
    assert w + s + z == w + (s + z);
    if s == "" {
      TrimStartBlank(z, "");
      assert s + z == z + "";
    } else {
      assert TrimStart(s + z) == s + z;
      TrimEndBlank(s, z);
    }
  }

  lemma BlankHasNo(s: string, c: char)
    requires Blank(s) && !IsSpace(c)
    ensures c !in s
  {
  }

  lemma CoreRead(s: Source)
    requires s.Setting? && WellWritten(s)
    ensures Trimmed(Core(s)) && Find(Core(s), ':') == |s.name + s.gap|
    ensures Core(s)[..|s.name + s.gap|] == s.name + s.gap
    ensures Core(s)[|s.name + s.gap| + 1..] == if s.value == "" then "" else s.pad + s.value
  {
    var key := s.name + s.gap;
    var rest := if s.value == "" then "" else s.pad + s.value;
    BlankHasNo(s.gap, ':');
    assert Core(s) == key + ([':'] + rest);
    FindAt(key, ':', [':'] + rest);
    assert Core(s)[0] == s.name[0];
    assert Core(s)[|Core(s)| - 1] == if s.value == "" then ':' else s.value[|s.value| - 1];
  }

  /** What stands before the comment. */
  function Stated(s: Source): string
    requires s.Setting?
  {
    s.indent + Core(s) + if s.value == "" then s.pad + s.trail else s.trail
  }

  lemma StatedRead(s: Source)
    requires s.Setting? && WellWritten(s)
    ensures '#' !in Stated(s) && Trim(Stated(s)) == Core(s)
  {
    BlankHasNo(s.indent, '#');
    BlankHasNo(s.gap, '#');
    BlankHasNo(s.pad, '#');
    BlankHasNo(s.trail, '#');
    CoreRead(s);
    TrimPadded(s.indent, Core(s), if s.value == "" then s.pad + s.trail else s.trail);
  }

  lemma SidesRead(s: Source)
    requires s.Setting? && WellWritten(s)
    ensures Trim(s.name + s.gap) == s.name
    ensures Trim(if s.value == "" then "" else s.pad + s.value) == s.value
  {
    TrimPadded("", s.name, s.gap);
    assert "" + s.name + s.gap == s.name + s.gap;
    TrimPadded(s.pad, s.value, "");
    assert s.pad + s.value + "" == s.pad + s.value;
  }

  lemma SettingRead(s: Source)
    requires s.Setting? && WellWritten(s)
    ensures ReadLine(Render(s)) == Directive(FieldOf(Lower(s.name)), s.value)
  {
    StatedRead(s);
    CommentCut(Stated(s), s.comment);
    assert Render(s) == Stated(s) + s.comment;
    CoreSplit(s);
  }

  lemma CommentCut(stated: string, comment: string)
    requires '#' !in stated && Comment(comment)
    ensures ReadLine(stated + comment) == ReadTrimmed(Trim(stated))
  {
    FindAt(stated, '#', comment);
    assert (stated + comment)[..|stated|] == stated;
  }

  lemma CoreSplit(s: Source)
    requires s.Setting? && WellWritten(s)
    ensures ReadTrimmed(Core(s)) == Directive(FieldOf(Lower(s.name)), s.value)
  {
    CoreRead(s);
    SidesRead(s);
  }

  lemma RemarkRead(s: Source)
    requires s.Remark? && WellWritten(s)
    ensures ReadLine(Render(s)) == Nothing
  {
    BlankHasNo(s.indent, '#');
    CommentCut(s.indent, s.comment);
    TrimPadded(s.indent, "", "");
    assert s.indent + "" + "" == s.indent;
  }

  lemma {:induction false} LowerLower(s: string)
    ensures Lower(Lower(s)) == Lower(s)
  {
  }

  lemma StepNormal(p: Parsed, d: Directive, resolve: string -> Option<string>)
    ensures Step(p, Normal(d), resolve) == Step(p, d, resolve)
  {
    if OpensGroup(d) {
      LowerLower(d.value);
    }
  }

  lemma ReadRendered(p: Parsed, s: Source, resolve: string -> Option<string>)
    requires WellWritten(s)
    ensures Step(p, ReadLine(Render(s)), resolve) == Step(p, Meaning(s), resolve)
  {
    if s.Remark? {
      RemarkRead(s);
    } else {
      SettingRead(s);
      StepNormal(p, ReadLine(Render(s)), resolve);
    }
  }

  lemma {:induction false} LineLengthAt(t: string, rest: string)
    requires OneLine(t) && (rest == "" || EndsLine(rest[0]))
    ensures LineLength(t + rest) == |t|
  {
    if t == "" {
      assert t + rest == rest;
    } else {
      assert t[0] in t;
      LineLengthAt(t[1..], rest);
      assert (t + rest)[1..] == t[1..] + rest;
    }
  }

  lemma {:induction false} LineCut(t: string, end: string, rest: string)
    requires OneLine(t) && EndsBefore(end, rest)
    ensures LinesOf(t + end + rest) == [t] + LinesOf(rest)
  {
    var s := t + end + rest;
    LineLengthAt(t, end + rest);
    assert s == t + (end + rest) && s[..|t|] == t && s[|t|..] == end + rest && s[|t| + |end|..] == rest;
  }

  lemma RenderOneLine(s: Source)
    requires WellWritten(s)
    ensures OneLine(Render(s))
  {
  }

  lemma {:induction false} LastLine(p: Parsed, line: Line, resolve: string -> Option<string>)
    requires WellWritten(line.source) && line.end == ""
    ensures Fold(p, Map(ReadLine, LinesOf(TextOf([line]))), resolve) == Fold(p, Meanings([line]), resolve)
  {
    var t := Render(line.source);
    assert [line][1..] == [] && TextOf([line]) == t + "" + "" && t + "" + "" == t;
    RenderOneLine(line.source);
    LineLengthAt(t, "");
    assert t + "" == t && LinesOf(t) == [t];
    ReadRendered(p, line.source, resolve);
    FoldFirst(p, t, [], ReadLine, resolve);
    assert [t] + [] == [t] && Meanings([line]) == [Meaning(line.source)];
    FoldAppend(p, [], Meaning(line.source), resolve);
    assert [] + [Meaning(line.source)] == [Meaning(line.source)];
  }

  lemma {:induction false} NoLines(p: Parsed, resolve: string -> Option<string>)
    ensures Fold(p, Map(ReadLine, LinesOf(TextOf([]))), resolve) == Fold(p, Meanings([]), resolve)
  {
    RemarkRead(Remark("", ""));
    assert "" + "" == "";
    FoldAppend(p, [], Nothing, resolve);
    assert [] + [Nothing] == [Nothing] && Map(ReadLine, [""]) == [Nothing];
  }

  /** Reading the written lines is reading what they mean. */
  lemma {:induction false} FoldText(p: Parsed, lines: seq<Line>, resolve: string -> Option<string>)
    requires (forall l <- lines :: WellWritten(l.source)) && WellEnded(lines)
    ensures Fold(p, Map(ReadLine, LinesOf(TextOf(lines))), resolve) == Fold(p, Meanings(lines), resolve)
    decreases |lines|
  {
    if lines == [] {
      NoLines(p, resolve);
    } else if |lines| == 1 && lines[0].end == "" {
      assert lines == [lines[0]] && lines[0] in lines;
      LastLine(p, lines[0], resolve);
    } else {
      var line := lines[0];
      assert line in lines;
      assert WellEnded(lines[1..]) by {
        assert forall i :: 0 <= i < |lines| - 1 ==>
          lines[1..][i + 1..] == lines[i + 2..] && lines[1..][i] == lines[i + 1];
      }
      RenderOneLine(line.source);
      LineCut(Render(line.source), line.end, TextOf(lines[1..]));
      ReadRendered(p, line.source, resolve);
      FoldFirst(p, Render(line.source), LinesOf(TextOf(lines[1..])), ReadLine, resolve);
      FoldText(Step(p, Meaning(line.source), resolve), lines[1..], resolve);
    }
  }

  lemma {:induction false} FoldFirst(p: Parsed, line: string, rest: seq<string>, read: string -> Directive,
                                     resolve: string -> Option<string>)
    ensures Fold(p, Map(read, [line] + rest), resolve) == Fold(Step(p, read(line), resolve), Map(read, rest), resolve)
  {
    assert ([line] + rest)[1..] == rest;
  }

  lemma {:induction false} TextHasNoMark(lines: seq<Line>)
    requires (forall l <- lines :: WellWritten(l.source)) && WellEnded(lines)
    ensures TextOf(lines) == "" || TextOf(lines)[0] != '\U{FEFF}'
  {
    if lines != [] {
      var s := lines[0].source;
      assert lines[0] in lines;
      if s.indent != "" {
        assert s.indent[0] in s.indent && Render(s)[0] == s.indent[0];
      } else if s.Setting? {
        assert Render(s)[0] == s.name[0];
      } else {
        assert Render(s) == s.comment;
      }
    }
  }

  /** One directive, or two delays that read as the same. */
  predicate Alike(d: Directive, e: Directive) {
    d == e || (IsDelay(d) && IsDelay(e) && DelayOf(d.value) == DelayOf(e.value))
  }

  predicate AllAlike(ds: seq<Directive>, es: seq<Directive>) {
    |ds| == |es| && forall i :: 0 <= i < |ds| ==> Alike(ds[i], es[i])
  }

  lemma {:induction false} FoldAlike(p: Parsed, ds: seq<Directive>, es: seq<Directive>,
                                     resolve: string -> Option<string>)
    requires AllAlike(ds, es)
    ensures Fold(p, ds, resolve) == Fold(p, es, resolve)
    decreases |ds|
  {
    if ds != [] {
      assert Alike(ds[0], es[0]);
      assert forall i :: 0 <= i < |ds[1..]| ==> ds[1..][i] == ds[i + 1] && es[1..][i] == es[i + 1];
      FoldAlike(Step(p, ds[0], resolve), ds[1..], es[1..], resolve);
    }
  }

  /** The round trip: the lines may be indented, cased and commented freely, end in any of the three
      ways, write a delay in any way that reads as it, and have blank lines, comments, unknown fields and
      sitemaps among them. */
  lemma {:induction false} RobotsRoundTrip(groups: seq<Group>, lines: seq<Line>, marked: bool,
                                           resolve: string -> Option<string>)
    requires forall g <- groups :: WellFormed(g)
    requires (forall l <- lines :: WellWritten(l.source)) && WellEnded(lines)
    requires AllAlike(Relevant(Meanings(lines)), PrintGroups(groups))
    ensures Parse((if marked then "\U{FEFF}" else "") + TextOf(lines), resolve) ==
            Parsed(groups, false, SitemapsOf(Meanings(lines), resolve))
  {
    var txt := (if marked then "\U{FEFF}" else "") + TextOf(lines);
    TextHasNoMark(lines);
    assert WithoutMark(txt) == TextOf(lines);
    FoldText(EMPTY, lines, resolve);
    NoiseIsIgnored(EMPTY, Meanings(lines), resolve);
    FoldAlike(EMPTY, Relevant(Meanings(lines)), PrintGroups(groups), resolve);
    FoldGroups([], groups, [], resolve);
    assert [] + groups == groups;
    assert [] + SitemapsOf(Meanings(lines), resolve) == SitemapsOf(Meanings(lines), resolve);
  }
}
