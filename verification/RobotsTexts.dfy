/** Which groups have a text: exactly those whose tokens and patterns can stand on a line. */
module RobotsTexts {
  import opened Text
  import opened RobotsRules
  import opened RobotsParse
  import opened RobotsRoundTrip

  /** A value that a line can state: trimmed, without a comment mark or a line end. */
  predicate Statable(value: string) {
    Trimmed(value) && '#' !in value && OneLine(value)
  }

  predicate Printable(g: Group) {
    (forall t <- g.userAgents :: Statable(t)) && forall r <- g.rules :: Statable(r.pattern)
  }

  ghost predicate HasText(groups: seq<Group>) {
    exists lines :: Writes(lines, groups)
  }

  /** Lines that the round trip reads back as the groups. */
  ghost predicate Writes(lines: seq<Line>, groups: seq<Group>) {
    (forall l <- lines :: WellWritten(l.source)) && WellEnded(lines) &&
    AllAlike(Relevant(Meanings(lines)), PrintGroups(groups))
  }

  // ---------- names ----------

  function NameOf(f: Field): string {
    match f
    case UserAgent => "user-agent"
    case Allow => "allow"
    case Disallow => "disallow"
    case CrawlDelay => "crawl-delay"
    case _ => "sitemap"
  }

  predicate NameChar(c: char) {
    'a' <= c <= 'z' || c == '-'
  }

  lemma NameChars(f: Field)
    ensures forall i :: 0 <= i < |NameOf(f)| ==> NameChar(NameOf(f)[i])
  {
  }

  lemma {:induction false} NameIsPlain(name: string)
    requires name != "" && forall i :: 0 <= i < |name| ==> NameChar(name[i])
    ensures Trimmed(name) && ':' !in name && '#' !in name && OneLine(name) && Lower(name) == name
  {
  }

  lemma NameRead(f: Field)
    requires f != Unknown
    ensures FieldOf(NameOf(f)) == f
  {
    assert |"user-agent"| == 10 && |"allow"| == 5 && |"disallow"| == 8 && |"crawl-delay"| == 11 && |"sitemap"| == 7;
  }

  // ---------- a line for each directive ----------

  function LineOf(d: Directive): Line {
    match d
    case Nothing => Line(Remark("", ""), "\n")
    case Directive(field, value) => Line(Setting("", NameOf(field), "", "", value, "", ""), "\n")
  }

  /** A directive that a line can state and that reads back as it is. */
  predicate Plain(d: Directive) {
    d.Directive? && Counts(d) && Statable(d.value) && Normal(d) == d
  }

  lemma LineRead(d: Directive)
    requires Plain(d)
    ensures WellWritten(LineOf(d).source) && Meaning(LineOf(d).source) == d
  {
    NameChars(d.field);
    NameIsPlain(NameOf(d.field));
    NameRead(d.field);
  }

  function LinesOfAll(ds: seq<Directive>): (lines: seq<Line>)
    ensures |lines| == |ds| && forall i :: 0 <= i < |ds| ==> lines[i] == LineOf(ds[i])
  {
    if ds == [] then [] else [LineOf(ds[0])] + LinesOfAll(ds[1..])
  }

  lemma {:induction false} LinesRead(ds: seq<Directive>)
    requires forall d <- ds :: Plain(d)
    ensures Relevant(Meanings(LinesOfAll(ds))) == ds
  {
    if ds != [] {
      var lines := LinesOfAll(ds);
      assert ds[0] in ds;
      LineRead(ds[0]);
      LinesRead(ds[1..]);
      assert lines[1..] == LinesOfAll(ds[1..]);
      var meanings := [ds[0]] + Meanings(lines[1..]);
      assert Meanings(lines) == meanings && meanings[1..] == Meanings(lines[1..]);
      assert ds == [ds[0]] + ds[1..];
    }
  }

  // ---------- the directives of groups ----------

  /** A user agent in lower case, a rule, or a delay. */
  predicate OfGroup(groups: seq<Group>, d: Directive) {
    exists g <- groups ::
      || (exists t <- g.userAgents :: d == Directive(UserAgent, t))
      || (exists r <- g.rules :: d == Directive(if r.allow then Allow else Disallow, r.pattern))
      || (g.crawlDelayMs.Some? && g.crawlDelayMs.value >= 0 &&
           d == Directive(CrawlDelay, Seconds(g.crawlDelayMs.value)))
  }

  lemma {:induction false} AgentsAre(tokens: seq<string>, d: Directive)
    ensures d in Agents(tokens) <==> exists t <- tokens :: d == Directive(UserAgent, t)
  {
    if tokens != [] {
      AgentsAre(tokens[1..], d);
      assert tokens == [tokens[0]] + tokens[1..];
    }
  }

  lemma {:induction false} RulesAre(rules: seq<Rule>, d: Directive)
    ensures d in Rules(rules) <==> exists r <- rules :: d == Directive(if r.allow then Allow else Disallow, r.pattern)
  {
    if rules != [] {
      RulesAre(rules[1..], d);
      assert rules == [rules[0]] + rules[1..];
    }
  }

  lemma GroupPrints(g: Group, d: Directive)
    ensures d in PrintGroup(g) <==> OfGroup([g], d)
  {
    AgentsAre(g.userAgents, d);
    RulesAre(g.rules, d);
    assert g in [g];
  }

  lemma {:induction false} GroupsPrint(groups: seq<Group>, d: Directive)
    ensures d in PrintGroups(groups) <==> OfGroup(groups, d)
  {
    if groups != [] {
      GroupPrints(groups[0], d);
      GroupsPrint(groups[1..], d);
      assert groups == [groups[0]] + groups[1..];
    }
  }

  lemma SecondsStatable(ms: nat)
    ensures Statable(Seconds(ms))
  {
    var whole, m := Print(ms / 1000, 10), ms % 1000;
    NumberPrint(ms / 1000, 10);
    ThreesNumber(m);
    var s := whole + "." + Threes(m);
    forall i | 0 <= i < |s|
      ensures DigitValue(s[i]) < 10 || s[i] == '.'
    {
      if i < |whole| {
        assert s[i] in whole;
      } else if i > |whole| {
        assert s[i] == Threes(m)[i - |whole| - 1] && s[i] in Threes(m);
      }
    }
  }

  lemma {:induction false} PrintedIsPlain(groups: seq<Group>, d: Directive)
    requires (forall g <- groups :: WellFormed(g) && Printable(g)) && d in PrintGroups(groups)
    ensures Plain(d)
  {
    GroupsPrint(groups, d);
    if d.field == CrawlDelay {
      var g :| g in groups && g.crawlDelayMs.Some? && g.crawlDelayMs.value >= 0
               && d == Directive(CrawlDelay, Seconds(g.crawlDelayMs.value));
      SecondsStatable(g.crawlDelayMs.value);
    }
  }

  /** Printable groups have a text: one plain line for each directive. */
  lemma PrintableHasText(groups: seq<Group>)
    requires forall g <- groups :: WellFormed(g) && Printable(g)
    ensures HasText(groups)
  {
    var ds := PrintGroups(groups);
    forall d <- ds
      ensures Plain(d)
    {
      PrintedIsPlain(groups, d);
    }
    var lines := LinesOfAll(ds);
    forall l <- lines
      ensures WellWritten(l.source) && l.end == "\n"
    {
      var i :| 0 <= i < |lines| && lines[i] == l;
      assert ds[i] in ds;
      LineRead(ds[i]);
    }
    assert WellEnded(lines) by {
      assert forall i :: 0 <= i < |lines| ==> lines[i] in lines;
    }
    LinesRead(ds);
    assert Writes(lines, groups);
  }

  // ---------- and no others ----------

  lemma {:induction false} MeaningOfLine(lines: seq<Line>, d: Directive)
    requires d in Relevant(Meanings(lines))
    ensures exists l <- lines :: Meaning(l.source) == d
  {
    var meanings := Meanings(lines);
    if Counts(meanings[0]) && d == meanings[0] {
      assert lines[0] in lines;
    } else {
      assert meanings[1..] == Meanings(lines[1..]);
      MeaningOfLine(lines[1..], d);
      var l :| l in lines[1..] && Meaning(l.source) == d;
      assert l in lines;
    }
  }

  lemma {:induction false} LowerStatable(value: string)
    requires Statable(value)
    ensures Statable(Lower(value))
  {
    var lower := Lower(value);
    forall i | 0 <= i < |lower|
      ensures lower[i] != '#' && !EndsLine(lower[i])
    {
      assert value[i] in value;
    }
  }

  lemma MeaningStatable(s: Source)
    requires WellWritten(s) && Meaning(s).Directive? && Meaning(s).value != ""
    ensures Statable(Meaning(s).value)
  {
    if s.value != "" {
      LowerStatable(s.value);
    }
  }

  lemma {:induction false} TextIsPrintable(groups: seq<Group>, lines: seq<Line>, d: Directive)
    requires Writes(lines, groups) && d in PrintGroups(groups) && d.Directive? && !IsDelay(d) && d.value != ""
    ensures Statable(d.value)
  {
    var i :| 0 <= i < |PrintGroups(groups)| && PrintGroups(groups)[i] == d;
    assert Alike(Relevant(Meanings(lines))[i], d);
    MeaningOfLine(lines, d);
    var l :| l in lines && Meaning(l.source) == d;
    MeaningStatable(l.source);
  }

  /** Well-formed groups have a text exactly if every token and pattern can stand on a line. */
  lemma TextsArePrintable(groups: seq<Group>)
    requires forall g <- groups :: WellFormed(g)
    ensures HasText(groups) <==> forall g <- groups :: Printable(g)
  {
    if HasText(groups) {
      var lines :| Writes(lines, groups);
      forall g <- groups
        ensures Printable(g)
      {
        forall t <- g.userAgents
          ensures Statable(t)
        {
          GroupsPrint(groups, Directive(UserAgent, t));
          TextIsPrintable(groups, lines, Directive(UserAgent, t));
        }
        forall r <- g.rules
          ensures Statable(r.pattern)
        {
          var d := Directive(if r.allow then Allow else Disallow, r.pattern);
          GroupsPrint(groups, d);
          TextIsPrintable(groups, lines, d);
        }
      }
    }
    if forall g <- groups :: Printable(g) {
      PrintableHasText(groups);
    }
  }
}
