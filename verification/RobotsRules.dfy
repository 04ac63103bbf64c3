/** The robots.txt decision: the merged most specific groups, and the longest matching rule
    (sections 2.2.1 and 2.2.2 of RFC 9309). */
module RobotsRules {
  import opened Text
  import opened Wrappers
  import opened RobotsPattern

  datatype Rule = Rule(allow: bool, pattern: string)

  datatype Group = Group(userAgents: seq<string>, rules: seq<Rule>, crawlDelayMs: Option<int>)

  // ---------- what the answers mean ----------

  /** How specific a group's token is for a crawler: 0 for `*`, its length when the lowered user
      agent contains it, -1 when it does not apply. */
  function Specificity(token: string, agent: string): int {
    if token == "*" then 0 else if Contains(agent, token) then |token| else -1
  }

  ghost predicate IsToken(groups: seq<Group>, token: string) {
    exists g <- groups :: token in g.userAgents
  }

  /** The token applies and no group has a more specific one. */
  ghost predicate Wins(groups: seq<Group>, agent: string, token: string) {
    Specificity(token, agent) >= 0 &&
    forall t :: IsToken(groups, t) ==> Specificity(t, agent) <= Specificity(token, agent)
  }

  ghost predicate InForce(groups: seq<Group>, agent: string, g: Group) {
    exists token <- g.userAgents :: Wins(groups, agent, token)
  }

  /** A rule of some group in force whose pattern accepts the path. */
  ghost predicate Governs(groups: seq<Group>, agent: string, path: string, r: Rule) {
    Accepts(r.pattern, path) && exists g <- groups :: InForce(groups, agent, g) && r in g.rules
  }

  ghost predicate Longest(groups: seq<Group>, agent: string, path: string, r: Rule) {
    Governs(groups, agent, path, r) &&
    forall s :: Governs(groups, agent, path, s) ==> |s.pattern| <= |r.pattern|
  }

  /** No rule governs the path, or some longest one is an Allow. */
  ghost predicate Allowed(groups: seq<Group>, agent: string, path: string) {
    (forall r :: !Governs(groups, agent, path, r)) ||
    exists r :: Longest(groups, agent, path, r) && r.allow
  }

  // ---------- the code ----------

  method BestSpecificity(groups: seq<Group>, agent: string) returns (best: int)
    ensures best >= -1
    ensures forall t :: IsToken(groups, t) ==> Specificity(t, agent) <= best
    ensures best >= 0 ==> exists t :: IsToken(groups, t) && Specificity(t, agent) == best
  {
    best := -1;
    for i := 0 to |groups|
      invariant best >= -1
      invariant forall k :: 0 <= k < i ==> forall t <- groups[k].userAgents :: Specificity(t, agent) <= best
      invariant best >= 0 ==> exists t :: IsToken(groups, t) && Specificity(t, agent) == best
    {
      var tokens := groups[i].userAgents;
      for j := 0 to |tokens|
        invariant best >= -1
        invariant forall k :: 0 <= k < i ==> forall t <- groups[k].userAgents :: Specificity(t, agent) <= best
        invariant forall k :: 0 <= k < j ==> Specificity(tokens[k], agent) <= best
        invariant best >= 0 ==> exists t :: IsToken(groups, t) && Specificity(t, agent) == best
      {
        var token := tokens[j];
        assert IsToken(groups, token);
        if token == "*" {
          best := if best < 0 then 0 else best;
        } else if Contains(agent, token) {
          best := if best < |token| then |token| else best;
        }
      }
    }
  }

  /** The groups sharing the winning specificity, in order. */
  function WithSpecificity(groups: seq<Group>, agent: string, best: int): seq<Group> {
    if groups == [] then []
    else
      (if exists t <- groups[0].userAgents :: Specificity(t, agent) == best then [groups[0]] else [])
      + WithSpecificity(groups[1..], agent, best)
  }

  lemma {:induction false} WithSpecificityHas(groups: seq<Group>, agent: string, best: int, g: Group)
    ensures g in WithSpecificity(groups, agent, best) <==>
            g in groups && exists t <- g.userAgents :: Specificity(t, agent) == best
  {
    if groups != [] {
      WithSpecificityHas(groups[1..], agent, best, g);
    }
  }

  /** What is listed before a kept group and also kept comes before it among the kept. */
  ghost predicate KeepsOrder(groups: seq<Group>, kept: seq<Group>) {
    forall i :: 0 <= i < |kept| ==> ComesFrom(groups, kept, i)
  }

  ghost predicate ComesFrom(groups: seq<Group>, kept: seq<Group>, i: nat)
    requires i < |kept|
  {
    exists j :: 0 <= j < |groups| && groups[j] == kept[i] &&
                forall k :: 0 <= k < j && groups[k] in kept ==> groups[k] in kept[..i]
  }

  lemma {:induction false} WithSpecificityOrder(groups: seq<Group>, agent: string, best: int)
    ensures KeepsOrder(groups, WithSpecificity(groups, agent, best))
  {
    if groups != [] {
      var first, rest := groups[0], groups[1..];
      var kept, more := WithSpecificity(groups, agent, best), WithSpecificity(rest, agent, best);
      WithSpecificityOrder(rest, agent, best);
      WithSpecificityHas(groups, agent, best, first);
      forall i | 0 <= i < |kept|
        ensures ComesFrom(groups, kept, i)
      {
        if first in kept && i == 0 {
          assert groups[0] == kept[0];
        } else {
          var m := i - (|kept| - |more|);
          assert kept[|kept| - |more|..] == more && kept[i] == more[m];
          assert ComesFrom(rest, more, m);
          var j :| 0 <= j < |rest| && rest[j] == more[m] &&
                   forall k :: 0 <= k < j && rest[k] in more ==> rest[k] in more[..m];
          assert groups[j + 1] == kept[i];
          Shifted(groups, kept, more, i, m, j);
        }
      }
    }
  }

  lemma Shifted(groups: seq<Group>, kept: seq<Group>, more: seq<Group>, i: nat, m: nat, j: nat)
    requires groups != [] && j + 1 < |groups| && m < |more| && i < |kept|
    requires (kept == more && i == m && groups[0] !in kept) || (kept == [groups[0]] + more && i == m + 1)
    requires forall k :: 0 <= k < j && groups[1..][k] in more ==> groups[1..][k] in more[..m]
    ensures forall k :: 0 <= k < j + 1 && groups[k] in kept ==> groups[k] in kept[..i]
  {
    forall k | 0 <= k < j + 1 && groups[k] in kept
      ensures groups[k] in kept[..i]
    {
      if i == m + 1 {
        assert kept[..i] == [groups[0]] + more[..m];
      }
      if k > 0 {
        assert groups[1..][k - 1] == groups[k];
        if groups[k] == groups[0] {
          assert i == m + 1;
        }
      }
    }
  }

  ghost predicate AreInForce(groups: seq<Group>, agent: string, applicable: seq<Group>) {
    forall g :: g in applicable <==> g in groups && InForce(groups, agent, g)
  }

  method MatchGroups(groups: seq<Group>, agent: string) returns (applicable: seq<Group>)
    ensures AreInForce(groups, agent, applicable)
    ensures KeepsOrder(groups, applicable)
  {
    var best := BestSpecificity(groups, agent);
    if best == -1 {
      return [];
    }
    applicable := WithSpecificity(groups, agent, best);
    WithSpecificityOrder(groups, agent, best);
    forall g
      ensures g in applicable <==> g in groups && InForce(groups, agent, g)
    {
      WithSpecificityHas(groups, agent, best, g);
      if g in groups && InForce(groups, agent, g) {
        var t :| IsToken(groups, t) && Specificity(t, agent) == best;
        var token :| token in g.userAgents && Wins(groups, agent, token);
        assert IsToken(groups, token);
      }
      if g in applicable {
        var token :| token in g.userAgents && Specificity(token, agent) == best;
        assert Wins(groups, agent, token);
      }
    }
  }

  /** The verdict so far is the one of the longest rules read so far. */
  ghost predicate Leads(read: seq<Rule>, bestLength: int, verdict: bool) {
    && (forall r <- read :: |r.pattern| <= bestLength)
    && (read == [] ==> bestLength == -1 && verdict)
    && (read != [] ==>
          && (exists r <- read :: |r.pattern| == bestLength)
          && (verdict <==> exists r <- read :: |r.pattern| == bestLength && r.allow))
  }

  lemma LeadsStep(read: seq<Rule>, bestLength: int, verdict: bool, r: Rule)
    requires Leads(read, bestLength, verdict)
    ensures |r.pattern| > bestLength ==> Leads(read + [r], |r.pattern|, r.allow)
    ensures |r.pattern| == bestLength ==> Leads(read + [r], bestLength, verdict || r.allow)
    ensures |r.pattern| < bestLength ==> Leads(read + [r], bestLength, verdict)
  {
    var more := read + [r];
    assert forall s :: s in more <==> s in read || s == r;
    assert r in more;
  }

  /** The rules of one group that match the path. */
  ghost predicate Adds(read: seq<Rule>, earlier: seq<Rule>, rules: seq<Rule>, path: string) {
    forall r :: r in read <==> r in earlier || (r in rules && Test(r.pattern, path))
  }

  lemma AddsNext(read: seq<Rule>, earlier: seq<Rule>, rules: seq<Rule>, j: nat, path: string)
    requires j < |rules| && Adds(read, earlier, rules[..j], path)
    ensures Adds(if Test(rules[j].pattern, path) then read + [rules[j]] else read, earlier, rules[..j + 1], path)
  {
    assert rules[..j + 1] == rules[..j] + [rules[j]];
    assert forall r :: r in rules[..j + 1] <==> r in rules[..j] || r == rules[j];
    assert forall r :: r in read + [rules[j]] <==> r in read || r == rules[j];
  }

  method ReadRules(rules: seq<Rule>, path: string, bestLength: int, verdict: bool, ghost read: seq<Rule>)
    returns (length: int, answer: bool, ghost all: seq<Rule>)
    requires Leads(read, bestLength, verdict)
    ensures Leads(all, length, answer) && Adds(all, read, rules, path)
  {
    length, answer, all := bestLength, verdict, read;
    for j := 0 to |rules|
      invariant Leads(all, length, answer) && Adds(all, read, rules[..j], path)
    {
      var rule := rules[j];
      AddsNext(all, read, rules, j, path);
      if Test(rule.pattern, path) {
        LeadsStep(all, length, answer, rule);
        all := all + [rule];
        if |rule.pattern| > length {
          length := |rule.pattern|;
          answer := rule.allow;
        } else if |rule.pattern| == length && rule.allow {
          answer := true; // Allow wins ties
        }
      }
    }
    assert rules[..|rules|] == rules;
  }

  /** The rules of the groups read so far that match the path. */
  ghost predicate Collected(read: seq<Rule>, groups: seq<Group>, path: string) {
    forall r :: r in read <==> Test(r.pattern, path) && From(groups, r)
  }

  ghost predicate From(groups: seq<Group>, r: Rule) {
    exists g <- groups :: r in g.rules
  }

  lemma CollectedMore(read: seq<Rule>, groups: seq<Group>, path: string, more: seq<Rule>, g: Group)
    requires Collected(read, groups, path) && Adds(more, read, g.rules, path)
    ensures Collected(more, groups + [g], path)
  {
    forall r
      ensures From(groups + [g], r) <==> From(groups, r) || r in g.rules
    {
      assert g in groups + [g];
      assert forall h :: h in groups + [g] <==> h in groups || h == g;
    }
  }

  /** What has been read of the first groups, and the verdict it gives. */
  ghost predicate ReadSoFar(read: seq<Rule>, groups: seq<Group>, path: string, bestLength: int, verdict: bool) {
    Leads(read, bestLength, verdict) && Collected(read, groups, path)
  }

  lemma ReadNothing(path: string)
    ensures ReadSoFar([], [], path, -1, true)
  {
  }

  lemma ReadMore(read: seq<Rule>, applicable: seq<Group>, i: nat, path: string, all: seq<Rule>)
    requires i < |applicable| && Collected(read, applicable[..i], path) && Adds(all, read, applicable[i].rules, path)
    ensures Collected(all, applicable[..i + 1], path)
  {
    CollectedMore(read, applicable[..i], path, all, applicable[i]);
    assert applicable[..i + 1] == applicable[..i] + [applicable[i]];
  }

  method ReadGroup(applicable: seq<Group>, i: nat, path: string, bestLength: int, verdict: bool, ghost read: seq<Rule>)
    returns (length: int, answer: bool, ghost all: seq<Rule>)
    requires i < |applicable| && ReadSoFar(read, applicable[..i], path, bestLength, verdict)
    ensures ReadSoFar(all, applicable[..i + 1], path, length, answer)
  {
    length, answer, all := ReadRules(applicable[i].rules, path, bestLength, verdict, read);
    ReadMore(read, applicable, i, path, all);
  }

  /** The loop over the groups in force. */
  method ReadGroups(applicable: seq<Group>, path: string)
    returns (bestLength: int, verdict: bool, ghost read: seq<Rule>)
    ensures ReadSoFar(read, applicable, path, bestLength, verdict)
  {
    verdict, bestLength, read := true, -1, [];
    ReadNothing(path);
    for i := 0 to |applicable|
      invariant ReadSoFar(read, applicable[..i], path, bestLength, verdict)
    {
      bestLength, verdict, read := ReadGroup(applicable, i, path, bestLength, verdict, read);
    }
    assert applicable[..|applicable|] == applicable;
  }

  method IsAllowed(groups: seq<Group>, userAgent: string, path: string) returns (verdict: bool)
    requires NoBreaks(path)
    ensures verdict <==> Allowed(groups, Lower(userAgent), path)
  {
    var agent := Lower(userAgent);
    var applicable := MatchGroups(groups, agent);
    if |applicable| == 0 {
      VerdictIsAllowed(groups, agent, path, applicable, [], -1, true);
      return true;
    }
    var bestLength;
    ghost var read;
    bestLength, verdict, read := ReadGroups(applicable, path);
    VerdictIsAllowed(groups, agent, path, applicable, read, bestLength, verdict);
  }

  lemma VerdictIsAllowed(groups: seq<Group>, agent: string, path: string, applicable: seq<Group>, read: seq<Rule>,
                         bestLength: int, verdict: bool)
    requires NoBreaks(path) && Leads(read, bestLength, verdict)
    requires AreInForce(groups, agent, applicable)
    requires Collected(read, applicable, path)
    ensures verdict <==> Allowed(groups, agent, path)
  {
    forall r
      ensures r in read <==> Governs(groups, agent, path, r)
    {
      TestDecides(r.pattern, path);
      if Governs(groups, agent, path, r) {
        var g :| g in groups && InForce(groups, agent, g) && r in g.rules;
        assert g in applicable;
      }
    }
    if read == [] {
      assert forall r :: !Governs(groups, agent, path, r);
    } else {
      assert exists r <- read :: Governs(groups, agent, path, r);
      forall r <- read
        ensures Longest(groups, agent, path, r) <==> |r.pattern| == bestLength
      {
        var top :| top in read && |top.pattern| == bestLength;
        assert Governs(groups, agent, path, top);
      }
    }
  }

  /** The group at an index is in force and gives the delay. */
  ghost predicate Delays(groups: seq<Group>, agent: string, i: nat) {
    i < |groups| && InForce(groups, agent, groups[i]) && groups[i].crawlDelayMs.Some?
  }

  /** The delay is that of the first group in force that gives one. */
  ghost predicate FirstDelay(groups: seq<Group>, agent: string, delay: Option<int>) {
    if delay.None? then forall i: nat :: !Delays(groups, agent, i)
    else exists i: nat :: Delays(groups, agent, i) && groups[i].crawlDelayMs == delay &&
                          forall k: nat :: k < i ==> !Delays(groups, agent, k)
  }

  method CrawlDelayMs(groups: seq<Group>, userAgent: string) returns (delay: Option<int>)
    ensures FirstDelay(groups, Lower(userAgent), delay)
  {
    var applicable := MatchGroups(groups, Lower(userAgent));
    for i := 0 to |applicable|
      invariant forall k :: 0 <= k < i ==> applicable[k].crawlDelayMs.None?
    {
      if applicable[i].crawlDelayMs.Some? {
        FirstInForce(groups, Lower(userAgent), applicable, i);
        return applicable[i].crawlDelayMs;
      }
    }
    forall i: nat
      ensures !Delays(groups, Lower(userAgent), i)
    {
      if i < |groups| && groups[i] in applicable {
        var k :| 0 <= k < |applicable| && applicable[k] == groups[i];
      }
    }
    return None;
  }

  lemma FirstInForce(groups: seq<Group>, agent: string, applicable: seq<Group>, i: nat)
    requires i < |applicable| && applicable[i].crawlDelayMs.Some? && KeepsOrder(groups, applicable)
    requires AreInForce(groups, agent, applicable)
    requires forall k :: 0 <= k < i ==> applicable[k].crawlDelayMs.None?
    ensures FirstDelay(groups, agent, applicable[i].crawlDelayMs)
  {
    assert ComesFrom(groups, applicable, i);
    var j :| 0 <= j < |groups| && groups[j] == applicable[i] &&
             forall k :: 0 <= k < j && groups[k] in applicable ==> groups[k] in applicable[..i];
    assert Delays(groups, agent, j);
    forall k: nat | k < j
      ensures !Delays(groups, agent, k)
    {
      if groups[k] in applicable {
        var m :| 0 <= m < i && applicable[m] == groups[k];
      }
    }
  }

  // ---------- order does not matter ----------

  /** Each group of one list has a group of the other with the same tokens and rules. */
  ghost predicate Covered(a: seq<Group>, b: seq<Group>) {
    forall g <- a {:trigger HasTwin(b, g)} :: HasTwin(b, g)
  }

  ghost predicate HasTwin(b: seq<Group>, g: Group) {
    exists h <- b :: SameGroup(g, h)
  }

  ghost predicate SameGroup(g: Group, h: Group) {
    multiset(g.userAgents) == multiset(h.userAgents) && multiset(g.rules) == multiset(h.rules)
  }

  lemma SameMembers(g: Group, h: Group)
    requires SameGroup(g, h)
    ensures forall t :: t in g.userAgents <==> t in h.userAgents
    ensures forall r :: r in g.rules <==> r in h.rules
  {
    forall t
      ensures t in g.userAgents <==> t in h.userAgents
    {
      assert t in g.userAgents <==> t in multiset(g.userAgents);
      assert t in h.userAgents <==> t in multiset(h.userAgents);
    }
    forall r
      ensures r in g.rules <==> r in h.rules
    {
      assert r in g.rules <==> r in multiset(g.rules);
      assert r in h.rules <==> r in multiset(h.rules);
    }
  }

  lemma CoveredTokens(a: seq<Group>, b: seq<Group>)
    requires Covered(a, b)
    ensures forall t :: IsToken(a, t) ==> IsToken(b, t)
  {
    forall t | IsToken(a, t)
      ensures IsToken(b, t)
    {
      var g :| g in a && t in g.userAgents;
      assert HasTwin(b, g);
      var h :| h in b && SameGroup(g, h);
      SameMembers(g, h);
    }
  }

  lemma CoveredInForce(a: seq<Group>, b: seq<Group>, agent: string, g: Group, h: Group)
    requires (forall t :: IsToken(a, t) <==> IsToken(b, t)) && SameGroup(g, h) && InForce(a, agent, g)
    ensures InForce(b, agent, h)
  {
    SameMembers(g, h);
    var token :| token in g.userAgents && Wins(a, agent, token);
    assert token in h.userAgents && Wins(b, agent, token);
  }

  /** The same rules govern, one list's at least. */
  ghost predicate GovernsIn(a: seq<Group>, b: seq<Group>, agent: string, path: string) {
    forall r :: Governs(a, agent, path, r) ==> Governs(b, agent, path, r)
  }

  lemma CoveredGoverns(a: seq<Group>, b: seq<Group>, agent: string, path: string)
    requires (forall t :: IsToken(a, t) <==> IsToken(b, t)) && Covered(a, b)
    ensures GovernsIn(a, b, agent, path)
  {
    forall r | Governs(a, agent, path, r)
      ensures Governs(b, agent, path, r)
    {
      var g :| g in a && InForce(a, agent, g) && r in g.rules;
      assert HasTwin(b, g);
      var h :| h in b && SameGroup(g, h);
      SameMembers(g, h);
      CoveredInForce(a, b, agent, g, h);
    }
  }

  lemma SameLongest(a: seq<Group>, b: seq<Group>, agent: string, path: string, r: Rule)
    requires GovernsIn(a, b, agent, path) && GovernsIn(b, a, agent, path)
    requires Longest(a, agent, path, r)
    ensures Longest(b, agent, path, r)
  {
    forall s | Governs(b, agent, path, s)
      ensures |s.pattern| <= |r.pattern|
    {
      assert Governs(a, agent, path, s);
    }
  }

  lemma SameAllowed(a: seq<Group>, b: seq<Group>, agent: string, path: string)
    requires GovernsIn(a, b, agent, path) && GovernsIn(b, a, agent, path)
    requires Allowed(a, agent, path)
    ensures Allowed(b, agent, path)
  {
    if exists r :: Governs(a, agent, path, r) {
      var longest :| Longest(a, agent, path, longest) && longest.allow;
      SameLongest(a, b, agent, path, longest);
    }
  }

  /** Reordering or repeating groups, and reordering tokens or rules within them, changes no answer. */
  lemma OrderIsIrrelevant(a: seq<Group>, b: seq<Group>, agent: string, path: string)
    requires Covered(a, b) && Covered(b, a)
    ensures Allowed(a, agent, path) <==> Allowed(b, agent, path)
  {
    CoveredTokens(a, b);
    CoveredTokens(b, a);
    CoveredGoverns(a, b, agent, path);
    CoveredGoverns(b, a, agent, path);
    if Allowed(a, agent, path) {
      SameAllowed(a, b, agent, path);
    }
    if Allowed(b, agent, path) {
      SameAllowed(b, a, agent, path);
    }
  }
}
