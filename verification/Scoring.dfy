/** Page scores: the engine's own, over the results of its checks, and the finalizer's query, over the
    stored issues. */
module Scoring {
  import opened Sequences
  import opened JsonCanon

  datatype Severity = Critical | High | Medium | Low | Info

  datatype Status = Fail | Warning | Pass | NotApplicable

  datatype RuleResult = RuleResult(ruleId: string, severity: Severity, status: Status, message: string)

  /** What a stored issue counts as. */
  datatype Fault = Fault(check: string, severity: Severity)

  /** The weight of every known check. */
  type Catalog = map<string, real>

  /** log2 on instance counts. */
  type Log = nat -> real

  function Multiplier(s: Severity): real {
    match s
    case Critical => 1.0
    case High => 0.6
    case Medium => 0.3
    case Low => 0.1
    case Info => 0.0
  }

  predicate Failing(r: RuleResult) {
    r.status == Fail || r.status == Warning
  }

  function FaultOf(r: RuleResult): Fault {
    Fault(r.ruleId, r.severity)
  }

  /** The results that are stored and scored. */
  function Faults(results: seq<RuleResult>): seq<Fault> {
    if results == [] then []
    else
      var last := results[|results| - 1];
      Faults(results[..|results| - 1]) + if Failing(last) then [FaultOf(last)] else []
  }

  function Cost(weight: real, instances: nat, severity: Severity, log2: Log): real {
    weight * (1.0 + log2(instances) * 0.1) * Multiplier(severity)
  }

  function Clamp(score: real): real {
    if score < 0.0 then 0.0 else if score > 100.0 then 100.0 else score
  }

  function Total(xs: seq<real>): real {
    if xs == [] then 0.0 else Total(xs[..|xs| - 1]) + xs[|xs| - 1]
  }

  // ---------- the engine ----------

  type Groups = seq<Field<seq<RuleResult>>>

  function Members(groups: Groups, id: string): seq<RuleResult> {
    if HasKey(groups, id) then Get(groups, id) else []
  }

  /** The failing results by rule, in order of appearance. */
  function GroupsOf(results: seq<RuleResult>): Groups {
    if results == [] then []
    else
      var groups, last := GroupsOf(results[..|results| - 1]), results[|results| - 1];
      if Failing(last) then Put(groups, last.ruleId, Members(groups, last.ruleId) + [last]) else groups
  }

  /** A check missing from the catalog weighs nothing. */
  function EngineCost(catalog: Catalog, log2: Log): Field<seq<RuleResult>> -> real {
    (g: Field<seq<RuleResult>>) =>
      if g.value == [] then 0.0
      else Cost(if g.key in catalog then catalog[g.key] else 0.0, |g.value|, g.value[0].severity, log2)
  }

  function PageScore(results: seq<RuleResult>, catalog: Catalog, log2: Log): real {
    Clamp(100.0 - Total(Map(EngineCost(catalog, log2), GroupsOf(results))))
  }

  method ComputePageScore(results: seq<RuleResult>, catalog: Catalog, log2: Log) returns (score: real)
    ensures score == PageScore(results, catalog, log2)
    ensures 0.0 <= score <= 100.0
  {
    var groups: Groups := [];
    for i := 0 to |results|
      invariant groups == GroupsOf(results[..i])
    {
      assert results[..i + 1][..i] == results[..i];
      var result := results[i];
      if Failing(result) {
        groups := Put(groups, result.ruleId, Members(groups, result.ruleId) + [result]);
      }
    }
    assert results[..|results|] == results;
    score := 100.0;
    ghost var costs := Map(EngineCost(catalog, log2), groups);
    for i := 0 to |groups|
      invariant score == 100.0 - Total(costs[..i])
    {
      MapAt(EngineCost(catalog, log2), groups, i);
      assert costs[..i + 1][..i] == costs[..i];
      score := score - EngineCost(catalog, log2)(groups[i]);
    }
    assert costs[..|groups|] == costs;
    score := Clamp(score);
  }

  // ---------- the query ----------

  /** A check missing from the catalog weighs ten. */
  function SqlCost(rows: multiset<Fault>, catalog: Catalog, log2: Log): Fault -> real {
    (p: Fault) => Cost(if p.check in catalog then catalog[p.check] else 10.0, rows[p], p.severity, log2)
  }

  function Deduction(faults: seq<Fault>, catalog: Catalog, log2: Log): real {
    Total(Map(SqlCost(multiset(faults), catalog, log2), Unique(faults)))
  }

  function SqlScore(faults: seq<Fault>, catalog: Catalog, log2: Log): real {
    Clamp(100.0 - Deduction(faults, catalog, log2))
  }

  // ---------- the checks ----------

  /** A check and what its evaluation gives on the page. */
  datatype CheckRun = CheckRun(id: string, severity: Severity, partials: seq<Partial>)

  datatype Partial = Partial(status: Status, message: string)

  predicate Actionable(p: Partial) {
    p.status == Fail || p.status == Warning
  }

  function ActionableOf(partials: seq<Partial>): seq<Partial> {
    if partials == [] then []
    else (if Actionable(partials[0]) then [partials[0]] else []) + ActionableOf(partials[1..])
  }

  function SeverityOf(check: CheckRun, overrides: map<string, Severity>): Severity {
    if check.id in overrides then overrides[check.id] else check.severity
  }

  function ResultOf(check: CheckRun, overrides: map<string, Severity>): Partial -> RuleResult {
    (p: Partial) => RuleResult(check.id, SeverityOf(check, overrides), p.status, p.message)
  }

  /** The results of one check. */
  function RunOf(disabled: set<string>, overrides: map<string, Severity>): CheckRun -> seq<RuleResult> {
    (check: CheckRun) =>
      if check.id in disabled then [] else Map(ResultOf(check, overrides), ActionableOf(check.partials))
  }

  method RunChecks(checks: seq<CheckRun>, disabled: set<string>, overrides: map<string, Severity>)
    returns (out: seq<RuleResult>)
    ensures out == Flat(RunOf(disabled, overrides), checks)
  {
    out := [];
    for i := 0 to |checks|
      invariant out == Flat(RunOf(disabled, overrides), checks[..i])
    {
      FlatNext(RunOf(disabled, overrides), checks, i);
      if checks[i].id !in disabled {
        var results := RunCheck(checks[i], overrides);
        out := out + results;
      }
    }
    assert checks[..|checks|] == checks;
  }

  method RunCheck(check: CheckRun, overrides: map<string, Severity>) returns (out: seq<RuleResult>)
    ensures out == Map(ResultOf(check, overrides), ActionableOf(check.partials))
  {
    out := [];
    for i := 0 to |check.partials|
      invariant out == Map(ResultOf(check, overrides), ActionableOf(check.partials[..i]))
    {
      var p := check.partials[i];
      ActionableNext(check.partials, i);
      assert ActionableOf(check.partials[..i]) + [] == ActionableOf(check.partials[..i]);
      if Actionable(p) {
        assert Map(ResultOf(check, overrides), [p]) == [ResultOf(check, overrides)(p)];
        MapSplit(ResultOf(check, overrides), ActionableOf(check.partials[..i]), [p]);
        out := out + [RuleResult(check.id, if check.id in overrides then overrides[check.id] else check.severity,
                                 p.status, p.message)];
      }
    }
    assert check.partials[..|check.partials|] == check.partials;
  }

  lemma {:induction false} ActionableAppend(partials: seq<Partial>, p: Partial)
    ensures ActionableOf(partials + [p]) == ActionableOf(partials) + if Actionable(p) then [p] else []
  {
    if partials == [] {
      assert partials + [p] == [p];
    } else {
      ActionableAppend(partials[1..], p);
      assert (partials + [p])[1..] == partials[1..] + [p];
    }
  }

  lemma ActionableNext(partials: seq<Partial>, i: nat)
    requires i < |partials|
    ensures ActionableOf(partials[..i + 1]) ==
            ActionableOf(partials[..i]) + if Actionable(partials[i]) then [partials[i]] else []
  {
    ActionableAppend(partials[..i], partials[i]);
    assert partials[..i + 1] == partials[..i] + [partials[i]];
  }

  // ---------- the order of issues does not matter ----------

  lemma {:induction false} TotalSplit(xs: seq<real>, ys: seq<real>)
    ensures Total(xs + ys) == Total(xs) + Total(ys)
  {
    if ys == [] {
      assert xs + ys == xs;
    } else {
      var n := |ys| - 1;
      TotalSplit(xs, ys[..n]);
      assert (xs + ys)[..|xs + ys| - 1] == xs + ys[..n];
    }
  }

  lemma {:induction false} TotalPermuted(xs: seq<real>, ys: seq<real>)
    requires multiset(xs) == multiset(ys)
    ensures Total(xs) == Total(ys)
    decreases |xs|
  {
    if xs == [] {
      assert |multiset(ys)| == 0;
    } else {
      var j := FirstElsewhere(xs, ys);
      var rest := ys[..j] + ys[j + 1..];
      TotalPermuted(xs[1..], rest);
      TotalSplit([xs[0]], xs[1..]);
      TotalSplit(ys[..j], [ys[j]] + ys[j + 1..]);
      TotalSplit([ys[j]], ys[j + 1..]);
      TotalSplit(ys[..j], ys[j + 1..]);
      TotalOne(xs[0]);
      assert xs == [xs[0]] + xs[1..] && ys == ys[..j] + ([ys[j]] + ys[j + 1..]);
    }
  }

  lemma TotalOne(x: real)
    ensures Total([x]) == x
  {
    assert [x][..0] == [];
    assert Total([]) == 0.0;
  }

  lemma {:induction false} UniquePermuted(a: seq<Fault>, b: seq<Fault>)
    requires multiset(a) == multiset(b)
    ensures multiset(Unique(a)) == multiset(Unique(b))
  {
    UniqueAre(a);
    UniqueAre(b);
    forall p
      ensures multiset(Unique(a))[p] == multiset(Unique(b))[p]
    {
      assert p in a <==> p in multiset(a);
      assert p in b <==> p in multiset(b);
      assert p in Unique(a) <==> p in multiset(Unique(a));
      assert p in Unique(b) <==> p in multiset(Unique(b));
    }
  }

  /** The query's score depends on the issues only as a multiset. */
  lemma DeductionPermuted(a: seq<Fault>, b: seq<Fault>, catalog: Catalog, log2: Log)
    requires multiset(a) == multiset(b)
    ensures Deduction(a, catalog, log2) == Deduction(b, catalog, log2)
  {
    var cost := SqlCost(multiset(a), catalog, log2);
    UniquePermuted(a, b);
    MapPermuted(cost, Unique(a), Unique(b));
    TotalPermuted(Map(cost, Unique(a)), Map(cost, Unique(b)));
  }

  // ---------- more issues never raise a score ----------

  /** A logarithm that is zero at one and does not decrease, and weights that are not negative. */
  ghost predicate Sane(catalog: Catalog, log2: Log) {
    && log2(1) == 0.0
    && (forall m: nat, n: nat :: 1 <= m <= n ==> log2(m) <= log2(n))
    && (forall id <- catalog :: catalog[id] >= 0.0)
  }

  lemma CostGrows(w: real, m: nat, n: nat, s: Severity, log2: Log)
    requires w >= 0.0 && 0.0 <= log2(m) <= log2(n)
    ensures 0.0 <= Cost(w, m, s, log2) <= Cost(w, n, s, log2)
  {
    var k := Multiplier(s);
    var a, b := 1.0 + log2(m) * 0.1, 1.0 + log2(n) * 0.1;
    assert 0.0 <= a <= b;
    assert 0.0 <= w * a <= w * b;
    assert k >= 0.0;
    assert 0.0 <= w * a * k <= w * b * k;
  }

  lemma {:induction false} TotalGrows(xs: seq<real>, ys: seq<real>)
    requires |xs| == |ys| && forall i :: 0 <= i < |xs| ==> xs[i] <= ys[i]
    ensures Total(xs) <= Total(ys)
  {
    if xs != [] {
      TotalGrows(xs[..|xs| - 1], ys[..|ys| - 1]);
    }
  }

  lemma OneMoreFault(faults: seq<Fault>, x: Fault, catalog: Catalog, log2: Log)
    requires Sane(catalog, log2)
    ensures Deduction(faults, catalog, log2) <= Deduction(faults + [x], catalog, log2)
  {
    var more := faults + [x];
    var f, g := SqlCost(multiset(faults), catalog, log2), SqlCost(multiset(more), catalog, log2);
    var pairs := Unique(faults);
    assert more[..|faults|] == faults && multiset(more) == multiset(faults) + multiset{x};
    UniqueAre(faults);
    forall i | 0 <= i < |pairs|
      ensures Map(f, pairs)[i] <= Map(g, pairs)[i]
    {
      var p := pairs[i];
      MapAt(f, pairs, i);
      MapAt(g, pairs, i);
      assert p in faults && p in multiset(faults);
      CostGrows(if p.check in catalog then catalog[p.check] else 10.0, multiset(faults)[p], multiset(more)[p],
                p.severity, log2);
    }
    TotalGrows(Map(f, pairs), Map(g, pairs));
    if x !in faults {
      MapSplit(g, pairs, [x]);
      TotalSplit(Map(g, pairs), Map(g, [x]));
      TotalOne(g(x));
      assert Map(g, [x]) == [g(x)];
      CostGrows(if x.check in catalog then catalog[x.check] else 10.0, 1, multiset(more)[x], x.severity, log2);
    }
  }

  lemma {:induction false} MoreFaults(faults: seq<Fault>, more: seq<Fault>, catalog: Catalog, log2: Log)
    requires Sane(catalog, log2)
    ensures Deduction(faults, catalog, log2) <= Deduction(faults + more, catalog, log2)
    decreases |more|
  {
    if more == [] {
      assert faults + more == faults;
    } else {
      var mid := faults + [more[0]];
      assert mid + more[1..] == faults + more;
      OneMoreFault(faults, more[0], catalog, log2);
      MoreFaults(mid, more[1..], catalog, log2);
    }
  }

  /** Adding issues never raises the score. */
  lemma MoreFaultsScoreLess(faults: seq<Fault>, more: seq<Fault>, catalog: Catalog, log2: Log)
    requires Sane(catalog, log2)
    ensures SqlScore(faults + more, catalog, log2) <= SqlScore(faults, catalog, log2)
  {
    MoreFaults(faults, more, catalog, log2);
  }

  // ---------- the query agrees with the engine ----------

  /** Failing results of one rule share a severity. */
  ghost predicate Uniform(faults: seq<Fault>) {
    forall a, b :: a in faults && b in faults && a.check == b.check ==> a == b
  }

  /** Each group is the instances of one pair. */
  ghost predicate Agree(groups: Groups, pairs: seq<Fault>, rows: multiset<Fault>) {
    |groups| == |pairs| &&
    forall i :: 0 <= i < |pairs| ==>
      && groups[i].key == pairs[i].check && |groups[i].value| == rows[pairs[i]] > 0
      && groups[i].value[0].severity == pairs[i].severity
  }

  lemma AgreeAppend(groups: Groups, pairs: seq<Fault>, rows: multiset<Fault>, r: RuleResult)
    requires Agree(groups, pairs, rows) && !HasKey(groups, r.ruleId) && rows[FaultOf(r)] == 0
    ensures Agree(Put(groups, r.ruleId, Members(groups, r.ruleId) + [r]), pairs + [FaultOf(r)],
      rows + multiset{FaultOf(r)})
  {
    var more, all := groups + [Field(r.ruleId, [r])], pairs + [FaultOf(r)];
    assert Members(groups, r.ruleId) + [r] == [r];
    forall i | 0 <= i < |all|
      ensures more[i].key == all[i].check && |more[i].value| == (rows + multiset{FaultOf(r)})[all[i]] > 0
      ensures more[i].value[0].severity == all[i].severity
    {
      if i < |pairs| {
        assert all[i] == pairs[i] && rows[pairs[i]] > 0;
      }
    }
  }

  lemma AgreeUpdate(groups: Groups, pairs: seq<Fault>, rows: multiset<Fault>, r: RuleResult, i: nat)
    requires Agree(groups, pairs, rows) && i < |pairs| && pairs[i] == FaultOf(r) && Distinct(Keys(groups))
    ensures Agree(Put(groups, r.ruleId, Members(groups, r.ruleId) + [r]), pairs, rows + multiset{FaultOf(r)})
  {
    GetOf(groups, i);
    assert groups[i] in groups;
    var at := IndexOf(groups, r.ruleId);
    assert Keys(groups)[at] == Keys(groups)[i];
    assert at == i;
    forall j | 0 <= j < |pairs| && j != i
      ensures pairs[j] != pairs[i]
    {
      assert Keys(groups)[j] != Keys(groups)[i];
    }
  }

  lemma {:induction false} GroupsDistinct(results: seq<RuleResult>)
    ensures Distinct(Keys(GroupsOf(results)))
  {
    if results != [] {
      var before, last := results[..|results| - 1], results[|results| - 1];
      GroupsDistinct(before);
      PutDistinct(GroupsOf(before), last.ruleId, Members(GroupsOf(before), last.ruleId) + [last]);
    }
  }

  lemma {:induction false} GroupsArePairs(results: seq<RuleResult>)
    requires Uniform(Faults(results))
    ensures Agree(GroupsOf(results), Unique(Faults(results)), multiset(Faults(results)))
  {
    if results != [] {
      var before, last := results[..|results| - 1], results[|results| - 1];
      var faults := Faults(before);
      assert forall x <- faults :: x in Faults(results);
      GroupsArePairs(before);
      if Failing(last) {
        var f := FaultOf(last);
        assert Faults(results) == faults + [f] && (faults + [f])[..|faults|] == faults;
        GroupsDistinct(before);
        UniqueAre(faults);
        if f in faults {
          var i :| 0 <= i < |Unique(faults)| && Unique(faults)[i] == f;
          AgreeUpdate(GroupsOf(before), Unique(faults), multiset(faults), last, i);
        } else {
          NoGroup(GroupsOf(before), faults, f);
          AgreeAppend(GroupsOf(before), Unique(faults), multiset(faults), last);
        }
      } else {
        assert Faults(results) == faults;
      }
    }
  }

  lemma {:induction false} NoGroup(groups: Groups, faults: seq<Fault>, f: Fault)
    requires Agree(groups, Unique(faults), multiset(faults)) && f !in faults && Uniform(faults + [f])
    ensures !HasKey(groups, f.check)
  {
    UniqueAre(faults);
    assert f in faults + [f];
    forall i | 0 <= i < |groups|
      ensures groups[i].key != f.check
    {
      assert Unique(faults)[i] in faults && Unique(faults)[i] in faults + [f];
    }
  }

  /** Every failing rule is in the catalog. */
  ghost predicate Known(faults: seq<Fault>, catalog: Catalog) {
    forall f <- faults :: f.check in catalog
  }

  /** With one severity per rule and every rule known, the query over the stored issues gives the
      engine's score. */
  lemma {:induction false} ScoresAgree(results: seq<RuleResult>, catalog: Catalog, log2: Log)
    requires Uniform(Faults(results)) && Known(Faults(results), catalog)
    ensures SqlScore(Faults(results), catalog, log2) == PageScore(results, catalog, log2)
  {
    var faults := Faults(results);
    var groups, pairs := GroupsOf(results), Unique(faults);
    var f, g := EngineCost(catalog, log2), SqlCost(multiset(faults), catalog, log2);
    GroupsArePairs(results);
    UniqueAre(faults);
    forall i | 0 <= i < |pairs|
      ensures Map(f, groups)[i] == Map(g, pairs)[i]
    {
      MapAt(f, groups, i);
      MapAt(g, pairs, i);
      assert pairs[i] in faults;
    }
    assert Map(f, groups) == Map(g, pairs);
  }

  // ---------- results of the checks ----------

  /** Check ids are unique and known. */
  ghost predicate Catalogued(checks: seq<CheckRun>, catalog: Catalog) {
    && (forall c <- checks :: c.id in catalog)
    && (forall c, d :: c in checks && d in checks && c.id == d.id ==> c == d)
  }

  /** A result of a check in the list, at the severity in force for it. */
  ghost predicate FromChecks(checks: seq<CheckRun>, overrides: map<string, Severity>, r: RuleResult) {
    Failing(r) && exists c <- checks :: r.ruleId == c.id && r.severity == SeverityOf(c, overrides)
  }

  lemma {:induction false} RunFromChecks(checks: seq<CheckRun>, disabled: set<string>, overrides: map<string, Severity>)
    ensures forall r <- Flat(RunOf(disabled, overrides), checks) :: FromChecks(checks, overrides, r)
  {
    if checks != [] {
      RunFromChecks(checks[1..], disabled, overrides);
      ResultsOfCheck(checks[0], overrides, checks[0].partials);
      forall r <- Flat(RunOf(disabled, overrides), checks)
        ensures FromChecks(checks, overrides, r)
      {
        if r in RunOf(disabled, overrides)(checks[0]) {
          assert checks[0] in checks;
        } else {
          assert FromChecks(checks[1..], overrides, r);
        }
      }
    }
  }

  lemma {:induction false} ResultsOfCheck(check: CheckRun, overrides: map<string, Severity>, partials: seq<Partial>)
    ensures forall r <- Map(ResultOf(check, overrides), ActionableOf(partials)) ::
      Failing(r) && r.ruleId == check.id && r.severity == SeverityOf(check, overrides)
  {
    var f := ResultOf(check, overrides);
    if partials != [] {
      ResultsOfCheck(check, overrides, partials[1..]);
      var first := if Actionable(partials[0]) then [partials[0]] else [];
      MapSplit(f, first, ActionableOf(partials[1..]));
      assert Map(f, first) == if Actionable(partials[0]) then [f(partials[0])] else [];
    }
  }

  lemma {:induction false} FaultsFrom(results: seq<RuleResult>, f: Fault)
    requires f in Faults(results)
    ensures exists r <- results :: Failing(r) && FaultOf(r) == f
  {
    var before, last := results[..|results| - 1], results[|results| - 1];
    if f in Faults(before) {
      FaultsFrom(before, f);
    }
  }

  /** For a page just validated: whatever is disabled or overridden, the query over its stored issues
      gives the engine's score, and results never share a rule at two severities. */
  lemma {:induction false} FreshPageAgrees(checks: seq<CheckRun>, disabled: set<string>,
                                           overrides: map<string, Severity>, catalog: Catalog, log2: Log)
    requires Catalogued(checks, catalog)
    ensures var results := Flat(RunOf(disabled, overrides), checks);
      && Uniform(Faults(results))
      && SqlScore(Faults(results), catalog, log2) == PageScore(results, catalog, log2)
  {
    var results := Flat(RunOf(disabled, overrides), checks);
    RunFromChecks(checks, disabled, overrides);
    forall f <- Faults(results)
      ensures exists c <- checks :: f.check == c.id && f.severity == SeverityOf(c, overrides)
    {
      FaultsFrom(results, f);
      var r :| r in results && Failing(r) && FaultOf(r) == f;
      assert FromChecks(checks, overrides, r);
    }
    ScoresAgree(results, catalog, log2);
  }

  /** With two severities for one rule the engine's score depends on the order of results, and differs
      from the query's. */
  lemma MixedSeverities(log2: Log)
    requires log2(1) == 0.0 && log2(2) == 1.0
    ensures exists a, b, catalog ::
      multiset(a) == multiset(b) && PageScore(a, catalog, log2) != PageScore(b, catalog, log2)
  {
    var x, y := RuleResult("r", Critical, Fail, ""), RuleResult("r", Low, Fail, "");
    var a, b := [x, y], [y, x];
    var catalog: Catalog := map["r" := 10.0];
    assert multiset(a) == multiset{x, y} && multiset(b) == multiset{x, y};
    TwoResults(x, y, catalog, log2);
    TwoResults(y, x, catalog, log2);
    assert PageScore(a, catalog, log2) == 89.0 && PageScore(b, catalog, log2) == 98.9;
  }

  lemma TwoResults(x: RuleResult, y: RuleResult, catalog: Catalog, log2: Log)
    requires Failing(x) && Failing(y) && x.ruleId == y.ruleId && x.ruleId in catalog
    ensures PageScore([x, y], catalog, log2) == Clamp(100.0 - Cost(catalog[x.ruleId], 2, x.severity, log2))
  {
    assert [x, y][..1] == [x] && [x][..0] == [];
    assert GroupsOf([x]) == [Field(x.ruleId, [x])] by {
      assert Members([], x.ruleId) + [x] == [x];
    }
    var groups := GroupsOf([x]);
    assert groups[0] in groups && HasKey(groups, x.ruleId);
    assert Members(groups, x.ruleId) + [y] == [x, y];
    assert GroupsOf([x, y]) == [Field(x.ruleId, [x, y])];
    MapAt(EngineCost(catalog, log2), GroupsOf([x, y]), 0);
    assert Map(EngineCost(catalog, log2), GroupsOf([x, y])) == [Cost(catalog[x.ruleId], 2, x.severity, log2)];
    TotalOne(Cost(catalog[x.ruleId], 2, x.severity, log2));
  }
}
