/** No rule of the discipline can be dropped, under any policy it says something about: for each there is a run of three
    nodes that breaks no other rule and at whose end two nodes have applied different operations at the same index. */
module RulesNeeded {
  import opened RaftNode
  import opened RaftSystem
  import opened CommitSafety
  import opened SampleRuns
  import LostEntries
  import OldAnswers
  import StaleDurable

  /** The rule says something about nodes with this policy. */
  predicate Applies(rule: Rule, durable: bool) {
    match rule
    case CutsConflictsOnly => !durable
    case CoversDurable => durable
    case RejectsClaimMatched => durable
    case DropsOldAnswers => true
    case RestartKeepsFirm => true
  }

  /** Under the other policy the rule asks for nothing. */
  lemma SilentOtherwise(x: Node, a: Action, rule: Rule)
    requires x.Shaped() && (a.Deliver? ==> a.m.src < x.n) && !Applies(rule, x.durableCommit)
    ensures Obeys(x, a, rule)
  {}

  ghost predicate DivergesAt(s: System, run: seq<Action>, rule: Rule, k: nat) {
    && WF(s) && ValidRun(s, run) && Exec(s, run).n >= 2
    && RunWithin(s, run, Limits({rule}, rule == RestartKeepsFirm, rule != RejectsClaimMatched))
    && var a, b := Exec(s, run).nodes[0].applied, Exec(s, run).nodes[1].applied; k < |a| && k < |b| && a[k] != b[k]
  }

  lemma RuleNeeded(s: System, p: bool, rule: Rule) returns (run: seq<Action>, k: nat)
    requires Init(s) && s.n == 3 && SamePolicy(s) && s.nodes[0].durableCommit == p && Applies(rule, p)
    ensures DivergesAt(s, run, rule, k)
  {
    assert s.nodes == [Fresh(0, 3, p), Fresh(1, 3, p), Fresh(2, 3, p)];
    hide RunWithin, ValidRun, Exec, Init;
    match rule {
      case CutsConflictsOnly =>
        run := LostEntries.LateFrameDiverges(s);
        k := 1;
      case DropsOldAnswers =>
        run := OldAnswers.OldAnswerDiverges(s, p);
        k := 2;
      case RestartKeepsFirm =>
        run := LostEntries.LossDiverges(s, p);
        k := 1;
      case CoversDurable =>
        run := StaleDurable.CutDiverges(s);
        k := 1;
      case RejectsClaimMatched =>
        run := StaleDurable.RejectDiverges(s);
        k := 0;
    }
  }

  lemma Apart(a: Log, b: Log, k: nat)
    requires k < |a| && k < |b| && a[k] != b[k]
    ensures !(a <= b) && !(b <= a)
  {}

  /** For every rule and every policy it applies to, some run breaks that rule only, and two nodes apply different
      operations. */
  lemma EveryRuleNeeded(s: System, rule: Rule) returns (run: seq<Action>)
    requires Init(s) && s.n == 3 && SamePolicy(s) && Applies(rule, s.nodes[0].durableCommit)
    ensures ValidRun(s, run) && RunWithin(s, run, Limits({rule}, rule == RestartKeepsFirm, rule != RejectsClaimMatched))
    ensures var a, b := Exec(s, run).nodes[0].applied, Exec(s, run).nodes[1].applied; !(a <= b) && !(b <= a)
  {
    var k;
    run, k := RuleNeeded(s, s.nodes[0].durableCommit, rule);
    hide RunWithin, ValidRun, Exec;
    Apart(Exec(s, run).nodes[0].applied, Exec(s, run).nodes[1].applied, k);
  }
}
