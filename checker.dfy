/**
 * The role checker as the tree traversal sees it: an object built once from
 * its properties, whose `Visit` is called for every node of the construct
 * tree, possibly more than once per node.  A policy or role node is checked
 * the first time its path is seen; its annotations go to the node.
 */
module Checker {
  import opened Patterns
  import opened Rules

  /** The constructor's argument; every key may be left out. */
  datatype Props = Props(allowList: Option<seq<string>>, denyList: Option<seq<string>>, banWildcards: Option<bool>)

  /** A construct by the type of its default child resource, with the statements the checker reads from it. */
  datatype Node =
    | PolicyRes(statements: seq<Statement>)
    | RoleRes(policies: Option<seq<seq<Statement>>>)
    | Other

  /** An annotation added to a node: a violation `check` reports, or the Info notice for a failing statement. */
  datatype Annotation = Flag(violation: Violation) | NotConforming

  predicate ValidStatements(sts: seq<Statement>) {
    forall i :: 0 <= i < |sts| ==> ValidStatement(sts[i])
  }

  predicate ValidNode(node: Node) {
    match node
    case PolicyRes(sts) => ValidStatements(sts)
    case RoleRes(ps) => ps.Some? ==> forall j :: 0 <= j < |ps.value| ==> ValidStatements(ps.value[j])
    case Other => true
  }

  function Flags(vs: seq<Violation>): seq<Annotation> {
    seq(|vs|, i requires 0 <= i < |vs| => Flag(vs[i]))
  }

  /** What checking one statement adds to the node: its violations, then the Info notice if there were any. */
  function StatementAnnotations(st: Statement, cfg: Config): seq<Annotation>
    requires ValidStatement(st) && ValidConfig(cfg)
  {
    var vs := Violations(st, cfg);
    Flags(vs) + (if 0 < |vs| then [NotConforming] else [])
  }

  /** The annotations for a list of statements, checked in order. */
  function StatementsAnnotations(sts: seq<Statement>, cfg: Config): seq<Annotation>
    requires ValidStatements(sts) && ValidConfig(cfg)
  {
    if sts == [] then []
    else StatementsAnnotations(sts[..|sts| - 1], cfg) + StatementAnnotations(sts[|sts| - 1], cfg)
  }

  /** The annotations for a role's inline policies, checked in order. */
  function PoliciesAnnotations(ps: seq<seq<Statement>>, cfg: Config): seq<Annotation>
    requires forall j :: 0 <= j < |ps| ==> ValidStatements(ps[j])
    requires ValidConfig(cfg)
  {
    if ps == [] then []
    else PoliciesAnnotations(ps[..|ps| - 1], cfg) + StatementsAnnotations(ps[|ps| - 1], cfg)
  }

  /** The annotations a first visit adds to the node. */
  function NodeAnnotations(node: Node, cfg: Config): seq<Annotation>
    requires ValidNode(node) && ValidConfig(cfg)
  {
    match node
    case PolicyRes(sts) => StatementsAnnotations(sts, cfg)
    case RoleRes(ps) => if ps.Some? then PoliciesAnnotations(ps.value, cfg) else []
    case Other => []
  }

  /** The number of Info notices among the annotations. */
  function Notices(anns: seq<Annotation>): nat {
    if anns == [] then 0
    else Notices(anns[..|anns| - 1]) + (if anns[|anns| - 1].NotConforming? then 1 else 0)
  }

  lemma {:induction false} NoticesAppend(xs: seq<Annotation>, ys: seq<Annotation>)
    ensures Notices(xs + ys) == Notices(xs) + Notices(ys)
    decreases |ys|
  {
    if ys == [] {
      assert xs + ys == xs;
    } else {
      var init := ys[..|ys| - 1];
      assert (xs + ys)[..|xs + ys| - 1] == xs + init;
      NoticesAppend(xs, init);
    }
  }

  lemma {:induction false} NoNoticesAmongFlags(vs: seq<Violation>)
    ensures Notices(Flags(vs)) == 0
    decreases |vs|
  {
    if vs != [] {
      assert Flags(vs)[..|vs| - 1] == Flags(vs[..|vs| - 1]);
      NoNoticesAmongFlags(vs[..|vs| - 1]);
    }
  }

  /** `check` returns a positive count for the statement. */
  predicate Fails(st: Statement, cfg: Config) {
    ValidStatement(st) && ValidConfig(cfg) && Violations(st, cfg) != []
  }

  /** The statements (by position) for which `check` returns a positive count. */
  function Failing(sts: seq<Statement>, cfg: Config): set<nat> {
    set i: nat | i < |sts| && Fails(sts[i], cfg)
  }

  /** Appending a statement adds its position to the failing ones exactly when its check fails. */
  lemma FailingSnocSet(sts: seq<Statement>, cfg: Config)
    requires sts != []
    ensures var n := |sts| - 1;
      && n !in Failing(sts[..n], cfg)
      && Failing(sts, cfg) == Failing(sts[..n], cfg) + (if Fails(sts[n], cfg) then {n} else {})
  {
    var n := |sts| - 1;
    var init := sts[..n];
    var tail: set<nat> := if Fails(sts[n], cfg) then {n} else {};
    forall i: nat
      ensures i in Failing(sts, cfg) <==> i in Failing(init, cfg) + tail
    {
      if i < n {
        assert sts[i] == init[i];
        assert i in Failing(sts, cfg) <==> Fails(sts[i], cfg);
        assert i in Failing(init, cfg) <==> Fails(init[i], cfg);
      } else if i == n {
        assert i in Failing(sts, cfg) <==> Fails(sts[n], cfg);
        assert i !in Failing(init, cfg);
      } else {
        assert i !in Failing(sts, cfg) && i !in Failing(init, cfg);
      }
    }
    assert n !in Failing(init, cfg);
  }

  /** Appending a failing statement adds one to the number of failing ones; any other adds none. */
  lemma FailingSnoc(sts: seq<Statement>, cfg: Config)
    requires sts != []
    ensures var n := |sts| - 1;
      |Failing(sts, cfg)| == |Failing(sts[..n], cfg)| + (if Fails(sts[n], cfg) then 1 else 0)
  {
    FailingSnocSet(sts, cfg);
  }

  /** One Info notice is added per statement whose check count is positive, and no other. */
  lemma {:induction false} NoticesCountFailingStatements(sts: seq<Statement>, cfg: Config)
    requires ValidStatements(sts) && ValidConfig(cfg)
    ensures Notices(StatementsAnnotations(sts, cfg)) == |Failing(sts, cfg)|
  {
    if sts == [] {
      assert Failing(sts, cfg) == {};
    } else {
      var n := |sts| - 1;
      var init, last := sts[..n], sts[n];
      NoticesCountFailingStatements(init, cfg);
      var vs := Violations(last, cfg);
      NoticesAppend(StatementsAnnotations(init, cfg), StatementAnnotations(last, cfg));
      NoticesAppend(Flags(vs), if 0 < |vs| then [NotConforming] else []);
      NoNoticesAmongFlags(vs);
      assert Notices([NotConforming]) == 1 by {
        assert [NotConforming][..0] == [];
      }
      FailingSnoc(sts, cfg);
    }
  }

  /** The number of failing statements over a role's inline policies. */
  function FailingCount(ps: seq<seq<Statement>>, cfg: Config): nat {
    if ps == [] then 0 else FailingCount(ps[..|ps| - 1], cfg) + |Failing(ps[|ps| - 1], cfg)|
  }

  /** Over a role's inline policies, one Info notice is added per failing statement, and no other. */
  lemma {:induction false} NoticesCountFailingPolicies(ps: seq<seq<Statement>>, cfg: Config)
    requires forall j :: 0 <= j < |ps| ==> ValidStatements(ps[j])
    requires ValidConfig(cfg)
    ensures Notices(PoliciesAnnotations(ps, cfg)) == FailingCount(ps, cfg)
  {
    if ps != [] {
      var init, last := ps[..|ps| - 1], ps[|ps| - 1];
      NoticesCountFailingPolicies(init, cfg);
      NoticesAppend(PoliciesAnnotations(init, cfg), StatementsAnnotations(last, cfg));
      NoticesCountFailingStatements(last, cfg);
    }
  }

  /**
   * A first visit adds one Info notice per failing statement of the node: of
   * its policy document, or of every inline policy of a role.
   */
  lemma NoticesCountFailingInNode(node: Node, cfg: Config)
    requires ValidNode(node) && ValidConfig(cfg)
    ensures node.PolicyRes? ==> Notices(NodeAnnotations(node, cfg)) == |Failing(node.statements, cfg)|
    ensures node.RoleRes? && node.policies.Some? ==> Notices(NodeAnnotations(node, cfg)) == FailingCount(node.policies.value, cfg)
    ensures node.Other? || (node.RoleRes? && node.policies.None?) ==> Notices(NodeAnnotations(node, cfg)) == 0
  {
    match node
    case PolicyRes(sts) =>
      NoticesCountFailingStatements(sts, cfg);
    case RoleRes(ps) =>
      if ps.Some? {
        NoticesCountFailingPolicies(ps.value, cfg);
      }
    case Other =>
  }

  /** Deny statements add no annotation at all. */
  lemma {:induction false} DenyStatementsAreSilent(sts: seq<Statement>, cfg: Config)
    requires ValidStatements(sts) && ValidConfig(cfg)
    requires forall i :: 0 <= i < |sts| ==> sts[i].effect == Deny
    ensures StatementsAnnotations(sts, cfg) == []
  {
    if sts != [] {
      DenyStatementsAreSilent(sts[..|sts| - 1], cfg);
      assert Violations(sts[|sts| - 1], cfg) == [];
    }
  }

  class CdkRoleChecker {
    const config: Config
    /** Paths of the policy and role nodes already checked, in the order first seen. */
    var visited: seq<string>

    ghost predicate Valid()
      reads this
    {
      && ValidConfig(config)
      && forall i, j :: 0 <= i < j < |visited| ==> visited[i] != visited[j]
    }

    /** An absent `banWildcards` means false; nothing has been visited yet. */
    constructor (props: Props)
      requires ValidPatterns(props.allowList) && ValidPatterns(props.denyList)
      ensures Valid()
      ensures config == Config(props.allowList, props.denyList, props.banWildcards == Some(true))
      ensures visited == []
    {
      config := Config(props.allowList, props.denyList,
                       match props.banWildcards case Some(b) => b case None => false);
      visited := [];
    }

    /** `check`: the annotations for one statement, and their number. */
    method Check(statement: Statement) returns (violations: seq<Violation>, errors: int)
      requires ValidStatement(statement) && ValidConfig(config)
      ensures violations == Violations(statement, config)
      ensures errors == |violations|
    {
      if statement.effect == Deny {
        return [], 0;
      }
      var actions := statement.actions;
      violations, errors := [], 0;
      if config.banWildcards {
        violations, errors := ReportWildcards(actions);
      }
      assert violations == BanPass(actions, config.banWildcards);
      if exists i :: 0 <= i < |actions| && Truthy(MalformedCallback(actions[i])) {
        violations := violations + [Violation(MalformedWildcard, Warning, [])];
        errors := errors + 1;
      }
      assert violations == BanPass(actions, config.banWildcards) + MalformedPass(actions);
      var listed, listErrors := [], 0;
      if config.allowList.Some? {
        listed, listErrors := CheckAllowed(actions);
      } else if config.denyList.Some? {
        listed, listErrors := CheckDenied(actions);
      }
      assert listed == ListPass(actions, config);
      violations, errors := violations + listed, errors + listErrors;
    }

    /** The wildcard-ban loop of `check`: one Error per action ending in `*`. */
    method ReportWildcards(actions: seq<string>) returns (violations: seq<Violation>, errors: nat)
      ensures violations == BanPass(actions, true)
      ensures errors == |violations|
    {
      var maybeWildcards := Filter(actions, EndsWithStar);
      violations, errors := [], 0;
      for i := 0 to |maybeWildcards|
        invariant violations == BanEach(maybeWildcards[..i])
        invariant errors == |violations|
      {
        assert maybeWildcards[..i + 1][..i] == maybeWildcards[..i];
        violations := violations + [Violation(WildcardBanned, Error, [maybeWildcards[i]])];
        errors := errors + 1;
      }
      assert maybeWildcards[..|maybeWildcards|] == maybeWildcards;
    }

    /** The allow-list loop of `check`, over the statement's actions. */
    method CheckAllowed(actions: seq<string>) returns (violations: seq<Violation>, errors: nat)
      requires config.allowList.Some?
      ensures violations == AllowPass(actions, config.allowList.value, config.banWildcards)
      ensures errors == |violations|
    {
      var allowedCalls := config.allowList.value;
      violations, errors := [], 0;
      for i := 0 to |actions|
        invariant violations == AllowPass(actions[..i], allowedCalls, config.banWildcards)
        invariant errors == |violations|
      {
        var checkCall := actions[i];
        assert actions[..i + 1][..i] == actions[..i];
        var verdict := [];
        if !EndsWithStar(checkCall) && !AnyMatch(checkCall, allowedCalls) {
          verdict := [Violation(ActionNotAllowed, Error, [checkCall])];
        } else if EndsWithStar(checkCall) && !config.banWildcards {
          var possibleSuperset := Filter(allowedCalls, EndsWithStar);
          var trimmed := checkCall[..|checkCall| - 1];
          if checkCall !in possibleSuperset && !AnyMatch(trimmed, possibleSuperset) {
            verdict := [Violation(WildcardScopeExceeded, Error, [checkCall])];
          }
        }
        assert verdict == AllowVerdict(checkCall, allowedCalls, config.banWildcards);
        violations, errors := violations + verdict, errors + |verdict|;
      }
      assert actions[..|actions|] == actions;
    }

    /** The deny-list loop of `check`, over the denied patterns. */
    method CheckDenied(actions: seq<string>) returns (violations: seq<Violation>, errors: nat)
      requires config.denyList.Some?
      ensures violations == DenyPass(config.denyList.value, actions)
      ensures errors == |violations|
    {
      var deniedCalls := config.denyList.value;
      violations, errors := [], 0;
      for i := 0 to |deniedCalls|
        invariant violations == DenyPass(deniedCalls[..i], actions)
        invariant errors == |violations|
      {
        var denyCall := deniedCalls[i];
        assert deniedCalls[..i + 1][..i] == deniedCalls[..i];
        var maybeBanned := DenyHits(actions, denyCall);
        if |maybeBanned| > 0 {
          violations := violations + [Violation(ActionDenied, Error, maybeBanned)];
          errors := errors + 1;
        }
      }
      assert deniedCalls[..|deniedCalls|] == deniedCalls;
    }

    /** The loop over one policy document's statements, adding the Info notice after each failing one. */
    method Report(statements: seq<Statement>) returns (annotations: seq<Annotation>)
      requires ValidStatements(statements) && ValidConfig(config)
      ensures annotations == StatementsAnnotations(statements, config)
    {
      annotations := [];
      for i := 0 to |statements|
        invariant annotations == StatementsAnnotations(statements[..i], config)
      {
        assert statements[..i + 1][..i] == statements[..i];
        var violations, errors := Check(statements[i]);
        annotations := annotations + Flags(violations);
        if 0 < errors {
          annotations := annotations + [NotConforming];
        }
      }
      assert statements[..|statements|] == statements;
    }

    /**
     * `visit`: a policy or role node is checked only if its path has not been
     * seen, and its path is then recorded; any other node is ignored.
     */
    method Visit(path: string, node: Node) returns (annotations: seq<Annotation>)
      requires Valid() && ValidNode(node)
      modifies this
      ensures Valid()
      ensures node.Other? || path in old(visited) ==> visited == old(visited) && annotations == []
      ensures !node.Other? && path !in old(visited) ==>
        visited == old(visited) + [path] && annotations == NodeAnnotations(node, config)
    {
      annotations := [];
      match node
      case Other =>
      case PolicyRes(statements) =>
        if path in visited {
          return;
        }
        visited := visited + [path];
        annotations := Report(statements);
      case RoleRes(policies) =>
        if path in visited {
          return;
        }
        visited := visited + [path];
        if policies.Some? {
          var ps := policies.value;
          for j := 0 to |ps|
            invariant visited == old(visited) + [path]
            invariant annotations == PoliciesAnnotations(ps[..j], config)
          {
            assert ps[..j + 1][..j] == ps[..j];
            var more := Report(ps[j]);
            annotations := annotations + more;
          }
          assert ps[..|ps|] == ps;
        }
    }
  }

  /** A second visit to the same policy or role node adds nothing and records nothing. */
  method RevisitIsSilent(checker: CdkRoleChecker, path: string, node: Node)
    returns (first: seq<Annotation>, second: seq<Annotation>)
    requires checker.Valid() && ValidNode(node) && !node.Other? && path !in checker.visited
    modifies checker
    ensures first == NodeAnnotations(node, checker.config) && second == []
    ensures checker.visited == old(checker.visited) + [path]
  {
    first := checker.Visit(path, node);
    second := checker.Visit(path, node);
  }
}
