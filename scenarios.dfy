/**
 * The cases of cdk-role-checker/test/cdk-role-checker.test.ts.  Each builds a
 * role with one inline policy holding one Allow statement, adds a checker to
 * it, and counts the Error annotations the traversal leaves behind.  Only the
 * role node itself carries a policy; its children are ignored by `Visit`.
 */
module Scenarios {
  import opened Patterns
  import opened Rules
  import opened Checker

  /** The number of Error annotations among `anns`, which is what the tests count. */
  function ErrorCount(anns: seq<Annotation>): nat {
    if anns == [] then 0
    else
      var last := anns[|anns| - 1];
      ErrorCount(anns[..|anns| - 1]) + (if last.Flag? && last.violation.severity == Error then 1 else 0)
  }

  /** The role of `summonTestRole`: one inline policy with one Allow statement over `actions`. */
  function TestRole(actions: seq<string>): Node {
    RoleRes(Some([[Statement(Allow, actions)]]))
  }

  const RolePath := "TestStack/example-iam-role"

  /** Error counts add up over concatenation. */
  lemma {:induction false} ErrorCountAppend(xs: seq<Annotation>, ys: seq<Annotation>)
    ensures ErrorCount(xs + ys) == ErrorCount(xs) + ErrorCount(ys)
    decreases |ys|
  {
    if ys == [] {
      assert xs + ys == xs;
    } else {
      var init := ys[..|ys| - 1];
      assert (xs + ys)[..|xs + ys| - 1] == xs + init;
      ErrorCountAppend(xs, init);
    }
  }

  /** Each flagged violation of severity Error is one Error annotation. */
  lemma {:induction false} ErrorCountFlags(vs: seq<Violation>)
    requires forall v {:trigger v in vs} :: v in vs ==> v.severity == Error
    ensures ErrorCount(Flags(vs)) == |vs|
    decreases |vs|
  {
    if vs != [] {
      var init := vs[..|vs| - 1];
      assert Flags(vs)[..|vs| - 1] == Flags(init);
      assert vs[|vs| - 1] in vs;
      assert forall v {:trigger v in init} :: v in init ==> v in vs;
      ErrorCountFlags(init);
    }
  }

  /**
   * On the test role the number of Error annotations is the count `check`
   * returns for its one statement: every violation `check` reports there is
   * an Error, and the Info notice is not one.
   */
  lemma TestRoleErrors(actions: seq<string>, cfg: Config)
    requires ValidStatement(Statement(Allow, actions)) && ValidConfig(cfg)
    ensures ValidNode(TestRole(actions))
    ensures ErrorCount(NodeAnnotations(TestRole(actions), cfg)) == |Violations(Statement(Allow, actions), cfg)|
  {
    var st := Statement(Allow, actions);
    var vs := Violations(st, cfg);
    var ps := [[st]];
    assert ps[..0] == [] && [st][..0] == [];
    assert StatementsAnnotations([st], cfg) == StatementAnnotations(st, cfg);
    assert PoliciesAnnotations(ps, cfg) == StatementsAnnotations([st], cfg);
    ErrorCountAppend(Flags(vs), if 0 < |vs| then [NotConforming] else []);
    ErrorCountFlags(vs);
    assert ErrorCount([NotConforming]) == 0 by {
      assert [NotConforming][..0] == [];
    }
  }

  /**
   * What a test expects: `check` reports exactly `vs` on the test role's
   * statement, and the traversal leaves `n` Error annotations.
   */
  ghost predicate Expect(actions: seq<string>, cfg: Config, vs: seq<Violation>, n: nat) {
    && ValidStatement(Statement(Allow, actions))
    && ValidConfig(cfg)
    && Violations(Statement(Allow, actions), cfg) == vs
    && ValidNode(TestRole(actions))
    && ErrorCount(NodeAnnotations(TestRole(actions), cfg)) == n
  }

  // The action names the tests use are plain, with `*` only at the end, and none is the bare `*`.

  lemma ValidTestTest()
    ensures ValidAction("test:test") && WellFormedPattern("test:test")
  {
  }

  lemma ValidTestStar()
    ensures ValidAction("test:*") && WellFormedPattern("test:*")
  {
  }

  lemma ValidTestGetLeftStar()
    ensures ValidAction("test:getLeft*") && WellFormedPattern("test:getLeft*")
  {
  }

  lemma ValidTestGetStar()
    ensures ValidAction("test:get*") && WellFormedPattern("test:get*")
  {
  }

  lemma ValidTestTStar()
    ensures ValidAction("test:t*") && WellFormedPattern("test:t*")
  {
  }

  lemma ValidTestGetBar()
    ensures ValidAction("test:getBar") && WellFormedPattern("test:getBar")
  {
  }

  lemma ValidTestOpen()
    ensures ValidAction("test:open") && WellFormedPattern("test:open")
  {
  }

  lemma ValidTestCheese()
    ensures ValidAction("test:cheese") && WellFormedPattern("test:cheese")
  {
  }

  lemma ValidTestGenerateStar()
    ensures ValidAction("test:generate*") && WellFormedPattern("test:generate*")
  {
  }

  /** Filtering one more element. */
  lemma FilterSnoc<T(!new)>(s: seq<T>, x: T, f: T -> bool)
    ensures Filter(s + [x], f) == Filter(s, f) + (if f(x) then [x] else [])
  {
    assert (s + [x])[..|s|] == s;
  }

  /** The actions a denied pattern hits, over one more action. */
  lemma DenyHitsSnoc(actions: seq<string>, a: string, denyCall: string)
    ensures DenyHits(actions + [a], denyCall) == DenyHits(actions, denyCall) + (if DenyHit(a, denyCall) then [a] else [])
  {
    assert (actions + [a])[..|actions|] == actions;
  }

  /** The allow-list pass over one more action. */
  lemma AllowPassSnoc(actions: seq<string>, a: string, allowed: seq<string>, ban: bool)
    ensures AllowPass(actions + [a], allowed, ban) == AllowPass(actions, allowed, ban) + AllowVerdict(a, allowed, ban)
  {
    assert (actions + [a])[..|actions|] == actions;
  }

  /** Once `check`'s result is known, the expectation on the traversal follows. */
  lemma ExpectFrom(actions: seq<string>, cfg: Config, vs: seq<Violation>)
    requires ValidStatement(Statement(Allow, actions)) && ValidConfig(cfg)
    requires Violations(Statement(Allow, actions), cfg) == vs
    ensures Expect(actions, cfg, vs, |vs|)
  {
    TestRoleErrors(actions, cfg);
  }

  /** Construct a checker from `props` and visit the test role with it. */
  method Synth(props: Props, actions: seq<string>) returns (anns: seq<Annotation>)
    requires ValidPatterns(props.allowList) && ValidPatterns(props.denyList)
    requires ValidNode(TestRole(actions))
    ensures anns == NodeAnnotations(TestRole(actions),
                                    Config(props.allowList, props.denyList, props.banWildcards == Some(true)))
  {
    var checker := new CdkRoleChecker(props);
    anns := checker.Visit(RolePath, TestRole(actions));
  }

  /** A test with only a deny-list of one pattern: `check` reports that pattern's verdict. */
  lemma ExpectDenied(actions: seq<string>, denyCall: string)
    requires ValidStatement(Statement(Allow, actions)) && WellFormedPattern(denyCall)
    ensures Expect(actions, Config(None, Some([denyCall]), false), DenyVerdict(denyCall, actions), |DenyVerdict(denyCall, actions)|)
  {
    var cfg := Config(None, Some([denyCall]), false);
    DenyListViolations(Statement(Allow, actions), cfg);
    assert [denyCall][..0] == [];
    assert DenyPass([denyCall], actions) == DenyVerdict(denyCall, actions);
    ExpectFrom(actions, cfg, DenyVerdict(denyCall, actions));
  }

  /** A test with only an allow-list: `check` reports the ban pass, then the allow-list pass. */
  lemma ExpectAllowed(actions: seq<string>, allowed: seq<string>, ban: bool)
    requires ValidStatement(Statement(Allow, actions)) && ValidPatterns(Some(allowed))
    ensures var vs := BanPass(actions, ban) + AllowPass(actions, allowed, ban);
      Expect(actions, Config(Some(allowed), None, ban), vs, |vs|)
  {
    var cfg := Config(Some(allowed), None, ban);
    AllowListViolations(Statement(Allow, actions), cfg);
    ExpectFrom(actions, cfg, BanPass(actions, ban) + AllowPass(actions, allowed, ban));
  }

  /** "AllowList with clean set": an allowed action draws nothing. */
  lemma AllowListWithCleanSet()
    ensures Expect(["test:test"], Config(Some(["test:test"]), None, false), [], 0)
  {
    assert ValidStatement(Statement(Allow, ["test:test"])) && ValidPatterns(Some(["test:test"])) by {
      ValidTestTest();
    }
    assert AllowPass(["test:test"], ["test:test"], false) == [] by {
      assert Matches("test:test", ["test:test"][0]);
      AllowPassSnoc([], "test:test", ["test:test"], false);
    }
    ExpectAllowed(["test:test"], ["test:test"], false);
  }

  /** "AllowList with wildcard": `test:*` clears `test:test`. */
  lemma AllowListWithWildcard()
    ensures Expect(["test:test"], Config(Some(["test:*"]), None, false), [], 0)
  {
    assert ValidStatement(Statement(Allow, ["test:test"])) && ValidPatterns(Some(["test:*"])) by {
      ValidTestTest(); ValidTestStar();
    }
    assert AllowPass(["test:test"], ["test:*"], false) == [] by {
      assert Stem("test:*") == "test:" == "test:test"[..5];
      assert Matches("test:test", ["test:*"][0]);
      AllowPassSnoc([], "test:test", ["test:*"], false);
    }
    ExpectAllowed(["test:test"], ["test:*"], false);
  }

  /** "AllowList but overscoped subset": `test:get*` reaches beyond `test:getLeft*`. */
  lemma AllowListOverscopedSubset()
    ensures Expect(["test:get*"], Config(Some(["test:getLeft*"]), None, false),
                   [Violation(WildcardScopeExceeded, Error, ["test:get*"])], 1)
  {
    assert ValidStatement(Statement(Allow, ["test:get*"])) && ValidPatterns(Some(["test:getLeft*"])) by {
      ValidTestGetLeftStar(); ValidTestGetStar();
    }
    assert AllowPass(["test:get*"], ["test:getLeft*"], false) == [Violation(WildcardScopeExceeded, Error, ["test:get*"])] by {
      FilterSnoc([], "test:getLeft*", EndsWithStar);
      assert !AnyMatch("test:get", ["test:getLeft*"]);
      AllowPassSnoc([], "test:get*", ["test:getLeft*"], false);
    }
    ExpectAllowed(["test:get*"], ["test:getLeft*"], false);
  }

  /** "Denylist with single item": the one action is the denied one. */
  lemma DenyListSingleItem()
    ensures Expect(["test:test"], Config(None, Some(["test:test"]), false),
                   [Violation(ActionDenied, Error, ["test:test"])], 1)
  {
    assert ValidStatement(Statement(Allow, ["test:test"])) && WellFormedPattern("test:test") by {
      ValidTestTest();
    }
    assert DenyHits(["test:test"], "test:test") == ["test:test"] by {
      DenyHitsSnoc([], "test:test", "test:test");
    }
    ExpectDenied(["test:test"], "test:test");
  }

  /** "Denylist is subset": one Error for the denied pattern, naming only the action it hits. */
  lemma DenyListIsSubset()
    ensures Expect(["test:test", "test:open", "test:cheese"], Config(None, Some(["test:test"]), false),
                   [Violation(ActionDenied, Error, ["test:test"])], 1)
  {
    var actions := ["test:test", "test:open", "test:cheese"];
    assert ValidStatement(Statement(Allow, actions)) && WellFormedPattern("test:test") by {
      ValidTestTest(); ValidTestOpen(); ValidTestCheese();
    }
    assert DenyHits(actions, "test:test") == ["test:test"] by {
      assert !DenyHit("test:open", "test:test") && !DenyHit("test:cheese", "test:test");
      DenyHitsSnoc([], "test:test", "test:test");
      assert [] + ["test:test"] == ["test:test"];
      DenyHitsSnoc(["test:test"], "test:open", "test:test");
      assert ["test:test"] + ["test:open"] == ["test:test", "test:open"];
      DenyHitsSnoc(["test:test", "test:open"], "test:cheese", "test:test");
      assert ["test:test", "test:open"] + ["test:cheese"] == actions;
    }
    ExpectDenied(actions, "test:test");
  }

  /** "Denylist with wildcard in role": the action `test:t*` grants the denied `test:test`. */
  lemma DenyListWildcardInRole()
    ensures Expect(["test:t*"], Config(None, Some(["test:test"]), false),
                   [Violation(ActionDenied, Error, ["test:t*"])], 1)
  {
    assert ValidStatement(Statement(Allow, ["test:t*"])) && WellFormedPattern("test:test") by {
      ValidTestTest(); ValidTestTStar();
    }
    assert DenyHits(["test:t*"], "test:test") == ["test:t*"] by {
      assert DenyHit("test:t*", "test:test");
      DenyHitsSnoc([], "test:t*", "test:test");
    }
    ExpectDenied(["test:t*"], "test:test");
  }

  /** "Denylist with wildcard in denied list": the denied `test:t*` matches `test:test`. */
  lemma DenyListWildcardInDenyList()
    ensures Expect(["test:test"], Config(None, Some(["test:t*"]), false),
                   [Violation(ActionDenied, Error, ["test:test"])], 1)
  {
    assert ValidStatement(Statement(Allow, ["test:test"])) && WellFormedPattern("test:t*") by {
      ValidTestTest(); ValidTestTStar();
    }
    assert DenyHits(["test:test"], "test:t*") == ["test:test"] by {
      assert DenyHit("test:test", "test:t*");
      DenyHitsSnoc([], "test:test", "test:t*");
    }
    ExpectDenied(["test:test"], "test:t*");
  }

  /** "DenyList but everything is OK": `test:getBar` hits nothing. */
  lemma DenyListEverythingOk()
    ensures Expect(["test:test"], Config(None, Some(["test:getBar"]), false), [], 0)
  {
    assert ValidStatement(Statement(Allow, ["test:test"])) && WellFormedPattern("test:getBar") by {
      ValidTestTest(); ValidTestGetBar();
    }
    assert DenyHits(["test:test"], "test:getBar") == [] by {
      assert !DenyHit("test:test", "test:getBar");
      DenyHitsSnoc([], "test:test", "test:getBar");
    }
    ExpectDenied(["test:test"], "test:getBar");
  }

  /** "DenyList with wildcard": the denied `test:*` matches `test:test`. */
  lemma DenyListWithWildcard()
    ensures Expect(["test:test"], Config(None, Some(["test:*"]), false),
                   [Violation(ActionDenied, Error, ["test:test"])], 1)
  {
    assert ValidStatement(Statement(Allow, ["test:test"])) && WellFormedPattern("test:*") by {
      ValidTestTest(); ValidTestStar();
    }
    assert DenyHits(["test:test"], "test:*") == ["test:test"] by {
      assert Stem("test:*") == "test:" == "test:test"[..5];
      assert DenyHit("test:test", "test:*");
      DenyHitsSnoc([], "test:test", "test:*");
    }
    ExpectDenied(["test:test"], "test:*");
  }

  /** "AllowList, clean, but with wildcards banned": no wildcard, nothing to report. */
  lemma AllowListCleanWildcardsBanned()
    ensures Expect(["test:test"], Config(Some(["test:test"]), None, true), [], 0)
  {
    assert ValidStatement(Statement(Allow, ["test:test"])) && ValidPatterns(Some(["test:test"])) by {
      ValidTestTest();
    }
    assert BanPass(["test:test"], true) == [] by {
      assert !EndsWithStar("test:test");
      FilterSnoc([], "test:test", EndsWithStar);
      assert [] + ["test:test"] == ["test:test"];
      assert Filter(["test:test"], EndsWithStar) == [];
    }
    assert AllowPass(["test:test"], ["test:test"], true) == [] by {
      assert Matches("test:test", ["test:test"][0]);
      AllowPassSnoc([], "test:test", ["test:test"], true);
    }
    ExpectAllowed(["test:test"], ["test:test"], true);
  }

  /** With bans on, the ban pass reports `test:generate*` and not `test:test`. */
  lemma BanPassGenerate()
    ensures BanPass(["test:test", "test:generate*"], true) == [Violation(WildcardBanned, Error, ["test:generate*"])]
  {
    FilterSnoc([], "test:test", EndsWithStar);
    assert [] + ["test:test"] == ["test:test"];
    FilterSnoc(["test:test"], "test:generate*", EndsWithStar);
    assert ["test:test"] + ["test:generate*"] == ["test:test", "test:generate*"];
    assert BanEach(["test:generate*"]) == [Violation(WildcardBanned, Error, ["test:generate*"])];
  }

  /** With bans on, allow-list `test:test` clears `test:test` and leaves `test:generate*` to the ban pass. */
  lemma AllowPassGenerate()
    ensures AllowPass(["test:test", "test:generate*"], ["test:test"], true) == []
  {
    assert Matches("test:test", ["test:test"][0]);
    AllowPassSnoc([], "test:test", ["test:test"], true);
    assert [] + ["test:test"] == ["test:test"];
    AllowPassSnoc(["test:test"], "test:generate*", ["test:test"], true);
    assert ["test:test"] + ["test:generate*"] == ["test:test", "test:generate*"];
  }

  /** "AllowList, but with wildcards banned.": `test:generate*` draws the ban Error and no scope Error. */
  lemma AllowListWildcardsBanned()
    ensures Expect(["test:test", "test:generate*"], Config(Some(["test:test"]), None, true),
                   [Violation(WildcardBanned, Error, ["test:generate*"])], 1)
  {
    var actions := ["test:test", "test:generate*"];
    assert ValidStatement(Statement(Allow, actions)) && ValidPatterns(Some(["test:test"])) by {
      ValidTestTest(); ValidTestGenerateStar();
    }
    BanPassGenerate();
    AllowPassGenerate();
    ExpectAllowed(actions, ["test:test"], true);
  }
}
