/**
 * The rule engine: one IAM policy statement checked against the checker's
 * configuration.  `Violations` is the list of annotations `check` emits for
 * a statement, in emission order; the number `check` returns is its length.
 */
module Rules {
  import opened Patterns

  datatype Option<T> = None | Some(value: T)

  datatype Effect = Allow | Deny

  /** A policy statement as far as the checker reads it: its effect and its actions. */
  datatype Statement = Statement(effect: Effect, actions: seq<string>)

  /** The checker's private fields: `allowedCalls`, `deniedCalls` and `banWildcardCalls`. */
  datatype Config = Config(allowList: Option<seq<string>>, denyList: Option<seq<string>>, banWildcards: bool)

  datatype Severity = Info | Warning | Error

  datatype Kind = WildcardBanned | MalformedWildcard | ActionNotAllowed | WildcardScopeExceeded | ActionDenied

  /** One Error or Warning annotation: what it reports, how severely, and the actions it names. */
  datatype Violation = Violation(kind: Kind, severity: Severity, actions: seq<string>)

  /**
   * An action on which the glob library behaves as `Matches` does, whether it
   * is matched or matched against: plain, and a wildcard has its only `*` at
   * the end.  The bare `*` is one; a `*` in the middle of an action that
   * does not end in `*` is an ordinary character to both.
   */
  predicate ValidAction(a: string) {
    Plain(a) && (EndsWithStar(a) ==> StarOnlyAtEnd(a))
  }

  /** The actions of a Deny statement are never read, so any Deny statement is valid. */
  predicate ValidStatement(st: Statement) {
    st.effect == Allow ==> forall i :: 0 <= i < |st.actions| ==> ValidAction(st.actions[i])
  }

  predicate ValidPatterns(list: Option<seq<string>>) {
    list.Some? ==> forall i :: 0 <= i < |list.value| ==> WellFormedPattern(list.value[i])
  }

  predicate ValidConfig(cfg: Config) {
    ValidPatterns(cfg.allowList) && ValidPatterns(cfg.denyList)
  }

  /** `Array.prototype.filter`: the elements satisfying `f`, in order. */
  function Filter<T(==, !new)>(s: seq<T>, f: T -> bool): (r: seq<T>)
    ensures forall x {:trigger multiset(r)[x]} :: multiset(r)[x] == if f(x) then multiset(s)[x] else 0
    ensures forall x {:trigger x in r} :: x in r <==> x in s && f(x)
    ensures |r| <= |s|
  {
    if s == [] then []
    else
      var init, last := s[..|s| - 1], s[|s| - 1];
      assert s == init + [last];
      Filter(init, f) + (if f(last) then [last] else [])
  }

  /** Filtering keeps the input order: it distributes over concatenation. */
  lemma {:induction false} FilterAppend<T(!new)>(s: seq<T>, t: seq<T>, f: T -> bool)
    ensures Filter(s + t, f) == Filter(s, f) + Filter(t, f)
    decreases |t|
  {
    if t == [] {
      assert s + t == s;
    } else {
      var init, last := t[..|t| - 1], t[|t| - 1];
      assert (s + t)[..|s + t| - 1] == s + init;
      FilterAppend(s, init, f);
    }
  }

  /** All the actions the violations name, in order. */
  function Subjects(vs: seq<Violation>): seq<string> {
    if vs == [] then [] else Subjects(vs[..|vs| - 1]) + vs[|vs| - 1].actions
  }

  lemma {:induction false} SubjectsAppend(xs: seq<Violation>, ys: seq<Violation>)
    ensures Subjects(xs + ys) == Subjects(xs) + Subjects(ys)
    decreases |ys|
  {
    if ys != [] {
      var init := ys[..|ys| - 1];
      assert (xs + ys)[..|xs + ys| - 1] == xs + init;
      SubjectsAppend(xs, init);
    } else {
      assert xs + ys == xs;
    }
  }

  // ---- Wildcard-ban pass (index.ts lines 103-110) ----

  /** One "Wildcard used" Error per element of `wildcards`, in order. */
  function BanEach(wildcards: seq<string>): (r: seq<Violation>)
    ensures forall v {:trigger v in r} :: v in r ==> v.kind == WildcardBanned && v.severity == Error && |v.actions| == 1
    ensures Subjects(r) == wildcards
  {
    if wildcards == [] then []
    else
      var init := wildcards[..|wildcards| - 1];
      var r := BanEach(init) + [Violation(WildcardBanned, Error, [wildcards[|wildcards| - 1]])];
      assert r[..|r| - 1] == BanEach(init);
      assert wildcards == init + [wildcards[|wildcards| - 1]];
      r
  }

  /** The wildcard-ban pass: with bans on, the Errors for `actions.filter(s => s.endsWith("*"))`. */
  function BanPass(actions: seq<string>, ban: bool): (r: seq<Violation>)
    ensures forall v {:trigger v in r} :: v in r ==> v.kind == WildcardBanned && v.severity == Error && |v.actions| == 1
    ensures forall a {:trigger multiset(Subjects(r))[a]} :: multiset(Subjects(r))[a] == if ban && EndsWithStar(a) then multiset(actions)[a] else 0
  {
    if ban then BanEach(Filter(actions, EndsWithStar)) else []
  }

  /** Without a trailing-star action the ban pass reports nothing, bans or not. */
  lemma NoWildcardNoBanError(actions: seq<string>, ban: bool)
    requires forall i :: 0 <= i < |actions| ==> !EndsWithStar(actions[i])
    ensures BanPass(actions, ban) == []
  {
    var w := Filter(actions, EndsWithStar);
    forall x
      ensures multiset(w)[x] == 0
    {
      if EndsWithStar(x) {
        assert x !in actions;
      }
    }
    assert multiset(w) == multiset{};
  }

  // ---- Malformed-wildcard pass (index.ts lines 115-118) ----

  /**
   * What the arrow function passed to `some` on line 115 returns: its braced
   * body evaluates the comparison as a statement and has no `return`, so
   * every call yields `undefined` (None).
   */
  function MalformedCallback(a: string): Option<bool> {
    None
  }

  /** How `some` reads a callback result: only `true` counts. */
  predicate Truthy(v: Option<bool>) {
    v == Some(true)
  }

  /** The malformed-wildcard pass as written: one Warning when the callback is truthy for some action. */
  function MalformedPass(actions: seq<string>): seq<Violation> {
    if exists i :: 0 <= i < |actions| && Truthy(MalformedCallback(actions[i]))
    then [Violation(MalformedWildcard, Warning, [])]
    else []
  }

  /** The shape the pass was meant to flag: a `*` that is not the last character. */
  predicate MidStar(a: string) {
    (exists i :: 0 <= i < |a| && a[i] == '*') && !EndsWithStar(a)
  }

  /** The pass never fires. */
  lemma MalformedPassNeverFires(actions: seq<string>)
    ensures MalformedPass(actions) == []
  {
  }

  /** Not even for an action with a `*` in the middle, which is what the pass was meant to flag. */
  lemma MalformedPassMissesMidStar()
    ensures MidStar("s3:Get*Object") && MalformedPass(["s3:Get*Object"]) == []
  {
    assert "s3:Get*Object"[6] == '*';
  }

  // ---- Allow-list pass (index.ts lines 120-139) ----

  /** `allowed.some(x => minimatch(c, x))` */
  predicate AnyMatch(c: string, allowed: seq<string>) {
    exists i :: 0 <= i < |allowed| && Matches(c, allowed[i])
  }

  /** The allow-list verdict on one action `checkCall`: no annotation, or one Error. */
  function AllowVerdict(checkCall: string, allowed: seq<string>, ban: bool): seq<Violation> {
    if !EndsWithStar(checkCall) && !AnyMatch(checkCall, allowed) then
      [Violation(ActionNotAllowed, Error, [checkCall])]
    else if EndsWithStar(checkCall) && !ban then
      var possibleSuperset := Filter(allowed, EndsWithStar);
      var trimmed := Stem(checkCall);
      if checkCall !in possibleSuperset && !AnyMatch(trimmed, possibleSuperset) then
        [Violation(WildcardScopeExceeded, Error, [checkCall])]
      else []
    else []
  }

  /**
   * When the allow-list lets an action through: a concrete action must be
   * matched by some entry; a wildcard, unless the ban pass has already
   * reported it, must be subsumed by some wildcard entry.
   */
  ghost predicate AllowListClears(a: string, allowed: seq<string>, ban: bool) {
    if EndsWithStar(a) then ban || exists x {:trigger x in allowed} :: x in allowed && EndsWithStar(x) && Subsumes(x, a)
    else exists x {:trigger x in allowed} :: x in allowed && Matches(a, x)
  }

  /** The kind of Error the allow-list pass raises against `a`. */
  function AllowKind(a: string): Kind {
    if EndsWithStar(a) then WildcardScopeExceeded else ActionNotAllowed
  }

  /** The verdict on one action is an Error exactly when the allow-list does not clear it. */
  lemma AllowVerdictMeaning(a: string, allowed: seq<string>, ban: bool)
    requires ValidAction(a)
    ensures AllowVerdict(a, allowed, ban) ==
      if AllowListClears(a, allowed, ban) then [] else [Violation(AllowKind(a), Error, [a])]
  {
    if EndsWithStar(a) && !ban {
      var sup := Filter(allowed, EndsWithStar);
      var covered := a in sup || AnyMatch(Stem(a), sup);
      if covered {
        var x := if a in sup then a else var i :| 0 <= i < |sup| && Matches(Stem(a), sup[i]); sup[i];
        assert x in sup && Covers(x, a);
        CoversIffSubsumes(x, a);
      } else {
        forall x | x in allowed && EndsWithStar(x)
          ensures !Subsumes(x, a)
        {
          assert x in sup;
          CoversIffSubsumes(x, a);
        }
      }
    } else if !EndsWithStar(a) {
      if exists x :: x in allowed && Matches(a, x) {
        var x :| x in allowed && Matches(a, x);
        var i :| 0 <= i < |allowed| && allowed[i] == x;
      }
    }
  }

  /** The allow-list pass: the verdicts on the actions, in order. */
  function AllowPass(actions: seq<string>, allowed: seq<string>, ban: bool): (r: seq<Violation>)
    ensures |r| <= |actions|
    ensures forall v {:trigger v in r} :: v in r ==>
      v.severity == Error && |v.actions| == 1 && v.actions[0] in actions && v.kind == AllowKind(v.actions[0])
    ensures ban ==> forall v {:trigger v in r} :: v in r ==> !EndsWithStar(v.actions[0])
  {
    if actions == [] then []
    else
      var init := actions[..|actions| - 1];
      assert actions == init + [actions[|actions| - 1]];
      AllowPass(init, allowed, ban) + AllowVerdict(actions[|actions| - 1], allowed, ban)
  }

  /** An action draws an allow-list Error exactly when the allow-list does not clear it. */
  lemma {:induction false} AllowPassRejects(actions: seq<string>, allowed: seq<string>, ban: bool)
    requires forall i :: 0 <= i < |actions| ==> ValidAction(actions[i])
    ensures forall a {:trigger a in actions} :: a in actions ==>
      ((exists v {:trigger v in AllowPass(actions, allowed, ban)} :: v in AllowPass(actions, allowed, ban) && v.actions == [a]) <==> !AllowListClears(a, allowed, ban))
  {
    if actions != [] {
      var init, last := actions[..|actions| - 1], actions[|actions| - 1];
      assert actions == init + [last];
      AllowPassRejects(init, allowed, ban);
      AllowVerdictMeaning(last, allowed, ban);
      var p, w := AllowPass(init, allowed, ban), AllowVerdict(last, allowed, ban);
      assert AllowPass(actions, allowed, ban) == p + w;
      forall a | a in actions
        ensures (exists v: Violation {:trigger v in p + w} :: v in p + w && v.actions == [a]) <==> !AllowListClears(a, allowed, ban)
      {
        if a == last && !AllowListClears(a, allowed, ban) {
          assert w[0] in p + w && w[0].actions == [a];
        }
        if a in init && !AllowListClears(a, allowed, ban) {
          var v: Violation :| v in p && v.actions == [a];
          assert v in p + w;
        }
        if exists v: Violation {:trigger v in p + w} :: v in p + w && v.actions == [a] {
          var v: Violation :| v in p + w && v.actions == [a];
          if v in p {
            assert a in init;
          } else {
            assert a == last;
          }
        }
      }
    }
  }

  /** The verdict on one action names that action when it is an Error, and nothing for a wildcard when wildcards are banned. */
  lemma AllowVerdictSubjects(a: string, allowed: seq<string>, ban: bool)
    ensures Subjects(AllowVerdict(a, allowed, ban)) == if AllowVerdict(a, allowed, ban) == [] then [] else [a]
    ensures ban && EndsWithStar(a) ==> AllowVerdict(a, allowed, ban) == []
  {
    var w := AllowVerdict(a, allowed, ban);
    if w != [] {
      assert w[..0] == [];
    }
  }

  /** The counting step of `AllowPassCount`, apart from the pass itself. */
  lemma SubjectsSnocCount(sp: seq<string>, sw: seq<string>, init: seq<string>, last: string, allowed: seq<string>, ban: bool)
    requires forall a {:trigger multiset(sp)[a]} :: multiset(sp)[a] == if AllowVerdict(a, allowed, ban) == [] then 0 else multiset(init)[a]
    requires sw == if AllowVerdict(last, allowed, ban) == [] then [] else [last]
    ensures forall a {:trigger multiset(sp + sw)[a]} ::
      multiset(sp + sw)[a] == if AllowVerdict(a, allowed, ban) == [] then 0 else multiset(init + [last])[a]
  {
    assert multiset(init + [last]) == multiset(init) + multiset{last};
    forall a
      ensures multiset(sp + sw)[a] == if AllowVerdict(a, allowed, ban) == [] then 0 else multiset(init + [last])[a]
    {
      assert multiset(sp + sw) == multiset(sp) + multiset(sw);
    }
  }

  /** The allow-list pass names every occurrence of an action whose verdict is an Error, once, and nothing else. */
  lemma {:induction false} AllowPassCount(actions: seq<string>, allowed: seq<string>, ban: bool)
    ensures forall a {:trigger multiset(Subjects(AllowPass(actions, allowed, ban)))[a]} ::
      multiset(Subjects(AllowPass(actions, allowed, ban)))[a] ==
      if AllowVerdict(a, allowed, ban) == [] then 0 else multiset(actions)[a]
  {
    if actions != [] {
      var init, last := actions[..|actions| - 1], actions[|actions| - 1];
      assert actions == init + [last];
      AllowPassCount(init, allowed, ban);
      var p, w := AllowPass(init, allowed, ban), AllowVerdict(last, allowed, ban);
      SubjectsAppend(p, w);
      AllowVerdictSubjects(last, allowed, ban);
      assert AllowPass(actions, allowed, ban) == p + w;
      SubjectsSnocCount(Subjects(p), Subjects(w), init, last, allowed, ban);
    }
  }

  /**
   * Each occurrence of an action the allow-list does not clear is named by
   * exactly one allow-list Error; an action it clears is named by none.
   */
  lemma AllowPassNamesEachUnclearedOccurrence(actions: seq<string>, allowed: seq<string>, ban: bool)
    ensures forall a {:trigger multiset(Subjects(AllowPass(actions, allowed, ban)))[a]} :: ValidAction(a) ==>
      multiset(Subjects(AllowPass(actions, allowed, ban)))[a] ==
      if AllowListClears(a, allowed, ban) then 0 else multiset(actions)[a]
  {
    AllowPassCount(actions, allowed, ban);
    forall a | ValidAction(a)
      ensures AllowVerdict(a, allowed, ban) == [] <==> AllowListClears(a, allowed, ban)
    {
      AllowVerdictMeaning(a, allowed, ban);
    }
  }

  // ---- Deny-list pass (index.ts lines 140-149) ----

  /** The test of line 144: the denied pattern matches the action, or the action is a wildcard matching the denied pattern. */
  predicate DenyHit(a: string, denyCall: string) {
    Matches(a, denyCall) || (EndsWithStar(a) && Matches(denyCall, a))
  }

  /** `maybeBanned`: the actions the denied pattern hits, in order. */
  function DenyHits(actions: seq<string>, denyCall: string): seq<string> {
    Filter(actions, a => DenyHit(a, denyCall))
  }

  /** The denied patterns that hit at least one action. */
  function FiringPatterns(denied: seq<string>, actions: seq<string>): seq<string> {
    Filter(denied, d => DenyHits(actions, d) != [])
  }

  /** The deny-list verdict on one denied pattern: one Error listing every action it hits, if any. */
  function DenyVerdict(denyCall: string, actions: seq<string>): seq<Violation> {
    var maybeBanned := DenyHits(actions, denyCall);
    if |maybeBanned| > 0 then [Violation(ActionDenied, Error, maybeBanned)] else []
  }

  /** The deny-list pass: the verdicts on the denied patterns, in order. */
  function DenyPass(denied: seq<string>, actions: seq<string>): (r: seq<Violation>)
    ensures |r| <= |denied|
    ensures forall v {:trigger v in r} :: v in r ==> v.kind == ActionDenied && v.severity == Error && v.actions != []
  {
    if denied == [] then []
    else
      var init := denied[..|denied| - 1];
      DenyPass(init, actions) + DenyVerdict(denied[|denied| - 1], actions)
  }

  /** Each denied pattern contributes one Error if it hits some action and none otherwise. */
  lemma {:induction false} DenyPassOnePerFiringPattern(denied: seq<string>, actions: seq<string>)
    ensures |DenyPass(denied, actions)| == |FiringPatterns(denied, actions)|
  {
    if denied != [] {
      var init, last := denied[..|denied| - 1], denied[|denied| - 1];
      assert denied == init + [last];
      DenyPassOnePerFiringPattern(init, actions);
    }
  }

  /** Every deny Error lists exactly the actions that one denied pattern hits. */
  lemma {:induction false} DenyPassReportsHits(denied: seq<string>, actions: seq<string>)
    ensures forall v {:trigger v in DenyPass(denied, actions)} :: v in DenyPass(denied, actions) ==>
      exists i :: 0 <= i < |denied| && v.actions == DenyHits(actions, denied[i])
  {
    if denied != [] {
      var init, last := denied[..|denied| - 1], denied[|denied| - 1];
      DenyPassReportsHits(init, actions);
      var p, w := DenyPass(init, actions), DenyVerdict(last, actions);
      assert DenyPass(denied, actions) == p + w;
      forall v: Violation {:trigger v in p + w} | v in p + w
        ensures exists i :: 0 <= i < |denied| && v.actions == DenyHits(actions, denied[i])
      {
        if v in p {
          var i :| 0 <= i < |init| && v.actions == DenyHits(actions, init[i]);
          assert denied[i] == init[i];
        } else {
          assert v.actions == DenyHits(actions, denied[|denied| - 1]);
        }
      }
    }
  }

  /** Every denied pattern that hits some action has its Error. */
  lemma {:induction false} DenyPassReportsEveryFiringPattern(denied: seq<string>, actions: seq<string>)
    ensures forall i :: 0 <= i < |denied| && DenyHits(actions, denied[i]) != [] ==>
      Violation(ActionDenied, Error, DenyHits(actions, denied[i])) in DenyPass(denied, actions)
  {
    if denied != [] {
      var init, last := denied[..|denied| - 1], denied[|denied| - 1];
      DenyPassReportsEveryFiringPattern(init, actions);
      var p, w := DenyPass(init, actions), DenyVerdict(last, actions);
      assert DenyPass(denied, actions) == p + w;
      forall i | 0 <= i < |denied| && DenyHits(actions, denied[i]) != []
        ensures Violation(ActionDenied, Error, DenyHits(actions, denied[i])) in p + w
      {
        if i < |init| {
          assert denied[i] == init[i];
        } else {
          var h := DenyHits(actions, last);
          assert i == |denied| - 1;
          assert w == [Violation(ActionDenied, Error, h)];
        }
      }
    }
  }

  // ---- The whole check (index.ts lines 93-153) ----

  /** The list pass: the allow-list when one is configured (even an empty one), else the deny-list, else nothing. */
  function ListPass(actions: seq<string>, cfg: Config): seq<Violation> {
    if cfg.allowList.Some? then AllowPass(actions, cfg.allowList.value, cfg.banWildcards)
    else if cfg.denyList.Some? then DenyPass(cfg.denyList.value, actions)
    else []
  }

  /** Every annotation `check` emits for the statement, in order; its length is the count `check` returns. */
  function Violations(st: Statement, cfg: Config): (r: seq<Violation>)
    requires ValidStatement(st) && ValidConfig(cfg)
    ensures st.effect == Deny ==> r == []
    ensures forall v {:trigger v in r} :: v in r ==> v.severity == Error
  {
    if st.effect == Deny then []
    else BanPass(st.actions, cfg.banWildcards) + MalformedPass(st.actions) + ListPass(st.actions, cfg)
  }

  /** With an allow-list configured, the deny-list is never consulted. */
  lemma AllowListShadowsDenyList(st: Statement, cfg: Config, otherDenied: Option<seq<string>>)
    requires ValidStatement(st) && ValidConfig(cfg) && ValidPatterns(otherDenied)
    requires cfg.allowList.Some?
    ensures Violations(st, cfg) == Violations(st, cfg.(denyList := otherDenied))
  {
  }

  /** Under an allow-list, a statement that is not a Deny draws the ban pass followed by the allow-list pass. */
  lemma AllowListViolations(st: Statement, cfg: Config)
    requires ValidStatement(st) && ValidConfig(cfg) && cfg.allowList.Some? && st.effect == Allow
    ensures Violations(st, cfg) ==
      BanPass(st.actions, cfg.banWildcards) + AllowPass(st.actions, cfg.allowList.value, cfg.banWildcards)
  {
    assert MalformedPass(st.actions) == [];
    assert BanPass(st.actions, cfg.banWildcards) + [] == BanPass(st.actions, cfg.banWildcards);
  }

  /** Without an allow-list but with a deny-list, a statement that is not a Deny draws the ban pass followed by the deny-list pass. */
  lemma DenyListViolations(st: Statement, cfg: Config)
    requires ValidStatement(st) && ValidConfig(cfg) && cfg.allowList.None? && cfg.denyList.Some? && st.effect == Allow
    ensures Violations(st, cfg) ==
      BanPass(st.actions, cfg.banWildcards) + DenyPass(cfg.denyList.value, st.actions)
  {
    assert MalformedPass(st.actions) == [];
    assert BanPass(st.actions, cfg.banWildcards) + [] == BanPass(st.actions, cfg.banWildcards);
  }

  /** Under an allow-list every annotation names one action, and with bans on a wildcard draws only the ban Error. */
  lemma AllowListNamesOneAction(st: Statement, cfg: Config)
    requires ValidStatement(st) && ValidConfig(cfg) && cfg.allowList.Some?
    ensures forall v {:trigger v in Violations(st, cfg)} :: v in Violations(st, cfg) ==> |v.actions| == 1
    ensures forall v {:trigger v in Violations(st, cfg)} :: v in Violations(st, cfg) && cfg.banWildcards && EndsWithStar(v.actions[0]) ==>
      v.kind == WildcardBanned
  {
    if st.effect == Allow {
      AllowListViolations(st, cfg);
    }
  }

  /**
   * What the allow-list flags: a wildcard the ban pass reports, or an action
   * the allow-list does not clear.  The two exclude each other, since with
   * bans on the allow-list pass leaves wildcards alone.
   */
  ghost predicate AllowListFlags(a: string, cfg: Config)
    requires cfg.allowList.Some?
  {
    (cfg.banWildcards && EndsWithStar(a)) || !AllowListClears(a, cfg.allowList.value, cfg.banWildcards)
  }

  /**
   * Under an allow-list, each occurrence of a flagged action in a statement
   * that is not a Deny is named by exactly one annotation, and no other
   * action is named at all.
   */
  lemma AllowListNamesEachFlaggedOccurrence(st: Statement, cfg: Config)
    requires ValidStatement(st) && ValidConfig(cfg) && cfg.allowList.Some?
    ensures forall a {:trigger multiset(Subjects(Violations(st, cfg)))[a]} :: ValidAction(a) ==>
      multiset(Subjects(Violations(st, cfg)))[a] ==
      if st.effect == Allow && AllowListFlags(a, cfg) then multiset(st.actions)[a] else 0
  {
    if st.effect == Allow {
      var acts, allowed, ban := st.actions, cfg.allowList.value, cfg.banWildcards;
      var b, p := BanPass(acts, ban), AllowPass(acts, allowed, ban);
      AllowListViolations(st, cfg);
      SubjectsAppend(b, p);
      AllowPassNamesEachUnclearedOccurrence(acts, allowed, ban);
      forall a | ValidAction(a)
        ensures multiset(Subjects(b + p))[a] == if AllowListFlags(a, cfg) then multiset(acts)[a] else 0
      {
        assert multiset(Subjects(b + p))[a] == multiset(Subjects(b))[a] + multiset(Subjects(p))[a];
      }
    }
  }

}
