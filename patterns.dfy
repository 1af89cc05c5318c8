/**
 * Action patterns of the role checker.  An IAM action is written
 * `service:operation`; a pattern is either such a name or a name cut short by
 * a single trailing `*`.  The checker hands these strings to a glob library;
 * this module replaces the library by trailing-star matching (`Matches`) and
 * proves that on the patterns admitted here the two agree with the general
 * "`*` stands for any run of characters" reading (`GlobMatch`).
 */
module Patterns {

  /** `s.endsWith("*")` */
  predicate EndsWithStar(s: string) {
    |s| > 0 && s[|s| - 1] == '*'
  }

  /** A wildcard without its trailing `*`: `s.substring(0, s.length - 1)`. */
  function Stem(p: string): string
    requires EndsWithStar(p)
  {
    p[..|p| - 1]
  }

  /** No `*` except, possibly, as the last character. */
  predicate StarOnlyAtEnd(p: string) {
    forall i :: 0 <= i < |p| - 1 ==> p[i] != '*'
  }

  /** No `*` at all: the name of one concrete action. */
  predicate Concrete(c: string) {
    forall i :: 0 <= i < |c| ==> c[i] != '*'
  }

  /**
   * Characters to which the glob library gives a meaning of its own (path
   * separators, `?`, classes, braces, extended-glob groups, escapes, negation,
   * comments) or which it trims away.  IAM action names use none of them.
   */
  predicate PlainChar(ch: char) {
    ch !in {'/', '?', '[', ']', '{', '}', '(', ')', '\\', '!', '#', ' ', '\t', '\n', '\r'}
  }

  predicate Plain(s: string) {
    forall i :: 0 <= i < |s| ==> PlainChar(s[i])
  }

  /**
   * A configured pattern on which the glob library does exactly trailing-star
   * matching, whichever side of the match it stands on: plain, at most one
   * `*` and only at the end, and not the bare `*` (whose stem is empty, so
   * that the library's rules against matching the empty string and
   * dot-names would come into play).  It is not empty and does not start
   * with `.` either: the library's `*` matches neither the empty string nor
   * a name starting with `.`, so these are the names on which `Matches(p, "*")`
   * would differ from `minimatch(p, "*")` when an action is the bare `*`.
   */
  predicate WellFormedPattern(p: string) {
    Plain(p) && StarOnlyAtEnd(p) && p != "*" && p != "" && p[0] != '.'
  }

  /** `minimatch(c, p)`: a prefix test for a wildcard, equality otherwise. */
  predicate Matches(c: string, p: string) {
    if EndsWithStar(p) then Stem(p) <= c else c == p
  }

  /** Reference semantics: each `*` of `p`, wherever it stands, matches any run of characters. */
  predicate GlobMatch(c: string, p: string)
    decreases |p|, |c|
  {
    if p == [] then c == []
    else if p[0] == '*' then GlobMatch(c, p[1..]) || (c != [] && GlobMatch(c[1..], p))
    else c != [] && c[0] == p[0] && GlobMatch(c[1..], p[1..])
  }

  /** A lone `*` matches every string. */
  lemma {:induction false} GlobStarMatchesAll(c: string)
    ensures GlobMatch(c, "*")
    decreases |c|
  {
    if c != [] {
      GlobStarMatchesAll(c[1..]);
    }
  }

  /** Trailing-star matching is the general wildcard semantics, restricted to patterns whose only `*` ends them. */
  lemma {:induction false} MatchesIsGlob(c: string, p: string)
    requires StarOnlyAtEnd(p)
    ensures Matches(c, p) == GlobMatch(c, p)
    decreases |p|
  {
    if p == [] {
    } else if p[0] == '*' {
      assert p == "*";
      GlobStarMatchesAll(c);
    } else {
      var q := p[1..];
      assert StarOnlyAtEnd(q);
      if c != [] {
        MatchesIsGlob(c[1..], q);
      }
      if EndsWithStar(p) {
        assert EndsWithStar(q) && Stem(p) == [p[0]] + Stem(q);
        if c != [] && c[0] == p[0] && Stem(q) <= c[1..] {
          assert c[..|Stem(p)|] == [c[0]] + c[1..][..|Stem(q)|];
        }
        if Stem(p) <= c {
          assert c != [] && c[0] == p[0];
          assert c[1..][..|Stem(q)|] == c[..|Stem(p)|][1..];
        }
      } else {
        assert !EndsWithStar(q);
        if c != [] && c[0] == p[0] && c[1..] == q {
          assert c == [c[0]] + c[1..];
        }
      }
    }
  }

  /**
   * The scope test for wildcard actions under an allow-list: the action
   * `inner`, cut before its `*`, matches the allowed wildcard `outer`.
   */
  predicate Covers(outer: string, inner: string) {
    EndsWithStar(outer) && EndsWithStar(inner) && Matches(Stem(inner), outer)
  }

  /** Every concrete action that `inner` grants is also granted by `outer`. */
  ghost predicate Subsumes(outer: string, inner: string) {
    forall c {:trigger Matches(c, inner)} :: Concrete(c) && Matches(c, inner) ==> Matches(c, outer)
  }

  /** The syntactic scope test is exact: it holds just when the inner wildcard grants nothing the outer one does not. */
  lemma CoversIffSubsumes(outer: string, inner: string)
    requires EndsWithStar(outer) && EndsWithStar(inner) && StarOnlyAtEnd(inner)
    ensures Covers(outer, inner) <==> Subsumes(outer, inner)
  {
    var s := Stem(inner);
    assert Concrete(s);
    assert Matches(s, inner);
    if Covers(outer, inner) {
      forall c | Concrete(c) && Matches(c, inner)
        ensures Matches(c, outer)
      {
        assert Stem(outer) <= s && s <= c;
      }
    }
  }

  /** A wildcard covers itself, so the literal `includes` test beside the scope test adds nothing. */
  lemma CoversItself(p: string)
    requires EndsWithStar(p)
    ensures Covers(p, p)
  {
  }

  /**
   * Some action name is granted both by `p` and by `q`.  An action name is
   * any name not ending in `*`: the glob library reads a `*` inside it as an
   * ordinary character, so `s3:Get*Object` names itself and nothing else.
   */
  ghost predicate Overlap(p: string, q: string) {
    exists c {:trigger Matches(c, p)} :: !EndsWithStar(c) && Matches(c, p) && Matches(c, q)
  }

  /** Two prefixes of one string are prefixes of one another. */
  lemma PrefixesComparable(x: string, y: string, c: string)
    requires x <= c && y <= c
    ensures x <= y || y <= x
  {
    if |x| <= |y| {
      assert y[..|x|] == c[..|x|];
    } else {
      assert x[..|y|] == c[..|y|];
    }
  }

  /** A concrete prefix of a wildcard is a prefix of its stem. */
  lemma ConcretePrefixOfStem(x: string, p: string)
    requires EndsWithStar(p) && Concrete(x) && x <= p
    ensures x <= Stem(p)
  {
  }

  /**
   * The deny-list test, which matches the action against the denied pattern
   * and, when the action is a wildcard, the denied pattern against the
   * action, holds exactly when the two grant a common action name.  The
   * action may have a `*` in the middle if it does not end in `*`.
   */
  lemma BidirectionalMatchIffOverlap(a: string, d: string)
    requires (EndsWithStar(a) ==> StarOnlyAtEnd(a)) && StarOnlyAtEnd(d)
    ensures (Matches(a, d) || (EndsWithStar(a) && Matches(d, a))) <==> Overlap(a, d)
  {
    if EndsWithStar(a) {
      var sa := Stem(a);
      assert Concrete(sa) && Matches(sa, a);
      if EndsWithStar(d) {
        var sd := Stem(d);
        assert Concrete(sd) && Matches(sd, d);
        if Matches(a, d) {
          ConcretePrefixOfStem(sd, a);
          assert Matches(sa, d);
        }
        if Matches(d, a) {
          ConcretePrefixOfStem(sa, d);
          assert Matches(sd, a);
        }
        if Overlap(a, d) {
          var c :| !EndsWithStar(c) && Matches(c, a) && Matches(c, d);
          PrefixesComparable(sa, sd, c);
          if sd <= sa {
            assert sd <= a;
          } else {
            assert sa <= d;
          }
        }
      } else {
        assert Concrete(d);
        if Matches(d, a) {
          assert Matches(d, d);
        }
      }
    } else {
      assert Matches(a, a);
      if Overlap(a, d) {
        var c :| !EndsWithStar(c) && Matches(c, a) && Matches(c, d);
        assert c == a;
      }
    }
  }

  /** A name with a `*` in the middle is matched literally, against a wildcard as against anything else. */
  lemma MidStarMatchedLiterally()
    ensures StarOnlyAtEnd("s3:Get*") && Matches("s3:Get*Object", "s3:Get*") && Overlap("s3:Get*Object", "s3:Get*")
  {
    assert Stem("s3:Get*") == "s3:Get" == "s3:Get*Object"[..6];
    assert Matches("s3:Get*Object", "s3:Get*Object");
  }
}
