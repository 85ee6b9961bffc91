/**
 * SQLite's `LIKE` operator as the import-log filter uses it: `%` matches any run of characters,
 * `_` exactly one, and every other character matches itself ignoring ASCII case (SQLite's default
 * `LIKE` folds only the letters A-Z). No `ESCAPE` clause is used, so `%` and `_` typed by the user
 * are wildcards too.
 */
module SqlLike {

  /** ASCII lower-casing, the only case folding SQLite's built-in `LIKE` performs. */
  function Fold(c: char): (d: char)
    ensures 'A' <= c <= 'Z' ==> 'a' <= d <= 'z' && d as int == c as int + 32
    ensures !('A' <= c <= 'Z') ==> d == c
  {
    if 'A' <= c <= 'Z' then (c as int + 32) as char else c
  }

  /** `s LIKE pat` */
  predicate Like(s: string, pat: string)
    decreases |s| + |pat|
  {
    if pat == [] then s == []
    else if pat[0] == '%' then Like(s, pat[1..]) || (s != [] && Like(s[1..], pat))
    else s != [] && (pat[0] == '_' || Fold(s[0]) == Fold(pat[0])) && Like(s[1..], pat[1..])
  }

  predicate Wildcard(c: char) { c == '%' || c == '_' }

  predicate Literal(p: string) {
    forall i :: 0 <= i < |p| ==> !Wildcard(p[i])
  }

  /** `a` and `b` are equal up to ASCII case. */
  predicate FoldEq(a: string, b: string) {
    |a| == |b| && forall i :: 0 <= i < |a| ==> Fold(a[i]) == Fold(b[i])
  }

  /** `p` occurs in `s` at position `k`, ignoring ASCII case. */
  predicate OccursAt(s: string, p: string, k: int) {
    0 <= k <= |s| - |p| && FoldEq(s[k..k + |p|], p)
  }

  /** `p` occurs in `s`, ignoring ASCII case. */
  ghost predicate ContainsFolded(s: string, p: string) {
    exists k :: OccursAt(s, p, k)
  }

  /** A lone `%` matches every text. */
  lemma {:induction false} PercentMatchesAll(s: string)
    ensures Like(s, "%")
  {
    if s != [] {
      PercentMatchesAll(s[1..]);
    }
  }

  /** A leading `%` lets the rest of the pattern start at any position. */
  lemma {:induction false} LeadingPercent(s: string, q: string)
    ensures Like(s, "%" + q) <==> exists k :: 0 <= k <= |s| && Like(s[k..], q)
  {
    var pat := "%" + q;
    assert pat[1..] == q;
    if s == [] {
      assert Like(s, pat) <==> Like(s, q);
      assert s[0..] == s;
    } else {
      LeadingPercent(s[1..], q);
      assert Like(s, pat) <==> Like(s, q) || Like(s[1..], pat);
      if Like(s, pat) {
        if Like(s, q) {
          assert s[0..] == s;
        } else {
          var k :| 0 <= k <= |s[1..]| && Like(s[1..][k..], q);
          assert s[1..][k..] == s[k + 1..];
        }
      }
      if k :| 0 <= k <= |s| && Like(s[k..], q) {
        if k == 0 {
          assert s[0..] == s;
        } else {
          assert s[1..][k - 1..] == s[k..];
        }
      }
    }
  }

  /** A literal followed by `%` matches exactly the texts that start with it, up to case. */
  lemma {:induction false} LiteralThenPercent(s: string, p: string)
    requires Literal(p)
    ensures Like(s, p + "%") <==> |p| <= |s| && FoldEq(s[..|p|], p)
  {
    if p == [] {
      assert p + "%" == "%";
      PercentMatchesAll(s);
    } else {
      var pat := p + "%";
      assert pat[0] == p[0] && pat[1..] == p[1..] + "%";
      assert !Wildcard(p[0]);
      assert Literal(p[1..]) by {
        forall i | 0 <= i < |p[1..]| ensures !Wildcard(p[1..][i]) {
          assert p[1..][i] == p[i + 1];
        }
      }
      if s == [] {
      } else {
        LiteralThenPercent(s[1..], p[1..]);
        assert Like(s, pat) <==> Fold(s[0]) == Fold(p[0]) && Like(s[1..], p[1..] + "%");
        if |p| <= |s| {
          var a := s[..|p|];
          assert a[1..] == s[1..][..|p| - 1];
          assert FoldEq(a, p) <==> Fold(a[0]) == Fold(p[0]) && FoldEq(a[1..], p[1..]) by {
            if Fold(a[0]) == Fold(p[0]) && FoldEq(a[1..], p[1..]) {
              forall i | 0 <= i < |a| ensures Fold(a[i]) == Fold(p[i]) {
                if i > 0 {
                  assert a[i] == a[1..][i - 1] && p[i] == p[1..][i - 1];
                }
              }
            }
            if FoldEq(a, p) {
              forall i | 0 <= i < |a[1..]| ensures Fold(a[1..][i]) == Fold(p[1..][i]) {
                assert a[1..][i] == a[i + 1] && p[1..][i] == p[i + 1];
              }
            }
          }
        }
      }
    }
  }

  /** The project-name filter `LIKE '%name%'` is a case-insensitive substring test when the
      name holds neither `%` nor `_`. */
  lemma ContainsLike(s: string, p: string)
    requires Literal(p)
    ensures Like(s, "%" + p + "%") <==> ContainsFolded(s, p)
  {
    assert "%" + p + "%" == "%" + (p + "%");
    LeadingPercent(s, p + "%");
    if Like(s, "%" + p + "%") {
      var k :| 0 <= k <= |s| && Like(s[k..], p + "%");
      LiteralThenPercent(s[k..], p);
      assert s[k..][..|p|] == s[k..k + |p|];
      assert OccursAt(s, p, k);
    }
    if ContainsFolded(s, p) {
      var k :| OccursAt(s, p, k);
      LiteralThenPercent(s[k..], p);
      assert s[k..][..|p|] == s[k..k + |p|];
    }
  }

  /** An underscore typed into the filter is a wildcard: `%_%` keeps every non-empty name. */
  lemma UnderscoreMatchesAnyName(s: string)
    ensures Like(s, "%_%") <==> s != []
  {
    LeadingPercent(s, "_%");
    if s != [] {
      assert "_%"[1..] == "%";
      PercentMatchesAll(s[1..]);
      assert s[0..] == s;
    }
  }
}
