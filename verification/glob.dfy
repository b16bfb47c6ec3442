/** The reference meaning of the installer's hardware-ID patterns: a
    case-insensitive glob in which `*` stands for any (possibly empty)
    substring. The installer's matcher (module IdMatch) is proved against
    this definition. Case folding is the C-locale one: only the ASCII
    letters have a second case. */
module Glob {

  const Wild: char := '*'

  /** `_istalpha` in the C locale. */
  predicate IsAlpha(c: char) {
    ('A' <= c <= 'Z') || ('a' <= c <= 'z')
  }

  /** `_totupper` in the C locale. */
  function ToUpper(c: char): char {
    if 'a' <= c <= 'z' then (c as int - 32) as char else c
  }

  /** `_totlower` in the C locale. */
  function ToLower(c: char): char {
    if 'A' <= c <= 'Z' then (c as int + 32) as char else c
  }

  /** Two characters compare equal under `_tcsicmp`. */
  predicate EqI(a: char, b: char) {
    ToLower(a) == ToLower(b)
  }

  /** Two strings are equal ignoring case. */
  predicate SameI(a: string, b: string) {
    |a| == |b| && forall i :: 0 <= i < |a| ==> EqI(a[i], b[i])
  }

  /** `s` matches the pattern `p`: `*` matches any substring, every other
      character matches itself ignoring case. */
  predicate GlobMatch(s: string, p: string)
    decreases |s| + |p|
  {
    if |p| == 0 then |s| == 0
    else if p[0] == Wild then GlobMatch(s, p[1..]) || (|s| > 0 && GlobMatch(s[1..], p))
    else |s| > 0 && EqI(s[0], p[0]) && GlobMatch(s[1..], p[1..])
  }

  /** Some suffix of `s` matches `p`; that is, `s` matches `*` followed by `p`. */
  ghost predicate Anywhere(s: string, p: string) {
    exists k :: 0 <= k <= |s| && GlobMatch(s[k..], p)
  }

  /** The characters an alphabetic scan looks for (its upper- and lower-case
      forms) are exactly those equal to it ignoring case; a non-alphabetic
      character is only equal to itself. */
  lemma FoldClass(c: char, x: char)
    ensures EqI(x, c) <==> (if IsAlpha(c) then x == ToUpper(c) || x == ToLower(c) else x == c)
  {
  }

  lemma SameICons(a: string, b: string)
    requires |a| > 0 && |b| > 0
    ensures SameI(a, b) <==> EqI(a[0], b[0]) && SameI(a[1..], b[1..])
  {
    if EqI(a[0], b[0]) && SameI(a[1..], b[1..]) {
      forall i | 0 <= i < |a| ensures EqI(a[i], b[i]) {
        if i > 0 {
          assert a[i] == a[1..][i - 1] && b[i] == b[1..][i - 1];
        }
      }
    }
    if SameI(a, b) {
      forall i | 0 <= i < |a| - 1 ensures EqI(a[1..][i], b[1..][i]) {
        assert a[1..][i] == a[i + 1] && b[1..][i] == b[i + 1];
      }
    }
  }

  /** `*` followed by `p` matches `s` exactly when some suffix of `s` matches `p`. */
  lemma {:induction false} StarAnywhere(s: string, p: string)
    ensures GlobMatch(s, [Wild] + p) <==> Anywhere(s, p)
    decreases |s|
  {
    var sp := [Wild] + p;
    assert sp[1..] == p;
    assert s[0..] == s;
    if |s| > 0 {
      StarAnywhere(s[1..], p);
      if Anywhere(s, p) {
        var k :| 0 <= k <= |s| && GlobMatch(s[k..], p);
        if k > 0 {
          assert s[1..][k - 1..] == s[k..];
        }
      }
      if Anywhere(s[1..], p) {
        var k :| 0 <= k <= |s[1..]| && GlobMatch(s[1..][k..], p);
        assert s[1..][k..] == s[k + 1..];
      }
    } else {
      if Anywhere(s, p) {
        var k :| 0 <= k <= |s| && GlobMatch(s[k..], p);
        assert s[k..] == s;
      }
    }
  }

  /** A run of stars means the same as a single star. */
  lemma AnywhereStar(s: string, p: string)
    ensures Anywhere(s, [Wild] + p) <==> Anywhere(s, p)
  {
    if Anywhere(s, p) {
      var k :| 0 <= k <= |s| && GlobMatch(s[k..], p);
      assert s[k..][0..] == s[k..];
      StarAnywhere(s[k..], p);
    }
    if Anywhere(s, [Wild] + p) {
      var k :| 0 <= k <= |s| && GlobMatch(s[k..], [Wild] + p);
      StarAnywhere(s[k..], p);
      var j :| 0 <= j <= |s[k..]| && GlobMatch(s[k..][j..], p);
      assert s[k..][j..] == s[k + j..];
    }
  }

  /** A star-free segment followed by `q` matches `t` exactly when `t` starts
      with the segment (ignoring case) and the rest of `t` matches `q`. */
  lemma {:induction false} LiteralThen(t: string, seg: string, q: string)
    requires Wild !in seg
    ensures GlobMatch(t, seg + q) <==>
              |t| >= |seg| && SameI(t[..|seg|], seg) && GlobMatch(t[|seg|..], q)
    decreases |seg|
  {
    if |seg| == 0 {
      assert seg + q == q;
      assert t[..0] == [];
      assert t[0..] == t;
    } else {
      var p := seg + q;
      assert p[0] == seg[0];
      assert p[0] != Wild;
      assert p[1..] == seg[1..] + q;
      assert Wild !in seg[1..] by {
        forall i | 0 <= i < |seg[1..]| ensures seg[1..][i] != Wild {
          assert seg[1..][i] == seg[i + 1];
        }
      }
      if |t| > 0 {
        LiteralThen(t[1..], seg[1..], q);
        if |t| >= |seg| {
          assert t[1..][..|seg| - 1] == t[..|seg|][1..];
          assert t[1..][|seg| - 1..] == t[|seg|..];
          SameICons(t[..|seg|], seg);
        }
      }
    }
  }

  /** A star-free pattern matches exactly the strings equal to it ignoring case. */
  lemma Literal(t: string, lit: string)
    requires Wild !in lit
    ensures GlobMatch(t, lit) <==> SameI(t, lit)
  {
    LiteralThen(t, lit, []);
    assert lit + [] == lit;
    if |t| >= |lit| {
      assert GlobMatch(t[|lit|..], []) <==> |t| == |lit|;
      if |t| == |lit| {
        assert t[..|lit|] == t;
      }
    }
  }

  /** Some suffix of `x` matches a star-free pattern exactly when `x` ends
      with that pattern, ignoring case. */
  lemma AnywhereLiteral(x: string, lit: string)
    requires Wild !in lit
    ensures Anywhere(x, lit) <==> |x| >= |lit| && SameI(x[|x| - |lit|..], lit)
  {
    if Anywhere(x, lit) {
      var k :| 0 <= k <= |x| && GlobMatch(x[k..], lit);
      Literal(x[k..], lit);
    }
    if |x| >= |lit| && SameI(x[|x| - |lit|..], lit) {
      Literal(x[|x| - |lit|..], lit);
    }
  }

  /** Dropping a prefix of `y` can only lose matches. */
  lemma AnywhereSuffix(y: string, d: nat, r: string)
    requires d <= |y|
    ensures Anywhere(y[d..], r) ==> Anywhere(y, r)
  {
    if Anywhere(y[d..], r) {
      var k :| 0 <= k <= |y[d..]| && GlobMatch(y[d..][k..], r);
      assert y[d..][k..] == y[d + k..];
    }
  }

  /** Positions whose character cannot start `p` can be skipped. */
  lemma AnywhereSkip(x: string, d: nat, p: string)
    requires |p| > 0 && p[0] != Wild && d <= |x|
    requires forall k :: 0 <= k < d ==> !EqI(x[k], p[0])
    ensures Anywhere(x, p) <==> Anywhere(x[d..], p)
  {
    if Anywhere(x, p) {
      var k :| 0 <= k <= |x| && GlobMatch(x[k..], p);
      assert k >= d;
      assert x[d..][k - d..] == x[k..];
    }
    AnywhereSuffix(x, d, p);
  }

  /** A position where `p` does not match can be skipped. */
  lemma AnywhereAdvance(x: string, p: string)
    requires |x| > 0 && !GlobMatch(x, p)
    ensures Anywhere(x, p) <==> Anywhere(x[1..], p)
  {
    if Anywhere(x, p) {
      var k :| 0 <= k <= |x| && GlobMatch(x[k..], p);
      assert k != 0 by { assert x[0..] == x; }
      assert x[1..][k - 1..] == x[k..];
    }
    AnywhereSuffix(x, 1, p);
  }

  /** Greedy step: once a star-free segment has matched at the leftmost
      possible place, matching the remainder there loses nothing. */
  lemma AnywhereSegment(x: string, seg: string, q: string)
    requires Wild !in seg && |q| > 0 && q[0] == Wild
    requires |x| >= |seg| && SameI(x[..|seg|], seg)
    ensures Anywhere(x, seg + q) <==> GlobMatch(x[|seg|..], q)
  {
    assert q == [Wild] + q[1..];
    LiteralThen(x, seg, q);
    assert x[0..] == x;
    if Anywhere(x, seg + q) {
      var k :| 0 <= k <= |x| && GlobMatch(x[k..], seg + q);
      LiteralThen(x[k..], seg, q);
      assert x[k..][|seg|..] == x[|seg|..][k..];
      StarAnywhere(x[|seg|..][k..], q[1..]);
      AnywhereSuffix(x[|seg|..], k, q[1..]);
      StarAnywhere(x[|seg|..], q[1..]);
    }
  }

  /** The empty pattern is matched by the empty suffix. */
  lemma AnywhereEmpty(x: string)
    ensures Anywhere(x, [])
  {
    assert GlobMatch(x[|x|..], []);
  }

  /** A lone `*` matches every string. */
  lemma {:induction false} StarMatchesAll(s: string)
    ensures GlobMatch(s, [Wild])
    decreases |s|
  {
    assert [Wild][1..] == [];
    if |s| > 0 {
      StarMatchesAll(s[1..]);
    }
  }
}
