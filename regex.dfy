/** The fragment of Go's RE2 syntax that the validators use: a pattern anchored
    at both ends (`^...$`, where `$` matches only at the end of the text) that
    is a concatenation of bracketed character classes, each taken once, any
    number of times (`*`), at least once (`+`) or exactly n times (`{n}`). */
module Regex {

  /** An inclusive character range inside a bracket expression, such as `a-z`;
      a single character `c` is the range `c-c`. */
  datatype Range = Range(lo: char, hi: char)

  /** A bracket expression such as `[a-zA-Z0-9._-]`. */
  type CharClass = seq<Range>

  predicate InClass(c: char, cls: CharClass) {
    exists r :: r in cls && r.lo <= c <= r.hi
  }

  predicate AllIn(s: string, cls: CharClass) {
    forall i :: 0 <= i < |s| ==> InClass(s[i], cls)
  }

  datatype Piece =
    | One(cls: CharClass)
    | Star(cls: CharClass)
    | Plus(cls: CharClass)
    | Exactly(cls: CharClass, n: nat)

  type Pattern = seq<Piece>

  /** Whether the whole of `s` matches the anchored pattern `p` (Go's
      regexp.MatchString for a pattern written `^p$`), by backtracking. */
  predicate Matches(p: Pattern, s: string)
    decreases |p|, |s|
  {
    if p == [] then s == []
    else match p[0]
      case One(cls) =>
        |s| > 0 && InClass(s[0], cls) && Matches(p[1..], s[1..])
      case Star(cls) =>
        Matches(p[1..], s) || (|s| > 0 && InClass(s[0], cls) && Matches(p, s[1..]))
      case Plus(cls) =>
        |s| > 0 && InClass(s[0], cls) && Matches([Star(cls)] + p[1..], s[1..])
      case Exactly(cls, n) =>
        if n == 0 then Matches(p[1..], s)
        else |s| > 0 && InClass(s[0], cls) && Matches([Exactly(cls, n - 1)] + p[1..], s[1..])
  }

  lemma EmptyMatches(s: string)
    ensures Matches([], s) <==> s == []
  {
  }

  lemma OneMatches(cls: CharClass, rest: Pattern, s: string)
    ensures Matches([One(cls)] + rest, s) <==> |s| > 0 && InClass(s[0], cls) && Matches(rest, s[1..])
  {
    assert ([One(cls)] + rest)[1..] == rest;
  }

  /** `c*` followed by `rest` matches exactly when some prefix of `s` lies in
      the class and the remainder matches `rest`. */
  lemma {:induction false} StarMatches(cls: CharClass, rest: Pattern, s: string)
    ensures Matches([Star(cls)] + rest, s) <==>
            exists k :: 0 <= k <= |s| && AllIn(s[..k], cls) && Matches(rest, s[k..])
    decreases |s|
  {
    var p := [Star(cls)] + rest;
    assert p[1..] == rest;
    if Matches(p, s) {
      if Matches(rest, s) {
        assert AllIn(s[..0], cls) && s[0..] == s;
      } else {
        StarMatches(cls, rest, s[1..]);
        var k :| 0 <= k <= |s[1..]| && AllIn(s[1..][..k], cls) && Matches(rest, s[1..][k..]);
        assert s[..k + 1] == [s[0]] + s[1..][..k];
        assert s[k + 1..] == s[1..][k..];
      }
    }
    if exists k :: 0 <= k <= |s| && AllIn(s[..k], cls) && Matches(rest, s[k..]) {
      var k :| 0 <= k <= |s| && AllIn(s[..k], cls) && Matches(rest, s[k..]);
      if k == 0 {
        assert s[0..] == s;
      } else {
        assert s[..k][0] == s[0];
        StarMatches(cls, rest, s[1..]);
        assert s[1..][..k - 1] == s[1..k];
        assert forall i :: 0 <= i < k - 1 ==> s[1..k][i] == s[..k][i + 1];
        assert s[1..][k - 1..] == s[k..];
      }
    }
  }

  /** Splitting the first character off a class-prefix of `s`. */
  lemma ShiftPrefix(s: string, k: nat, cls: CharClass)
    requires 1 <= k <= |s|
    ensures AllIn(s[..k], cls) <==> InClass(s[0], cls) && AllIn(s[1..][..k - 1], cls)
    ensures s[1..][k - 1..] == s[k..]
  {
    assert s[..k] == [s[0]] + s[1..][..k - 1];
  }

  /** `c+` followed by `rest` matches exactly when some non-empty prefix of `s`
      lies in the class and the remainder matches `rest`. */
  lemma PlusMatches(cls: CharClass, rest: Pattern, s: string)
    ensures Matches([Plus(cls)] + rest, s) <==>
            exists k :: 1 <= k <= |s| && AllIn(s[..k], cls) && Matches(rest, s[k..])
  {
    var p := [Plus(cls)] + rest;
    assert p[1..] == rest;
    if |s| > 0 {
      StarMatches(cls, rest, s[1..]);
      if Matches(p, s) {
        var j :| 0 <= j <= |s[1..]| && AllIn(s[1..][..j], cls) && Matches(rest, s[1..][j..]);
        ShiftPrefix(s, j + 1, cls);
      }
      if exists k :: 1 <= k <= |s| && AllIn(s[..k], cls) && Matches(rest, s[k..]) {
        var k :| 1 <= k <= |s| && AllIn(s[..k], cls) && Matches(rest, s[k..]);
        ShiftPrefix(s, k, cls);
        assert 0 <= k - 1 <= |s[1..]| && AllIn(s[1..][..k - 1], cls) && Matches(rest, s[1..][k - 1..]);
      }
    }
  }

  /** `c{n}` followed by `rest` matches exactly when the first n characters lie
      in the class and the remainder matches `rest`. */
  lemma {:induction false} ExactlyMatches(cls: CharClass, n: nat, rest: Pattern, s: string)
    ensures Matches([Exactly(cls, n)] + rest, s) <==>
            n <= |s| && AllIn(s[..n], cls) && Matches(rest, s[n..])
    decreases n
  {
    var p := [Exactly(cls, n)] + rest;
    assert p[1..] == rest;
    if n == 0 {
      assert s[0..] == s;
    } else if |s| > 0 {
      ExactlyMatches(cls, n - 1, rest, s[1..]);
      if n <= |s| {
        assert s[1..][..n - 1] == s[1..n];
        assert forall i :: 0 <= i < n - 1 ==> s[1..n][i] == s[..n][i + 1];
        assert s[..n][0] == s[0];
        assert s[1..][n - 1..] == s[n..];
      }
    }
  }

  /** `^c*$` matches exactly the strings made of class characters. */
  lemma StarAll(cls: CharClass, s: string)
    ensures Matches([Star(cls)], s) <==> AllIn(s, cls)
  {
    StarMatches(cls, [], s);
    assert [Star(cls)] + [] == [Star(cls)];
    if Matches([Star(cls)], s) {
      var k :| 0 <= k <= |s| && AllIn(s[..k], cls) && Matches([], s[k..]);
      assert |s[k..]| == 0;
      assert s[..k] == s;
    }
    if AllIn(s, cls) {
      assert s[..|s|] == s && s[|s|..] == [];
    }
  }

  /** `^c+$` matches exactly the non-empty strings made of class characters. */
  lemma PlusAll(cls: CharClass, s: string)
    ensures Matches([Plus(cls)], s) <==> |s| >= 1 && AllIn(s, cls)
  {
    PlusMatches(cls, [], s);
    assert [Plus(cls)] + [] == [Plus(cls)];
    if Matches([Plus(cls)], s) {
      var k :| 1 <= k <= |s| && AllIn(s[..k], cls) && Matches([], s[k..]);
      assert |s[k..]| == 0;
      assert s[..k] == s;
    }
    if |s| >= 1 && AllIn(s, cls) {
      assert s[..|s|] == s && s[|s|..] == [];
    }
  }
}
