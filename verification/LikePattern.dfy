/**
  The substring rung of recall: a query turned into an ILIKE pattern, against the matcher of section 9.7.1 of
  the PostgreSQL documentation with the default backslash escape.
 */
module LikePattern {
  const QUERY_CAP_CHARS: nat := 512

  function Capped(query: string): string {
    if |query| <= QUERY_CAP_CHARS then query else query[..QUERY_CAP_CHARS]
  }

  /** str.replace of one character. */
  function Replace(s: string, c: char, put: string): string {
    if s == [] then [] else (if s[0] == c then put else [s[0]]) + Replace(s[1..], c, put)
  }

  function IlikePattern(query: string): string {
    var q := Replace(Replace(Replace(Capped(query), '\\', "\\\\"), '%', "\\%"), '_', "\\_");
    "%" + q + "%"
  }

  // ---- the matcher ----------------------------------------------------------------------------------

  /** s matches the pattern p; characters are compared after case folding.  A pattern that ends in its escape
      character, which PostgreSQL reports as an error, matches nothing. */
  predicate Matches(s: string, p: string, fold: char -> char)
    decreases |p|, |s|
  {
    if p == [] then s == []
    else if p[0] == '%' then Matches(s, p[1..], fold) || (s != [] && Matches(s[1..], p, fold))
    else if p[0] == '_' then s != [] && Matches(s[1..], p[1..], fold)
    else if p[0] == '\\' then |p| >= 2 && s != [] && fold(s[0]) == fold(p[1]) && Matches(s[1..], p[2..], fold)
    else s != [] && fold(s[0]) == fold(p[0]) && Matches(s[1..], p[1..], fold)
  }

  // ---- escaping character by character --------------------------------------------------------------

  function Quoted(c: char): string {
    if c == '\\' || c == '%' || c == '_' then ['\\', c] else [c]
  }

  function Escaped(q: string): string {
    if q == [] then [] else Quoted(q[0]) + Escaped(q[1..])
  }

  lemma {:induction false} ReplaceConcat(a: string, b: string, c: char, put: string)
    ensures Replace(a + b, c, put) == Replace(a, c, put) + Replace(b, c, put)
  {
    if a == [] {
      assert a + b == b;
    } else {
      ReplaceConcat(a[1..], b, c, put);
      assert (a + b)[0] == a[0] && (a + b)[1..] == a[1..] + b;
      var one := if a[0] == c then put else [a[0]];
      assert one + (Replace(a[1..], c, put) + Replace(b, c, put)) == one + Replace(a[1..], c, put) + Replace(b, c, put);
    }
  }

  lemma ReplaceOne(x: char, c: char, put: string)
    ensures Replace([x], c, put) == if x == c then put else [x]
  {
    assert Replace([x][1..], c, put) == [];
  }

  lemma ReplaceTwo(x: char, y: char, c: char, put: string)
    requires x != c && y != c
    ensures Replace([x, y], c, put) == [x, y]
  {
    ReplaceOne(y, c, put);
    assert [x, y][1..] == [y];
  }

  lemma EscapeOne(x: char)
    ensures Replace(Replace(Replace([x], '\\', "\\\\"), '%', "\\%"), '_', "\\_") == Quoted(x)
  {
    ReplaceOne(x, '\\', "\\\\");
    ReplaceTwo('\\', '\\', '%', "\\%");
    ReplaceTwo('\\', '\\', '_', "\\_");
    ReplaceOne(x, '%', "\\%");
    ReplaceTwo('\\', '%', '_', "\\_");
    ReplaceOne(x, '_', "\\_");
  }

  /** The three replacements, backslash first, escape each character once. */
  lemma {:induction false} ReplacesEscape(q: string)
    ensures Replace(Replace(Replace(q, '\\', "\\\\"), '%', "\\%"), '_', "\\_") == Escaped(q)
  {
    if q != [] {
      var x, rest := [q[0]], q[1..];
      assert q == x + rest;
      ReplaceConcat(x, rest, '\\', "\\\\");
      var x1, rest1 := Replace(x, '\\', "\\\\"), Replace(rest, '\\', "\\\\");
      ReplaceConcat(x1, rest1, '%', "\\%");
      ReplaceConcat(Replace(x1, '%', "\\%"), Replace(rest1, '%', "\\%"), '_', "\\_");
      EscapeOne(q[0]);
      ReplacesEscape(rest);
    }
  }

  // ---- meaning --------------------------------------------------------------------------------------

  predicate SameUpToCase(a: string, b: string, fold: char -> char) {
    |a| == |b| && forall i: nat :: i < |a| ==> fold(a[i]) == fold(b[i])
  }

  predicate OccursAt(s: string, q: string, i: nat, fold: char -> char) {
    i + |q| <= |s| && SameUpToCase(s[i..i + |q|], q, fold)
  }

  ghost predicate Contains(s: string, q: string, fold: char -> char) {
    exists i: nat :: OccursAt(s, q, i, fold)
  }

  lemma {:induction false} TrailingPercent(s: string, fold: char -> char)
    ensures Matches(s, "%", fold)
  {
    if s != [] {
      TrailingPercent(s[1..], fold);
    }
  }

  /** An escaped query with a trailing wildcard matches exactly the strings that begin with the query. */
  lemma {:induction false} PrefixExactly(s: string, q: string, fold: char -> char)
    ensures Matches(s, Escaped(q) + "%", fold) <==> |q| <= |s| && SameUpToCase(s[..|q|], q, fold)
  {
    var p := Escaped(q) + "%";
    if q == [] {
      assert p == "%";
      TrailingPercent(s, fold);
    } else {
      var rest := Escaped(q[1..]) + "%";
      assert p == Quoted(q[0]) + rest;
      assert p[|Quoted(q[0])|..] == rest;
      if s != [] {
        PrefixExactly(s[1..], q[1..], fold);
        assert |q| <= |s| ==> s[..|q|] == [s[0]] + s[1..][..|q| - 1];
        ConsSame(s, q, fold);
      }
    }
  }

  lemma ConsSame(s: string, q: string, fold: char -> char)
    requires s != [] && q != []
    ensures (|q| <= |s| && SameUpToCase(s[..|q|], q, fold)) <==>
            fold(s[0]) == fold(q[0]) && |q[1..]| <= |s[1..]| && SameUpToCase(s[1..][..|q[1..]|], q[1..], fold)
  {
    if |q| <= |s| {
      var a, b := s[1..][..|q[1..]|], q[1..];
      if SameUpToCase(s[..|q|], q, fold) {
        assert fold(s[..|q|][0]) == fold(q[0]);
        forall i: nat | i < |a|
          ensures fold(a[i]) == fold(b[i])
        {
          assert fold(s[..|q|][i + 1]) == fold(q[i + 1]);
        }
      }
      if fold(s[0]) == fold(q[0]) && SameUpToCase(a, b, fold) {
        forall i: nat | i < |q|
          ensures fold(s[..|q|][i]) == fold(q[i])
        {
          assert i > 0 ==> fold(a[i - 1]) == fold(b[i - 1]);
        }
      }
    }
  }

  /** A leading wildcard skips any prefix. */
  lemma {:induction false} LeadingPercent(s: string, p: string, fold: char -> char)
    ensures Matches(s, "%" + p, fold) <==> exists i: nat :: i <= |s| && Matches(s[i..], p, fold)
  {
    assert ("%" + p)[1..] == p;
    assert s[0..] == s;
    if s != [] {
      LeadingPercent(s[1..], p, fold);
      if i: nat :| i <= |s[1..]| && Matches(s[1..][i..], p, fold) {
        assert s[1..][i..] == s[i + 1..];
      }
      if i: nat :| 0 < i <= |s| && Matches(s[i..], p, fold) {
        assert s[1..][i - 1..] == s[i..];
      }
    }
  }

  /** Escaping keeps meaning: a string matches the pattern exactly when it contains the capped query as a
      substring, up to case. */
  lemma PatternIsSubstring(s: string, query: string, fold: char -> char)
    ensures Matches(s, IlikePattern(query), fold) <==> Contains(s, Capped(query), fold)
  {
    var q := Capped(query);
    ReplacesEscape(q);
    var p := Escaped(q) + "%";
    assert IlikePattern(query) == "%" + p;
    LeadingPercent(s, p, fold);
    forall i: nat | i <= |s|
      ensures Matches(s[i..], p, fold) <==> OccursAt(s, q, i, fold)
    {
      PrefixExactly(s[i..], q, fold);
      assert i + |q| <= |s| ==> s[i..][..|q|] == s[i..i + |q|];
    }
    if i: nat :| OccursAt(s, q, i, fold) {
      assert Matches(s[i..], p, fold);
    }
  }
}
