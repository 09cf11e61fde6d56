/**
  The split of an ALTER TABLE body into its clauses, at the commas that lie outside every parenthesis.
 */
module SqlClauses {
  import opened Splitting

  /** The depth after one character; a stray closing parenthesis does not go below zero. */
  function Deeper(c: char, d: nat): nat {
    if c == '(' then d + 1 else if c == ')' && d > 0 then d - 1 else d
  }

  function Depth(s: string, d: nat): nat {
    if s == [] then d else Depth(s[1..], Deeper(s[0], d))
  }

  /** No comma at depth zero, when the text starts at depth d. */
  predicate Unbroken(s: string, d: nat) {
    s == [] || (!(s[0] == ',' && d == 0) && Unbroken(s[1..], Deeper(s[0], d)))
  }

  /** A list of clauses: none is broken, and each one but the last closes its parentheses. */
  predicate ClauseList(cs: seq<string>) {
    && cs != [] && (forall i: nat :: i < |cs| ==> Unbroken(cs[i], 0))
    && forall i: nat :: i < |cs| - 1 ==> Depth(cs[i], 0) == 0
  }

  lemma {:induction false} DepthAppend(s: string, c: char, d: nat)
    ensures Depth(s + [c], d) == Deeper(c, Depth(s, d))
  {
    if s == [] {
      assert s + [c] == [c];
    } else {
      assert (s + [c])[1..] == s[1..] + [c];
      DepthAppend(s[1..], c, Deeper(s[0], d));
    }
  }

  lemma {:induction false} UnbrokenAppend(s: string, c: char, d: nat)
    requires Unbroken(s, d) && !(c == ',' && Depth(s, d) == 0)
    ensures Unbroken(s + [c], d)
  {
    if s == [] {
      assert s + [c] == [c];
    } else {
      assert (s + [c])[1..] == s[1..] + [c];
      UnbrokenAppend(s[1..], c, Deeper(s[0], d));
    }
  }

  lemma {:induction false} JoinSnoc(cs: seq<string>, last: string, sep: char)
    requires cs != []
    ensures Join(cs + [last], sep) == Join(cs, sep) + [sep] + last
  {
    if |cs| > 1 {
      JoinSnoc(cs[1..], last, sep);
      assert (cs + [last])[1..] == cs[1..] + [last];
    } else {
      assert (cs + [last])[1..] == [last];
    }
  }

  lemma {:induction false} JoinGrow(cs: seq<string>, last: string, c: char, sep: char)
    ensures Join(cs + [last + [c]], sep) == Join(cs + [last], sep) + [c]
  {
    if cs != [] {
      JoinSnoc(cs, last, sep);
      JoinSnoc(cs, last + [c], sep);
    }
  }

  /** _top_level_clauses: a list of clauses that reads as the statement when the commas are put back. */
  method TopLevelClauses(stmt: string) returns (cs: seq<string>)
    ensures ClauseList(cs) && Join(cs, ',') == stmt
  {
    var out: seq<string>, cur: string, depth: nat := [], [], 0;
    for i := 0 to |stmt|
      invariant ClauseList(out + [cur]) && Join(out + [cur], ',') == stmt[..i]
      invariant depth == Depth(cur, 0)
    {
      var ch := stmt[i];
      assert stmt[..i + 1] == stmt[..i] + [ch];
      DepthAppend(cur, ch, 0);
      depth := Deeper(ch, depth);
      if ch == ',' && depth == 0 {
        JoinSnoc(out + [cur], [], ',');
        out, cur := out + [cur], [];
      } else {
        assert (out + [cur])[|out|] == cur;
        UnbrokenAppend(cur, ch, 0);
        JoinGrow(out, cur, ch, ',');
        Regrown(out, cur, ch);
        cur := cur + [ch];
      }
    }
    assert stmt[..|stmt|] == stmt;
    return out + [cur];
  }

  lemma Regrown(out: seq<string>, cur: string, ch: char)
    requires ClauseList(out + [cur]) && Unbroken(cur + [ch], 0)
    ensures ClauseList(out + [cur + [ch]])
  {
    forall i: nat | i < |out|
      ensures Unbroken(out[i], 0) && Depth(out[i], 0) == 0
    {
      assert (out + [cur])[i] == out[i];
    }
  }

  /** Where the first clause ends is settled by the text. */
  lemma {:induction false} SameFirst(a: string, x: string, b: string, y: string, d: nat)
    requires Unbroken(a, d) && Depth(a, d) == 0 && Unbroken(b, d) && a + [','] + x == b + y
    requires (y == [] || y[0] == ',') && (y != [] ==> Depth(b, d) == 0)
    ensures a == b && y == [','] + x
  {
    var t := a + [','] + x;
    assert t[0] == if a == [] then ',' else a[0];
    assert t[0] == if b == [] then y[0] else b[0];
    assert (a == [] ==> t == [','] + x) && (b == [] ==> t == y);
    if a != [] && b != [] {
      assert t[1..] == a[1..] + [','] + x && t[1..] == b[1..] + y;
      SameFirst(a[1..], x, b[1..], y, Deeper(a[0], d));
    }
  }

  /** The list is the only one: two clause lists with the same text are equal, so the split inverts the join. */
  lemma {:induction false} ClausesAreUnique(cs: seq<string>, ds: seq<string>)
    requires ClauseList(cs) && ClauseList(ds) && Join(cs, ',') == Join(ds, ',')
    ensures cs == ds
  {
    if |cs| == 1 && |ds| == 1 {
    } else if |cs| > 1 {
      FirstAgrees(cs, ds);
    } else {
      FirstAgrees(ds, cs);
    }
  }

  lemma {:induction false} FirstAgrees(cs: seq<string>, ds: seq<string>)
    requires ClauseList(cs) && ClauseList(ds) && Join(cs, ',') == Join(ds, ',') && |cs| > 1
    ensures cs == ds
    decreases |cs| + |ds|
  {
    var x, y := Join(cs[1..], ','), if |ds| > 1 then [','] + Join(ds[1..], ',') else [];
    assert Join(ds, ',') == ds[0] + y;
    SameFirst(cs[0], x, ds[0], y, 0);
    assert |ds| > 1;
    assert y[1..] == x && y[1..] == Join(ds[1..], ',');
    TailIsList(cs);
    TailIsList(ds);
    if |cs| > 2 {
      FirstAgrees(cs[1..], ds[1..]);
    } else if |ds| > 2 {
      FirstAgrees(ds[1..], cs[1..]);
    }
    assert cs == [cs[0]] + cs[1..] && ds == [ds[0]] + ds[1..];
  }

  lemma TailIsList(cs: seq<string>)
    requires ClauseList(cs) && |cs| > 1
    ensures ClauseList(cs[1..])
  {
  }
}
