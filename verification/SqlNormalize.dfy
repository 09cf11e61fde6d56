/**
  The scanner as it runs, and what the gate reads from it: the statements of a migration are the
  collapsed neutral forms of its pieces, split at code semicolons only.
 */
module SqlNormalize {
  import opened SqlScanner
  import opened SqlGrammar
  import opened Splitting

  // ---- the loops ---------------------------------------------------------------------------------

  method SkipLine(sql: string, i: nat) returns (j: nat)
    requires i <= |sql|
    ensures j == LineEnd(sql, i)
  {
    j := i;
    while j < |sql| && !Newline(sql[j])
      invariant i <= j <= |sql| && LineEnd(sql, j) == LineEnd(sql, i)
    {
      j := j + 1;
    }
  }

  method SkipBlock(sql: string, i: nat) returns (j: nat)
    requires i <= |sql|
    ensures j == BlockEnd(sql, i, 1)
  {
    var depth := 1;
    j := i;
    while j < |sql| && depth > 0
      invariant i <= j <= |sql| && depth >= 0 && BlockEnd(sql, j, depth) == BlockEnd(sql, i, 1)
    {
      if Pair(sql, j, '/', '*') {
        depth, j := depth + 1, j + 2;
      } else if Pair(sql, j, '*', '/') {
        depth, j := depth - 1, j + 2;
      } else {
        j := j + 1;
      }
    }
  }

  /** From just past the opening quote to just past the closing one. */
  method SkipQuoted(sql: string, i: nat, mark: char, escape: bool) returns (k: nat)
    requires i <= |sql|
    ensures k == QuotedEnd(sql, i, mark, escape)
  {
    k := i;
    while k < |sql|
      invariant QuotedEnd(sql, k, mark, escape) == QuotedEnd(sql, i, mark, escape)
    {
      if escape && sql[k] == '\\' {
        k := k + 2;
      } else if sql[k] == mark {
        if Pair(sql, k, mark, mark) {
          k := k + 2;
        } else {
          return k + 1;
        }
      } else {
        k := k + 1;
      }
    }
    k := |sql|;
  }

  method NextToken(sql: string, i: nat) returns (out: string, end: nat)
    requires i < |sql|
    ensures Token(out, end) == TokenAt(sql, i)
  {
    var c := sql[i];
    out, end := [c], i + 1;
    if Pair(sql, i, '-', '-') {
      out := " ";
      end := SkipLine(sql, i + 2);
    } else if Pair(sql, i, '/', '*') {
      out := " ";
      end := SkipBlock(sql, i + 2);
    } else if c == '$' && !AfterIdent(sql, i) {
      if DollarOpens(sql, i) {
        var start := TagEnd(sql, i + 1) + 1;
        var k := Find(sql, sql[i..start], start);
        if k <= |sql| {
          out, end := " '' ", k + (start - i);
        }
      }
    } else if IsE(c) && i + 1 < |sql| && sql[i + 1] == '\'' && !AfterIdent(sql, i) {
      out := " '' ";
      end := SkipQuoted(sql, i + 2, '\'', true);
    } else if c == '\'' {
      out := " '' ";
      end := SkipQuoted(sql, i + 1, '\'', false);
    } else if IsU(c) && Pair(sql, i + 1, '&', '"') && !AfterIdent(sql, i) {
      out := " qi ";
      end := SkipQuoted(sql, i + 3, '"', false);
    } else if c == '"' {
      out := " qi ";
      end := SkipQuoted(sql, i + 1, '"', false);
    }
  }

  method ScanText(sql: string) returns (out: string)
    ensures out == Scan(sql, 0)
  {
    var i := 0;
    out := "";
    while i < |sql|
      invariant i <= |sql| && out + Scan(sql, i) == Scan(sql, 0)
    {
      var t, end := NextToken(sql, i);
      assert out + t + Scan(sql, end) == out + (t + Scan(sql, end));
      out, i := out + t, end;
    }
  }

  /** _normalize: every text has pieces, and the result is their neutral forms, collapsed. */
  method Normalize(sql: string) returns (r: string)
    ensures r == Collapse(Scan(sql, 0))
    ensures (exists ps :: Lexed(sql, ps)) && forall ps :: Lexed(sql, ps) ==> r == Collapse(Neutrals(ps))
  {
    r := ScanText(sql);
    r := Collapse(r);
    ghost var pieces := EveryTextLexes(sql);
    forall ps | Lexed(sql, ps)
      ensures Scan(sql, 0) == Neutrals(ps)
    {
      ScanIsNeutral(sql, ps);
    }
  }

  // ---- what collapsing does ----------------------------------------------------------------------

  predicate Ink(c: char) { !Space(c) }

  lemma {:induction false} SkipSpaceInk(s: string, x: char, t: string) returns (k: nat)
    requires Ink(x)
    ensures k <= |s| && SkipSpace(s + [x]) == s[k..] + [x] && SkipSpace(s + [x] + t) == s[k..] + [x] + t
  {
    if s != [] && Space(s[0]) {
      k := SkipSpaceInk(s[1..], x, t);
      assert (s + [x] + t)[1..] == s[1..] + [x] + t && (s + [x])[1..] == s[1..] + [x];
      assert s[1..][k..] == s[k + 1..];
      k := k + 1;
    } else {
      k := 0;
      assert s[0..] == s;
    }
  }

  function Gap(run: string): string { if run == [] then "" else " " }

  predicate Blank(run: string) { forall i :: 0 <= i < |run| ==> Space(run[i]) }

  lemma {:induction false} SkipRun(run: string, y: char, b: string)
    requires Ink(y) && Blank(run)
    ensures SkipSpace(run + [y] + b) == [y] + b
  {
    if run == [] {
      assert run + [y] + b == [y] + b;
    } else {
      assert (run + [y] + b)[1..] == run[1..] + [y] + b;
      SkipRun(run[1..], y, b);
    }
  }

  lemma SqueezeRun(run: string, y: char, b: string)
    requires Ink(y) && Blank(run)
    ensures Squeeze(run + [y] + b) == Gap(run) + Squeeze([y] + b)
  {
    if run == [] {
      assert run + [y] + b == [y] + b;
    } else {
      assert (run + [y] + b)[1..] == run[1..] + [y] + b;
      SkipRun(run[1..], y, b);
    }
  }

  /** A run of white space between two other characters is squeezed to one blank. */
  lemma {:induction false} SqueezeGap(a: string, x: char, run: string, y: char, b: string)
    requires Ink(x) && Ink(y) && Blank(run)
    ensures Squeeze(a + [x] + (run + [y] + b)) == Squeeze(a + [x]) + (Gap(run) + Squeeze([y] + b))
    decreases |a|
  {
    var rest := run + [y] + b;
    var s := a + [x] + rest;
    if a == [] {
      assert s[1..] == rest && (a + [x])[1..] == [];
      SqueezeRun(run, y, b);
    } else {
      assert s[1..] == a[1..] + [x] + rest && (a + [x])[1..] == a[1..] + [x];
      if Space(a[0]) {
        var k := SkipSpaceInk(a[1..], x, rest);
        SqueezeGap(a[1..][k..], x, run, y, b);
      } else {
        SqueezeGap(a[1..], x, run, y, b);
      }
    }
  }

  /** Around a dot the blank goes as well. */
  lemma {:induction false} UndotGap(a: string, x: char, run: string, y: char, b: string)
    requires Ink(x) && Ink(y) && (run == "" || run == " ")
    ensures Undot(a + [x] + (run + [y] + b))
         == Undot(a + [x]) + ((if x == '.' || y == '.' then "" else run) + Undot([y] + b))
    decreases |a|, 2
  {
    var rest := run + [y] + b;
    var s := a + [x] + rest;
    var k := SkipSpaceInk(a, x, rest);
    if a == [] {
      UndotEdge(x, run, y, b);
      assert s == [x] + rest && a + [x] == [x];
    } else if (a[k..] + [x])[0] == '.' {
      UndotDot(a, k, x, run, y, b);
    } else {
      assert s[1..] == a[1..] + [x] + rest && (a + [x])[1..] == a[1..] + [x];
      UndotGap(a[1..], x, run, y, b);
    }
  }

  lemma UndotEdge(x: char, run: string, y: char, b: string)
    requires Ink(x) && Ink(y) && (run == "" || run == " ")
    ensures Undot([x] + (run + [y] + b)) == Undot([x]) + ((if x == '.' || y == '.' then "" else run) + Undot([y] + b))
  {
    UndotOne(x);
    if x == '.' {
      AfterDot(run + [y] + b);
      SkipRun(run, y, b);
    } else {
      AfterInk(x, run + [y] + b);
      UndotRun(run, y, b);
    }
  }

  lemma UndotOne(x: char)
    requires Ink(x)
    ensures Undot([x]) == [x]
  {
    assert [x][1..] == [] && Undot([]) == [] && SkipSpace([]) == [];
  }

  lemma AfterDot(rest: string)
    ensures Undot(['.'] + rest) == ['.'] + Undot(SkipSpace(rest))
  {
    assert (['.'] + rest)[1..] == rest;
    UndotStep(['.'] + rest, ['.'] + rest);
  }

  lemma AfterInk(x: char, rest: string)
    requires Ink(x) && x != '.'
    ensures Undot([x] + rest) == [x] + Undot(rest)
  {
    assert ([x] + rest)[1..] == rest;
    UndotPlain([x] + rest);
  }

  lemma UndotRun(run: string, y: char, b: string)
    requires Ink(y) && (run == "" || run == " ")
    ensures Undot(run + [y] + b) == (if y == '.' then "" else run) + Undot([y] + b)
  {
    var rest := run + [y] + b;
    if run == "" {
      assert rest == [y] + b;
    } else {
      SkipRun(run, y, b);
      assert rest[1..] == [y] + b;
      if y == '.' {
        UndotStep(rest, [y] + b);
        UndotStep([y] + b, [y] + b);
      } else {
        UndotPlain(rest);
      }
    }
  }

  lemma UndotPlain(s: string)
    requires s != [] && (SkipSpace(s) != [] ==> SkipSpace(s)[0] != '.')
    ensures Undot(s) == [s[0]] + Undot(s[1..])
  {
  }

  lemma UndotStep(s: string, r: string)
    requires s != [] && r != [] && SkipSpace(s) == r && r[0] == '.'
    ensures Undot(s) == "." + Undot(SkipSpace(r[1..]))
  {
  }

  lemma {:induction false} UndotDot(a: string, k: nat, x: char, run: string, y: char, b: string)
    requires Ink(x) && Ink(y) && (run == "" || run == " ") && a != [] && k <= |a|
    requires SkipSpace(a + [x]) == a[k..] + [x] && SkipSpace(a + [x] + (run + [y] + b)) == a[k..] + [x] + (run + [y] + b)
    requires (a[k..] + [x])[0] == '.'
    ensures Undot(a + [x] + (run + [y] + b))
         == Undot(a + [x]) + ((if x == '.' || y == '.' then "" else run) + Undot([y] + b))
    decreases |a|, 1
  {
    var rest := run + [y] + b;
    var r := a[k..] + [x];
    UndotStep(a + [x], r);
    UndotStep(a + [x] + rest, r + rest);
    assert (r + rest)[1..] == r[1..] + rest;
    if k < |a| {
      var c := a[k..][1..];
      assert r[1..] == c + [x];
      UndotInside(c, x, run, y, b, |a|);
    } else {
      UndotLast(x, run, y, b);
      assert r[1..] == [] && [] + rest == rest;
    }
  }

  lemma UndotLast(x: char, run: string, y: char, b: string)
    requires Ink(y) && (run == "" || run == " ") && x == '.'
    ensures "." + Undot(SkipSpace(run + [y] + b))
         == "." + Undot(SkipSpace([])) + ((if x == '.' || y == '.' then "" else run) + Undot([y] + b))
  {
    SkipRun(run, y, b);
    assert SkipSpace([]) == [] && Undot([]) == [];
  }

  lemma {:induction false} UndotInside(c: string, x: char, run: string, y: char, b: string, n: nat)
    requires Ink(x) && Ink(y) && (run == "" || run == " ") && |c| < n
    ensures "." + Undot(SkipSpace(c + [x] + (run + [y] + b)))
         == "." + Undot(SkipSpace(c + [x])) + ((if x == '.' || y == '.' then "" else run) + Undot([y] + b))
    decreases n, 0
  {
    var m := SkipSpaceInk(c, x, run + [y] + b);
    UndotGap(c[m..], x, run, y, b);
  }

  /** Collapsing, completely: between two characters that are not white space, nothing stays nothing,
      and any run of white space becomes one blank, or disappears next to a dot. */
  lemma CollapseGap(a: string, x: char, run: string, y: char, b: string)
    requires Ink(x) && Ink(y) && Blank(run)
    ensures Collapse(a + [x] + (run + [y] + b))
         == Collapse(a + [x]) + ((if x == '.' || y == '.' then "" else Gap(run)) + Collapse([y] + b))
  {
    SqueezeGap(a, x, run, y, b);
    var sa, sb := Squeeze(a + [x]), Squeeze([y] + b);
    SqueezeEnds(a, x);
    assert sb == [y] + Squeeze(b) by {
      assert ([y] + b)[1..] == b;
    }
    var a' := sa[..|sa| - 1];
    assert sa == a' + [x];
    assert sa + (Gap(run) + sb) == a' + [x] + (Gap(run) + [y] + Squeeze(b));
    UndotGap(a', x, Gap(run), y, Squeeze(b));
  }

  lemma {:induction false} SqueezeEnds(a: string, x: char)
    requires Ink(x)
    ensures Squeeze(a + [x]) != [] && Squeeze(a + [x])[|Squeeze(a + [x])| - 1] == x
    decreases |a|
  {
    if a != [] {
      assert (a + [x])[1..] == a[1..] + [x];
      if Space(a[0]) {
        var k := SkipSpaceInk(a[1..], x, "");
        SqueezeEnds(a[1..][k..], x);
      } else {
        SqueezeEnds(a[1..], x);
      }
    }
  }

  // ---- statements --------------------------------------------------------------------------------

  lemma {:induction false} SkipSemi(a: string, b: string)
    ensures SkipSpace(a + ";" + b) == SkipSpace(a) + ";" + b
  {
    if a != [] && Space(a[0]) {
      assert (a + ";" + b)[1..] == a[1..] + ";" + b;
      SkipSemi(a[1..], b);
    }
  }

  lemma {:induction false} SqueezeSemi(a: string, b: string)
    ensures Squeeze(a + ";" + b) == Squeeze(a) + ";" + Squeeze(b)
    decreases |a|
  {
    var s := a + ";" + b;
    if a == [] {
      assert s[1..] == b;
    } else {
      assert s[1..] == a[1..] + ";" + b;
      if Space(a[0]) {
        SkipSemi(a[1..], b);
        SqueezeSemi(SkipSpace(a[1..]), b);
      } else {
        SqueezeSemi(a[1..], b);
      }
    }
  }

  lemma {:induction false} UndotSemi(a: string, b: string)
    ensures Undot(a + ";" + b) == Undot(a) + ";" + Undot(b)
    decreases |a|, 2
  {
    var r := SkipSpace(a);
    SkipSemi(a, b);
    if a != [] && r != [] && r[0] == '.' {
      UndotSemiDot(a, b);
    } else {
      UndotSemiPlain(a, b);
    }
  }

  lemma {:induction false} UndotSemiDot(a: string, b: string)
    requires a != [] && SkipSpace(a) != [] && SkipSpace(a)[0] == '.' && SkipSpace(a + ";" + b) == SkipSpace(a) + ";" + b
    ensures Undot(a + ";" + b) == Undot(a) + ";" + Undot(b)
    decreases |a|, 1
  {
    var r := SkipSpace(a);
    UndotStep(a, r);
    UndotStep(a + ";" + b, r + ";" + b);
    assert (r + ";" + b)[1..] == r[1..] + ";" + b;
    UndotSemiInside(r[1..], b, |a|);
    Regroup(Undot(SkipSpace(r[1..])), Undot(b));
  }

  lemma Regroup(p: string, q: string)
    ensures "." + (p + ";" + q) == "." + p + ";" + q
  {
  }

  lemma {:induction false} UndotSemiInside(t: string, b: string, n: nat)
    requires |t| < n
    ensures Undot(SkipSpace(t + ";" + b)) == Undot(SkipSpace(t)) + ";" + Undot(b)
    decreases n, 0
  {
    SkipSemi(t, b);
    UndotSemi(SkipSpace(t), b);
  }

  lemma {:induction false} UndotSemiPlain(a: string, b: string)
    requires SkipSpace(a) != [] ==> SkipSpace(a)[0] != '.'
    requires SkipSpace(a + ";" + b) == SkipSpace(a) + ";" + b
    ensures Undot(a + ";" + b) == Undot(a) + ";" + Undot(b)
    decreases |a|, 1
  {
    var s := a + ";" + b;
    assert (SkipSpace(a) + ";" + b)[0] != '.';
    UndotPlain(s);
    if a == [] {
      assert s[1..] == b;
    } else {
      UndotPlain(a);
      assert s[1..] == a[1..] + ";" + b;
      UndotSemi(a[1..], b);
    }
  }

  lemma {:induction false} SkipSpaceIn(s: string)
    ensures forall c :: c in SkipSpace(s) ==> c in s
  {
    if s != [] && Space(s[0]) {
      SkipSpaceIn(s[1..]);
    }
  }

  lemma {:induction false} SqueezeIn(s: string)
    requires ';' !in s
    ensures ';' !in Squeeze(s)
    decreases |s|
  {
    if s != [] {
      SkipSpaceIn(s[1..]);
      SqueezeIn(if Space(s[0]) then SkipSpace(s[1..]) else s[1..]);
    }
  }

  lemma {:induction false} UndotIn(s: string)
    requires ';' !in s
    ensures ';' !in Undot(s)
    decreases |s|
  {
    var r := SkipSpace(s);
    SkipSpaceIn(s);
    if s != [] {
      if r != [] && r[0] == '.' {
        SkipSpaceIn(r[1..]);
        UndotIn(SkipSpace(r[1..]));
      } else {
        UndotIn(s[1..]);
      }
    }
  }

  /** The pieces of each statement: cut at the semicolons that are code. */
  function Statements(ps: seq<Piece>): (groups: seq<seq<Piece>>)
    ensures |groups| >= 1
  {
    if ps == [] then [[]]
    else if ps[0] == Code(';') then [[]] + Statements(ps[1..])
    else [[ps[0]] + Statements(ps[1..])[0]] + Statements(ps[1..])[1..]
  }

  /** Cutting the neutral text is cutting the pieces: no semicolon inside a body ever splits. */
  lemma {:induction false} NeutralStatements(ps: seq<Piece>)
    ensures |Split(Neutrals(ps), ';')| == |Statements(ps)|
    ensures forall k :: 0 <= k < |Statements(ps)| ==> Split(Neutrals(ps), ';')[k] == Neutrals(Statements(ps)[k])
  {
    if ps != [] {
      var rest := Neutrals(ps[1..]);
      NeutralStatements(ps[1..]);
      if ps[0] == Code(';') {
        assert Neutrals(ps) == "" + ";" + rest;
        SplitFirst("", rest, ';');
      } else {
        SplitPrefix(Neutral(ps[0]), rest);
        NeutralHead(ps[0], Statements(ps[1..]), Split(rest, ';'));
      }
    }
  }

  /** A piece put in front of the first statement. */
  lemma NeutralHead(p: Piece, groups: seq<seq<Piece>>, parts: seq<string>)
    requires |groups| == |parts| >= 1 && forall k :: 0 <= k < |groups| ==> parts[k] == Neutrals(groups[k])
    ensures var gs, ts := [[p] + groups[0]] + groups[1..], [Neutral(p) + parts[0]] + parts[1..];
            |gs| == |ts| && forall k :: 0 <= k < |gs| ==> ts[k] == Neutrals(gs[k])
  {
    assert ([p] + groups[0])[1..] == groups[0];
  }

  lemma {:induction false} SplitPrefix(a: string, s: string)
    requires ';' !in a
    ensures Split(a + s, ';') == [a + Split(s, ';')[0]] + Split(s, ';')[1..]
  {
    if a == [] {
      assert a + s == s && a + Split(s, ';')[0] == Split(s, ';')[0];
    } else {
      assert (a + s)[1..] == a[1..] + s;
      SplitPrefix(a[1..], s);
      assert [a[0]] + (a[1..] + Split(s, ';')[0]) == a + Split(s, ';')[0];
    }
  }

  lemma CollapseAtSemi(a: string, b: string)
    requires ';' !in a
    ensures Collapse(a + ";" + b) == Collapse(a) + ";" + Collapse(b) && ';' !in Collapse(a)
  {
    SqueezeSemi(a, b);
    UndotSemi(Squeeze(a), Squeeze(b));
    SqueezeIn(a);
    UndotIn(Squeeze(a));
  }

  lemma {:induction false} CollapseSplits(s: string)
    ensures |Split(Collapse(s), ';')| == |Split(s, ';')|
    ensures forall k :: 0 <= k < |Split(s, ';')| ==> Split(Collapse(s), ';')[k] == Collapse(Split(s, ';')[k])
    decreases |s|
  {
    if ';' in s {
      var k := FirstSemi(s);
      var a, b := s[..k], s[k + 1..];
      assert s == a + ";" + b;
      SplitFirst(a, b, ';');
      CollapseAtSemi(a, b);
      SplitFirst(Collapse(a), Collapse(b), ';');
      CollapseSplits(b);
    } else {
      SplitNone(s, ';');
      SqueezeIn(s);
      UndotIn(Squeeze(s));
      SplitNone(Collapse(s), ';');
    }
  }

  function FirstSemi(s: string): (k: nat)
    requires ';' in s
    ensures k < |s| && s[k] == ';' && ';' !in s[..k]
  {
    if s[0] == ';' then 0
    else
      var k := FirstSemi(s[1..]) + 1;
      assert s[..k] == [s[0]] + s[1..][..k - 1];
      k
  }

  /** Scanner refinement: on every text that is a sequence of lexical pieces, the statements the gate
      reads are the collapsed neutral forms of the statements of the text, one for one. */
  lemma GateReadsStatements(sql: string, ps: seq<Piece>)
    requires Lexed(sql, ps)
    ensures Collapse(Scan(sql, 0)) == Collapse(Neutrals(ps))
    ensures var read := Split(Collapse(Scan(sql, 0)), ';');
            |read| == |Statements(ps)|
            && forall k :: 0 <= k < |read| ==> read[k] == Collapse(Neutrals(Statements(ps)[k]))
  {
    ScanIsNeutral(sql, ps);
    StatementsCollapse(ps);
  }

  lemma StatementsCollapse(ps: seq<Piece>)
    ensures var read := Split(Collapse(Neutrals(ps)), ';');
            |read| == |Statements(ps)|
            && forall k :: 0 <= k < |read| ==> read[k] == Collapse(Neutrals(Statements(ps)[k]))
  {
    CollapseSplits(Neutrals(ps));
    NeutralStatements(ps);
  }

  /** Bodies never matter: texts whose pieces have the same neutral forms are read alike. */
  lemma BodiesNeverMatter(sql: string, ps: seq<Piece>, sql': string, ps': seq<Piece>)
    requires Lexed(sql, ps) && Lexed(sql', ps')
    requires |ps| == |ps'| && forall k :: 0 <= k < |ps| ==> Neutral(ps[k]) == Neutral(ps'[k])
    ensures Collapse(Scan(sql, 0)) == Collapse(Scan(sql', 0))
  {
    ScanIsNeutral(sql, ps);
    ScanIsNeutral(sql', ps');
    SameNeutrals(ps, ps');
  }

  lemma {:induction false} SameNeutrals(ps: seq<Piece>, ps': seq<Piece>)
    requires |ps| == |ps'| && forall k :: 0 <= k < |ps| ==> Neutral(ps[k]) == Neutral(ps'[k])
    ensures Neutrals(ps) == Neutrals(ps')
  {
    if ps != [] {
      SameNeutrals(ps[1..], ps'[1..]);
    }
  }
}
