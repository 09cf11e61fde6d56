/**
  The migration gate's SQL scanner, against the lexical structure of PostgreSQL (section 4.1 of its
  documentation).

  `Normalize` is the scanner: one left-to-right pass that neutralizes comments, string bodies and
  quoted identifiers and then collapses white space.  `Lexed` is the grammar: which texts are a
  sequence of well-formed lexical pieces.  The two share no definition beyond the character classes.
 */
module SqlScanner {

  // ---- character classes -------------------------------------------------------------------------

  predicate Ascii(c: char) { c as int < 128 }

  predicate Digit(c: char) { '0' <= c <= '9' }

  predicate Letter(c: char) { 'a' <= c <= 'z' || 'A' <= c <= 'Z' }

  predicate IdentChar(c: char) {
    !Ascii(c) || Letter(c) || Digit(c) || c == '_' || c == '$'
  }

  predicate TagStart(c: char) { !Ascii(c) || Letter(c) || c == '_' }

  predicate TagChar(c: char) { TagStart(c) || Digit(c) }

  predicate IsE(c: char) { c == 'E' || c == 'e' }

  predicate IsU(c: char) { c == 'U' || c == 'u' }

  predicate Newline(c: char) { c == '\r' || c == '\n' }

  predicate Space(c: char) {
    var k := c as int;
    || 9 <= k <= 13 || 28 <= k <= 32 || k == 133 || k == 160 || k == 5760 || 8192 <= k <= 8202
    || k == 8232 || k == 8233 || k == 8239 || k == 8287 || k == 12288
  }

  predicate At(sql: string, i: nat, t: string) {
    i + |t| <= |sql| && forall k :: 0 <= k < |t| ==> sql[i + k] == t[k]
  }

  predicate Pair(sql: string, i: nat, a: char, b: char) {
    i + 1 < |sql| && sql[i] == a && sql[i + 1] == b
  }

  // ---- the scanner's loops, as functions of the position -----------------------------------------

  function LineEnd(sql: string, j: nat): (k: nat)
    requires j <= |sql|
    ensures j <= k <= |sql|
    decreases |sql| - j
  {
    if j < |sql| && !Newline(sql[j]) then LineEnd(sql, j + 1) else j
  }

  function BlockEnd(sql: string, j: nat, depth: nat): (k: nat)
    requires j <= |sql|
    ensures j <= k <= |sql|
    decreases |sql| - j
  {
    if j == |sql| || depth == 0 then j
    else if Pair(sql, j, '/', '*') then BlockEnd(sql, j + 2, depth + 1)
    else if Pair(sql, j, '*', '/') then BlockEnd(sql, j + 2, depth - 1)
    else BlockEnd(sql, j + 1, depth)
  }

  /** Just past the closing quote; a backslash escapes the next character only when `escape`. */
  function QuotedEnd(sql: string, k: nat, mark: char, escape: bool): (e: nat)
    ensures k <= |sql| ==> k <= e <= |sql|
    decreases |sql| - k
  {
    if k >= |sql| then |sql|
    else if escape && sql[k] == '\\' then QuotedEnd(sql, k + 2, mark, escape)
    else if sql[k] != mark then QuotedEnd(sql, k + 1, mark, escape)
    else if Pair(sql, k, mark, mark) then QuotedEnd(sql, k + 2, mark, escape)
    else k + 1
  }

  function TagEnd(sql: string, j: nat): (k: nat)
    requires j <= |sql|
    ensures j <= k <= |sql|
    decreases |sql| - j
  {
    if j < |sql| && TagChar(sql[j]) then TagEnd(sql, j + 1) else j
  }

  /** `$tag$` opens at i. */
  predicate DollarOpens(sql: string, i: nat)
    requires i < |sql|
  {
    var j := TagEnd(sql, i + 1);
    sql[i] == '$' && j < |sql| && sql[j] == '$' && (j == i + 1 || TagStart(sql[i + 1]))
  }

  /** The first occurrence of `t` at or after k, or |sql| + 1. */
  function Find(sql: string, t: string, k: nat): (e: nat)
    ensures e == |sql| + 1 || (k <= e && At(sql, e, t))
    decreases |sql| - k
  {
    if k > |sql| then |sql| + 1 else if At(sql, k, t) then k else Find(sql, t, k + 1)
  }

  predicate AfterIdent(sql: string, i: nat)
    requires i <= |sql|
  {
    i > 0 && IdentChar(sql[i - 1])
  }

  datatype Token = Token(out: string, end: nat)

  /** What the scanner emits at i, and where it goes on. */
  function TokenAt(sql: string, i: nat): (t: Token)
    requires i < |sql|
    ensures i < t.end <= |sql|
  {
    var c := sql[i];
    var plain := Token([c], i + 1);
    if Pair(sql, i, '-', '-') then Token(" ", LineEnd(sql, i + 2))
    else if Pair(sql, i, '/', '*') then Token(" ", BlockEnd(sql, i + 2, 1))
    else if c == '$' && !AfterIdent(sql, i) then
      if DollarOpens(sql, i) then
        var start := TagEnd(sql, i + 1) + 1;
        var close := sql[i..start];
        var k := Find(sql, close, start);
        if k <= |sql| then Token(" '' ", k + |close|) else plain
      else plain
    else if IsE(c) && i + 1 < |sql| && sql[i + 1] == '\'' && !AfterIdent(sql, i) then
      Token(" '' ", QuotedEnd(sql, i + 2, '\'', true))
    else if c == '\'' then Token(" '' ", QuotedEnd(sql, i + 1, '\'', false))
    else if IsU(c) && Pair(sql, i + 1, '&', '"') && !AfterIdent(sql, i) then
      Token(" qi ", QuotedEnd(sql, i + 3, '"', false))
    else if c == '"' then Token(" qi ", QuotedEnd(sql, i + 1, '"', false))
    else plain
  }

  function Scan(sql: string, i: nat): string
    requires i <= |sql|
    decreases |sql| - i
  {
    if i == |sql| then "" else TokenAt(sql, i).out + Scan(sql, TokenAt(sql, i).end)
  }

  // ---- collapsing white space --------------------------------------------------------------------

  function SkipSpace(s: string): (r: string)
    ensures |r| <= |s| && (r != [] ==> !Space(r[0]))
  {
    if s != [] && Space(s[0]) then SkipSpace(s[1..]) else s
  }

  /** Every run of white space becomes one blank. */
  function Squeeze(s: string): string
    decreases |s|
  {
    if s == [] then [] else if Space(s[0]) then " " + Squeeze(SkipSpace(s[1..])) else [s[0]] + Squeeze(s[1..])
  }

  /** White space around a dot disappears. */
  function Undot(s: string): string
    decreases |s|
  {
    var r := SkipSpace(s);
    if s == [] then []
    else if r != [] && r[0] == '.' then "." + Undot(SkipSpace(r[1..]))
    else [s[0]] + Undot(s[1..])
  }

  function Collapse(s: string): string { Undot(Squeeze(s)) }
}
