/**
  The lexical grammar the scanner is measured against, and the proof that the scanner agrees with it.
 */
module SqlGrammar {
  import opened SqlScanner

  /** Inside quotes: a character, a doubled quote, or (in an E string) a backslash pair. */
  datatype QuoteItem = Ch(c: char) | Doubled | Escaped(c: char)

  /** Inside a block comment: a character, or a whole comment. */
  datatype CommentItem = Plain(c: char) | Nested(body: seq<CommentItem>)

  datatype Piece =
    | Code(c: char)
    | LineComment(text: string)
    | BlockComment(body: seq<CommentItem>)
    | Str(items: seq<QuoteItem>)
    | EStr(e: char, items: seq<QuoteItem>)
    | Dollar(tag: string, text: string)
    | Ident(items: seq<QuoteItem>)
    | UIdent(u: char, items: seq<QuoteItem>)
    // opened and not closed before the text ends
    | OpenComment(text: string)
    | OpenStr(text: string)
    | OpenEStr(e: char, text: string)
    | OpenIdent(text: string)
    | OpenUIdent(u: char, text: string)

  function QuoteText(items: seq<QuoteItem>, mark: char): string {
    if items == [] then "" else ItemChars(items[0], mark) + QuoteText(items[1..], mark)
  }

  function ItemChars(item: QuoteItem, mark: char): string {
    match item case Ch(c) => [c] case Doubled => [mark, mark] case Escaped(c) => ['\\', c]
  }

  function CommentText(body: seq<CommentItem>): string
    decreases body, 1
  {
    if body == [] then "" else ItemText(body[0]) + CommentText(body[1..])
  }

  function ItemText(item: CommentItem): string
    decreases item, 0
  {
    match item
    case Plain(c) => [c]
    case Nested(body) => "/*" + CommentText(body) + "*/"
  }

  /** The opening and the closing of a dollar quote. */
  function Fence(tag: string): (f: string)
    ensures |f| == |tag| + 2
  {
    "$" + tag + "$"
  }

  function Text(p: Piece): string {
    match p
    case Code(c) => [c]
    case LineComment(t) => "--" + t
    case BlockComment(body) => "/*" + CommentText(body) + "*/"
    case Str(items) => "'" + (QuoteText(items, '\'') + "'")
    case EStr(e, items) => [e, '\''] + (QuoteText(items, '\'') + "'")
    case Dollar(tag, t) => Fence(tag) + (t + Fence(tag))
    case Ident(items) => "\"" + (QuoteText(items, '"') + "\"")
    case UIdent(u, items) => [u, '&', '"'] + (QuoteText(items, '"') + "\"")
    case OpenComment(t) => "/*" + t
    case OpenStr(t) => "'" + t
    case OpenEStr(e, t) => [e, '\''] + t
    case OpenIdent(t) => "\"" + t
    case OpenUIdent(u, t) => [u, '&', '"'] + t
  }

  /** The neutral form: a comment is a blank, a string is an empty string, a quoted name is `qi`. */
  function Neutral(p: Piece): string {
    match p
    case Code(c) => [c]
    case LineComment(_) => " "
    case BlockComment(_) => " "
    case Str(_) => " '' "
    case EStr(_, _) => " '' "
    case Dollar(_, _) => " '' "
    case Ident(_) => " qi "
    case UIdent(_, _) => " qi "
    case OpenComment(_) => " "
    case OpenStr(_) => " '' "
    case OpenEStr(_, _) => " '' "
    case OpenIdent(_) => " qi "
    case OpenUIdent(_, _) => " qi "
  }

  function Neutrals(ps: seq<Piece>): string {
    if ps == [] then "" else Neutral(ps[0]) + Neutrals(ps[1..])
  }

  // ---- well-formed pieces in their place ---------------------------------------------------------

  predicate QuoteOk(items: seq<QuoteItem>, mark: char, escape: bool) {
    forall i :: 0 <= i < |items| ==>
      match items[i]
      case Ch(c) => c != mark && (escape ==> c != '\\')
      case Doubled => true
      case Escaped(_) => escape
  }

  /** No character of the comment begins a comment delimiter of its own. */
  ghost predicate CommentOk(sql: string, j: nat, body: seq<CommentItem>)
    decreases body
  {
    body != [] ==>
      && (match body[0]
          case Plain(_) => !Pair(sql, j, '/', '*') && !Pair(sql, j, '*', '/')
          case Nested(inner) => CommentOk(sql, j + 2, inner))
      && CommentOk(sql, j + |ItemText(body[0])|, body[1..])
  }

  predicate TagOk(tag: string) {
    tag == "" || (TagStart(tag[0]) && forall i :: 0 <= i < |tag| ==> TagChar(tag[i]))
  }

  predicate NotNext(sql: string, i: nat, c: char) {
    i < |sql| ==> sql[i] != c
  }

  /** No reading of what follows the opening quote comes to a closing one. */
  ghost predicate NeverCloses(sql: string, k: nat, mark: char, escape: bool) {
    forall items :: QuoteOk(items, mark, escape) && At(sql, k, QuoteText(items, mark) + [mark]) ==>
      !NotNext(sql, k + |QuoteText(items, mark)| + 1, mark)
  }

  ghost predicate NoneBefore(sql: string, close: string, from: nat, n: nat) {
    forall k :: from <= k < from + n ==> !At(sql, k, close)
  }

  /** The dollar quote opened by this tag has its closing tag. */
  ghost predicate DollarCloses(sql: string, i: nat, tag: string) {
    exists k: nat :: i + |tag| + 2 <= k && At(sql, k, Fence(tag))
  }

  /** `p` is a piece of the text at i: an E, U& or $ opener does not continue an identifier, a quote is
      not doubled by what follows, a code character opens nothing that is closed or runs to the end of the text. */
  ghost predicate PieceAt(sql: string, i: nat, p: Piece) {
    && At(sql, i, Text(p))
    && var end := i + |Text(p)|;
       match p
       case Code(c) =>
         && c != '\'' && c != '"' && !Pair(sql, i, '-', '-') && !Pair(sql, i, '/', '*')
         && (c == '$' && !AfterIdent(sql, i) ==>
               forall tag :: TagOk(tag) && At(sql, i, Fence(tag)) ==> !DollarCloses(sql, i, tag))
         && (IsE(c) && !AfterIdent(sql, i) ==> NotNext(sql, i + 1, '\''))
         && (IsU(c) && !AfterIdent(sql, i) ==> !Pair(sql, i + 1, '&', '"'))
       case LineComment(t) =>
         (forall k :: 0 <= k < |t| ==> !Newline(t[k])) && (end < |sql| ==> Newline(sql[end]))
       case BlockComment(body) => CommentOk(sql, i + 2, body)
       case Str(items) => QuoteOk(items, '\'', false) && NotNext(sql, end, '\'')
       case EStr(e, items) =>
         IsE(e) && !AfterIdent(sql, i) && QuoteOk(items, '\'', true) && NotNext(sql, end, '\'')
       case Dollar(tag, t) => TagOk(tag) && !AfterIdent(sql, i) && NoneBefore(sql, Fence(tag), i + |tag| + 2, |t|)
       case Ident(items) => QuoteOk(items, '"', false) && NotNext(sql, end, '"')
       case UIdent(u, items) =>
         IsU(u) && !AfterIdent(sql, i) && QuoteOk(items, '"', false) && NotNext(sql, end, '"')
       case OpenComment(_) =>
         end == |sql| && forall body :: CommentOk(sql, i + 2, body) ==> !At(sql, i, "/*" + CommentText(body) + "*/")
       case OpenStr(_) => end == |sql| && NeverCloses(sql, i + 1, '\'', false)
       case OpenEStr(e, _) => end == |sql| && IsE(e) && !AfterIdent(sql, i) && NeverCloses(sql, i + 2, '\'', true)
       case OpenIdent(_) => end == |sql| && NeverCloses(sql, i + 1, '"', false)
       case OpenUIdent(u, _) => end == |sql| && IsU(u) && !AfterIdent(sql, i) && NeverCloses(sql, i + 3, '"', false)
  }

  /** Where piece k starts. */
  function Offset(ps: seq<Piece>, k: nat): nat
    requires k <= |ps|
  {
    if k == 0 then 0 else Offset(ps, k - 1) + |Text(ps[k - 1])|
  }

  /** The text is exactly these pieces, one after the other. */
  ghost predicate Lexed(sql: string, ps: seq<Piece>) {
    && Offset(ps, |ps|) == |sql|
    && forall k: nat :: k < |ps| ==> Placed(sql, ps, k)
  }

  ghost predicate Placed(sql: string, ps: seq<Piece>, k: nat)
    requires k < |ps|
  {
    PieceAt(sql, Offset(ps, k), ps[k])
  }

  // ---- the scanner finds the end of each piece ---------------------------------------------------

  lemma AtSplit(sql: string, i: nat, a: string, b: string)
    requires At(sql, i, a + b)
    ensures At(sql, i, a) && At(sql, i + |a|, b)
  {
    var ab := a + b;
    assert forall k :: 0 <= k < |a| ==> ab[k] == a[k];
    forall k | 0 <= k < |b|
      ensures sql[i + |a| + k] == b[k]
    {
      assert sql[i + (|a| + k)] == ab[|a| + k];
    }
  }

  lemma AtPair(sql: string, i: nat, t: string)
    requires |t| == 2 && At(sql, i, t)
    ensures Pair(sql, i, t[0], t[1])
  {
    assert sql[i + 0] == t[0] && sql[i + 1] == t[1];
  }

  /** The scan of a quote ends at a closing quote. */
  predicate Closes(sql: string, k: nat, mark: char, escape: bool)
    decreases |sql| - k
  {
    if k >= |sql| then false
    else if escape && sql[k] == '\\' then Closes(sql, k + 2, mark, escape)
    else if sql[k] != mark then Closes(sql, k + 1, mark, escape)
    else if Pair(sql, k, mark, mark) then Closes(sql, k + 2, mark, escape)
    else true
  }

  /** The items are what stands between k and a closing quote. */
  ghost predicate Holds(sql: string, k: nat, items: seq<QuoteItem>, mark: char, escape: bool) {
    && QuoteOk(items, mark, escape) && At(sql, k, QuoteText(items, mark) + [mark])
    && NotNext(sql, k + |QuoteText(items, mark)| + 1, mark)
  }

  lemma {:induction false} QuoteEnds(sql: string, k: nat, items: seq<QuoteItem>, mark: char, escape: bool)
    requires Holds(sql, k, items, mark, escape) && mark != '\\'
    ensures QuotedEnd(sql, k, mark, escape) == k + |QuoteText(items, mark)| + 1 && Closes(sql, k, mark, escape)
    decreases items
  {
    if items != [] {
      HoldsRest(sql, k, items, mark, escape);
      QuoteEnds(sql, k + |ItemChars(items[0], mark)|, items[1..], mark, escape);
      QuoteStep(sql, k, items[0], mark, escape);
    } else {
      assert sql[k + 0] == (QuoteText(items, mark) + [mark])[0];
    }
  }

  lemma HoldsRest(sql: string, k: nat, items: seq<QuoteItem>, mark: char, escape: bool)
    requires Holds(sql, k, items, mark, escape) && items != []
    ensures At(sql, k, ItemChars(items[0], mark)) && QuoteOk([items[0]], mark, escape)
    ensures Holds(sql, k + |ItemChars(items[0], mark)|, items[1..], mark, escape)
  {
    var one, rest := ItemChars(items[0], mark), QuoteText(items[1..], mark);
    assert QuoteText(items, mark) + [mark] == one + (rest + [mark]);
    AtSplit(sql, k, one, rest + [mark]);
  }

  lemma QuoteStep(sql: string, k: nat, item: QuoteItem, mark: char, escape: bool)
    requires At(sql, k, ItemChars(item, mark)) && QuoteOk([item], mark, escape) && mark != '\\'
    ensures QuotedEnd(sql, k, mark, escape) == QuotedEnd(sql, k + |ItemChars(item, mark)|, mark, escape)
    ensures Closes(sql, k, mark, escape) == Closes(sql, k + |ItemChars(item, mark)|, mark, escape)
  {
    var one := ItemChars(item, mark);
    assert [item][0] == item && sql[k + 0] == one[0];
    if |one| == 2 {
      AtPair(sql, k, one);
    }
  }

  /** The scan of a comment comes to its end. */
  predicate Shut(sql: string, j: nat, depth: nat)
    decreases |sql| - j
  {
    if depth == 0 then true
    else if j >= |sql| then false
    else if Pair(sql, j, '/', '*') then Shut(sql, j + 2, depth + 1)
    else if Pair(sql, j, '*', '/') then Shut(sql, j + 2, depth - 1)
    else Shut(sql, j + 1, depth)
  }

  lemma {:induction false} CommentSkipped(sql: string, j: nat, body: seq<CommentItem>, depth: nat)
    requires CommentOk(sql, j, body) && At(sql, j, CommentText(body)) && depth > 0
    ensures BlockEnd(sql, j, depth) == BlockEnd(sql, j + |CommentText(body)|, depth)
    ensures Shut(sql, j, depth) == Shut(sql, j + |CommentText(body)|, depth)
    decreases body, 1
  {
    if body != [] {
      AtSplit(sql, j, ItemText(body[0]), CommentText(body[1..]));
      CommentSkipped(sql, j + |ItemText(body[0])|, body[1..], depth);
      match body[0]
      case Plain(_) =>
      case Nested(inner) => NestedSkipped(sql, j, inner, depth);
    }
  }

  lemma {:induction false} NestedSkipped(sql: string, j: nat, inner: seq<CommentItem>, depth: nat)
    requires CommentOk(sql, j + 2, inner) && At(sql, j, ItemText(Nested(inner)))
    ensures Pair(sql, j, '/', '*')
    ensures BlockEnd(sql, j + 2, depth + 1) == BlockEnd(sql, j + |ItemText(Nested(inner))|, depth)
    ensures Shut(sql, j + 2, depth + 1) == Shut(sql, j + |ItemText(Nested(inner))|, depth)
    decreases inner, 2
  {
    var t := CommentText(inner);
    AtSplit(sql, j, "/*" + t, "*/");
    AtSplit(sql, j, "/*", t);
    CommentSkipped(sql, j + 2, inner, depth + 1);
    AtPair(sql, j, "/*");
    AtPair(sql, j + 2 + |t|, "*/");
  }

  lemma {:induction false} LineEnds(sql: string, j: nat, t: string)
    requires At(sql, j, t) && (forall k :: 0 <= k < |t| ==> !Newline(t[k]))
    requires j + |t| < |sql| ==> Newline(sql[j + |t|])
    ensures LineEnd(sql, j) == j + |t|
    decreases t
  {
    if t != "" {
      assert sql[j + 0] == t[0];
      forall k | 0 <= k < |t[1..]|
        ensures sql[j + 1 + k] == t[1..][k]
      {
        assert sql[j + (k + 1)] == t[k + 1];
      }
      LineEnds(sql, j + 1, t[1..]);
    }
  }

  lemma {:induction false} TagEnds(sql: string, j: nat, tag: string)
    requires At(sql, j, tag + "$") && (forall k :: 0 <= k < |tag| ==> TagChar(tag[k]))
    ensures TagEnd(sql, j) == j + |tag|
    decreases tag
  {
    assert sql[j + 0] == (tag + "$")[0];
    if tag != "" {
      assert tag + "$" == tag[..1] + (tag[1..] + "$");
      AtSplit(sql, j, tag[..1], tag[1..] + "$");
      TagEnds(sql, j + 1, tag[1..]);
    }
  }

  lemma {:induction false} TagRead(sql: string, j: nat)
    requires j <= |sql|
    ensures forall k :: j <= k < TagEnd(sql, j) ==> TagChar(sql[k])
    decreases |sql| - j
  {
    if j < |sql| && TagChar(sql[j]) {
      TagRead(sql, j + 1);
    }
  }

  lemma {:induction false} FoundFirst(sql: string, t: string, from: nat, k: nat)
    requires from <= k && At(sql, k, t) && forall m :: from <= m < k ==> !At(sql, m, t)
    ensures Find(sql, t, from) == k
    decreases k - from
  {
    if from < k {
      assert !At(sql, from, t);
      FoundFirst(sql, t, from + 1, k);
    }
  }

  lemma DollarOpened(sql: string, i: nat, tag: string)
    requires TagOk(tag) && At(sql, i, Fence(tag))
    ensures DollarOpens(sql, i) && TagEnd(sql, i + 1) == i + 1 + |tag|
    ensures sql[i..i + |tag| + 2] == Fence(tag)
  {
    var open := Fence(tag);
    assert open == "$" + (tag + "$");
    AtSplit(sql, i, "$", tag + "$");
    TagEnds(sql, i + 1, tag);
    assert sql[i + 0] == open[0] && sql[i + (|tag| + 1)] == open[|tag| + 1];
    assert tag != "" ==> sql[i + 1] == open[1] == tag[0];
  }

  lemma DollarScanned(sql: string, i: nat, tag: string, t: string, open: string)
    requires i <= |sql| && open == Fence(tag) && TagOk(tag) && !AfterIdent(sql, i)
    requires At(sql, i, open + (t + open)) && NoneBefore(sql, open, i + |open|, |t|)
    ensures i < |sql| && TokenAt(sql, i) == Token(" '' ", i + |open| + |t| + |open|)
  {
    AtSplit(sql, i, open, t + open);
    AtSplit(sql, i + |open|, t, open);
    DollarOpened(sql, i, tag);
    FoundFirst(sql, open, i + |open|, i + |open| + |t|);
    DollarToken(sql, i);
  }

  lemma DollarToken(sql: string, i: nat)
    requires i < |sql| && DollarOpens(sql, i) && !AfterIdent(sql, i)
    ensures var start := TagEnd(sql, i + 1) + 1;
            var k := Find(sql, sql[i..start], start);
            k <= |sql| ==> TokenAt(sql, i) == Token(" '' ", k + (start - i))
  {
  }

  lemma OpenedTag(sql: string, i: nat) returns (tag: string)
    requires i < |sql| && DollarOpens(sql, i)
    ensures TagOk(tag) && At(sql, i, Fence(tag))
  {
    tag := sql[i + 1..TagEnd(sql, i + 1)];
    TagRead(sql, i + 1);
  }

  lemma CodeScanned(sql: string, i: nat, c: char)
    requires PieceAt(sql, i, Code(c))
    ensures TokenAt(sql, i) == Token([c], i + 1)
  {
    assert sql[i + 0] == [c][0];
    if c == '$' && !AfterIdent(sql, i) && DollarOpens(sql, i) {
      var tag := OpenedTag(sql, i);
      DollarOpened(sql, i, tag);
      assert !DollarCloses(sql, i, tag);
      var start := TagEnd(sql, i + 1) + 1;
      var k := Find(sql, sql[i..start], start);
      assert k == |sql| + 1;
    }
  }

  lemma LineScanned(sql: string, i: nat, t: string)
    requires At(sql, i, "--" + t) && (forall k :: 0 <= k < |t| ==> !Newline(t[k]))
    requires i + 2 + |t| < |sql| ==> Newline(sql[i + 2 + |t|])
    ensures i < |sql| && TokenAt(sql, i) == Token(" ", i + 2 + |t|)
  {
    AtSplit(sql, i, "--", t);
    AtPair(sql, i, "--");
    LineEnds(sql, i + 2, t);
  }

  lemma BlockScanned(sql: string, i: nat, body: seq<CommentItem>)
    requires At(sql, i, ItemText(Nested(body))) && CommentOk(sql, i + 2, body)
    ensures i < |sql| && TokenAt(sql, i) == Token(" ", i + |ItemText(Nested(body))|)
  {
    NestedSkipped(sql, i, body, 0);
  }

  lemma QuotedEnds(sql: string, i: nat, open: string, items: seq<QuoteItem>, mark: char, escape: bool)
    requires QuoteOk(items, mark, escape) && mark != '\\'
    requires At(sql, i, open + (QuoteText(items, mark) + [mark]))
    requires NotNext(sql, i + |open| + |QuoteText(items, mark)| + 1, mark)
    ensures At(sql, i, open) && QuotedEnd(sql, i + |open|, mark, escape) == i + |open| + |QuoteText(items, mark)| + 1
  {
    AtSplit(sql, i, open, QuoteText(items, mark) + [mark]);
    QuoteEnds(sql, i + |open|, items, mark, escape);
  }

  lemma StrScanned(sql: string, i: nat, p: Piece)
    requires PieceAt(sql, i, p) && (p.Str? || p.Ident?)
    ensures TokenAt(sql, i) == Token(Neutral(p), i + |Text(p)|)
  {
    var mark := if p.Str? then '\'' else '"';
    QuotedEnds(sql, i, [mark], p.items, mark, false);
    assert sql[i + 0] == [mark][0];
  }

  lemma EStrScanned(sql: string, i: nat, p: Piece)
    requires PieceAt(sql, i, p) && p.EStr?
    ensures TokenAt(sql, i) == Token(Neutral(p), i + |Text(p)|)
  {
    QuotedEnds(sql, i, [p.e, '\''], p.items, '\'', true);
    AtPair(sql, i, [p.e, '\'']);
  }

  lemma UIdentScanned(sql: string, i: nat, p: Piece)
    requires PieceAt(sql, i, p) && p.UIdent?
    ensures TokenAt(sql, i) == Token(Neutral(p), i + |Text(p)|)
  {
    var open := [p.u, '&', '"'];
    QuotedEnds(sql, i, open, p.items, '"', false);
    assert sql[i + 0] == open[0] && sql[i + 1] == open[1] && sql[i + 2] == open[2];
  }

  // ---- what is never closed runs to the end of the text --------------------------------------------

  lemma AtJoin(sql: string, i: nat, a: string, b: string)
    requires At(sql, i, a) && At(sql, i + |a|, b)
    ensures At(sql, i, a + b)
  {
    var ab := a + b;
    forall k | 0 <= k < |ab|
      ensures sql[i + k] == ab[k]
    {
      if k >= |a| {
        assert sql[i + |a| + (k - |a|)] == b[k - |a|];
      }
    }
  }

  lemma {:induction false} QuoteRuns(sql: string, k: nat, mark: char, escape: bool)
    requires !Closes(sql, k, mark, escape)
    ensures QuotedEnd(sql, k, mark, escape) == |sql|
    decreases |sql| - k
  {
    if k < |sql| {
      if escape && sql[k] == '\\' {
        QuoteRuns(sql, k + 2, mark, escape);
      } else if sql[k] != mark {
        QuoteRuns(sql, k + 1, mark, escape);
      } else {
        QuoteRuns(sql, k + 2, mark, escape);
      }
    }
  }

  /** What a closed quote holds. */
  lemma {:induction false} QuoteReads(sql: string, k: nat, mark: char, escape: bool) returns (items: seq<QuoteItem>)
    requires Closes(sql, k, mark, escape) && mark != '\\'
    ensures Holds(sql, k, items, mark, escape)
    decreases |sql| - k
  {
    if sql[k] == mark && !Pair(sql, k, mark, mark) {
      items := [];
    } else {
      var item := if escape && sql[k] == '\\' then Escaped(sql[k + 1]) else if sql[k] != mark then Ch(sql[k]) else Doubled;
      var rest := QuoteReads(sql, k + |ItemChars(item, mark)|, mark, escape);
      QuoteMore(sql, k, item, rest, mark, escape);
      items := [item] + rest;
    }
  }

  lemma QuoteMore(sql: string, k: nat, item: QuoteItem, rest: seq<QuoteItem>, mark: char, escape: bool)
    requires At(sql, k, ItemChars(item, mark)) && QuoteOk([item], mark, escape)
    requires Holds(sql, k + |ItemChars(item, mark)|, rest, mark, escape)
    ensures Holds(sql, k, [item] + rest, mark, escape)
  {
    var items := [item] + rest;
    assert items[1..] == rest && [item][0] == item;
    AtJoin(sql, k, ItemChars(item, mark), QuoteText(rest, mark) + [mark]);
    assert QuoteText(items, mark) + [mark] == ItemChars(item, mark) + (QuoteText(rest, mark) + [mark]);
  }

  lemma NeverClosesRuns(sql: string, k: nat, mark: char, escape: bool)
    requires NeverCloses(sql, k, mark, escape) && mark != '\\'
    ensures QuotedEnd(sql, k, mark, escape) == |sql|
  {
    if Closes(sql, k, mark, escape) {
      var items := QuoteReads(sql, k, mark, escape);
    } else {
      QuoteRuns(sql, k, mark, escape);
    }
  }

  /** What a closed comment holds; one that is not closed runs to the end. */
  lemma {:induction false} CommentReads(sql: string, j: nat) returns (body: seq<CommentItem>, closed: bool)
    requires j <= |sql|
    ensures closed ==> CommentOk(sql, j, body) && At(sql, j, CommentText(body) + "*/")
    ensures !closed ==> forall depth: nat :: depth > 0 ==> !Shut(sql, j, depth) && BlockEnd(sql, j, depth) == |sql|
    decreases |sql| - j
  {
    body, closed := [], false;
    if j < |sql| {
      if Pair(sql, j, '*', '/') {
        closed := true;
      } else if Pair(sql, j, '/', '*') {
        var inner, c := CommentReads(sql, j + 2);
        if c {
          body, closed := CommentNested(sql, j, inner);
        }
      } else {
        var rest, c := CommentReads(sql, j + 1);
        closed := c;
        if c {
          body := [Plain(sql[j])] + rest;
          CommentMore(sql, j, Plain(sql[j]), rest);
        }
      }
    }
  }

  lemma {:induction false} CommentNested(sql: string, j: nat, inner: seq<CommentItem>) returns (body: seq<CommentItem>, closed: bool)
    requires Pair(sql, j, '/', '*') && CommentOk(sql, j + 2, inner) && At(sql, j + 2, CommentText(inner) + "*/")
    ensures closed ==> CommentOk(sql, j, body) && At(sql, j, CommentText(body) + "*/")
    ensures !closed ==> forall depth: nat :: depth > 0 ==> !Shut(sql, j, depth) && BlockEnd(sql, j, depth) == |sql|
    decreases |sql| - j, 0
  {
    var item := Nested(inner);
    var t := ItemText(item);
    AtJoin(sql, j, "/*", CommentText(inner) + "*/");
    assert t == "/*" + (CommentText(inner) + "*/");
    var rest, c := CommentReads(sql, j + |t|);
    body, closed := [item] + rest, c;
    if c {
      CommentMore(sql, j, item, rest);
    } else {
      forall depth: nat | depth > 0
        ensures !Shut(sql, j, depth) && BlockEnd(sql, j, depth) == |sql|
      {
        NestedSkipped(sql, j, inner, depth);
      }
    }
  }

  lemma CommentMore(sql: string, j: nat, item: CommentItem, rest: seq<CommentItem>)
    requires At(sql, j, ItemText(item)) && CommentOk(sql, j + |ItemText(item)|, rest) && At(sql, j + |ItemText(item)|, CommentText(rest) + "*/")
    requires match item
             case Plain(_) => !Pair(sql, j, '/', '*') && !Pair(sql, j, '*', '/')
             case Nested(inner) => CommentOk(sql, j + 2, inner)
    ensures CommentOk(sql, j, [item] + rest) && At(sql, j, CommentText([item] + rest) + "*/")
  {
    var body := [item] + rest;
    assert body[0] == item && body[1..] == rest;
    AtJoin(sql, j, ItemText(item), CommentText(rest) + "*/");
    assert CommentText(body) + "*/" == ItemText(item) + (CommentText(rest) + "*/");
  }

  lemma CommentRuns(sql: string, i: nat)
    requires At(sql, i, "/*") && forall body :: CommentOk(sql, i + 2, body) ==> !At(sql, i, "/*" + CommentText(body) + "*/")
    ensures BlockEnd(sql, i + 2, 1) == |sql|
  {
    var body, closed := CommentReads(sql, i + 2);
    if closed {
      AtSplit(sql, i + 2, CommentText(body), "*/");
      AtJoin(sql, i, "/*", CommentText(body));
      AtJoin(sql, i, "/*" + CommentText(body), "*/");
    }
  }

  lemma OpenCommentScanned(sql: string, i: nat, p: Piece)
    requires PieceAt(sql, i, p) && p.OpenComment?
    ensures TokenAt(sql, i) == Token(" ", i + |Text(p)|) && |Text(p)| > 0
  {
    AtSplit(sql, i, "/*", p.text);
    AtPair(sql, i, "/*");
    CommentRuns(sql, i);
  }

  lemma OpenStrScanned(sql: string, i: nat, p: Piece)
    requires PieceAt(sql, i, p) && (p.OpenStr? || p.OpenIdent?)
    ensures TokenAt(sql, i) == Token(Neutral(p), i + |Text(p)|) && |Text(p)| > 0
  {
    var mark := if p.OpenStr? then '\'' else '"';
    AtSplit(sql, i, [mark], p.text);
    assert sql[i + 0] == [mark][0];
    NeverClosesRuns(sql, i + 1, mark, false);
  }

  lemma OpenEStrScanned(sql: string, i: nat, p: Piece)
    requires PieceAt(sql, i, p) && p.OpenEStr?
    ensures TokenAt(sql, i) == Token(Neutral(p), i + |Text(p)|) && |Text(p)| > 0
  {
    AtSplit(sql, i, [p.e, '\''], p.text);
    AtPair(sql, i, [p.e, '\'']);
    NeverClosesRuns(sql, i + 2, '\'', true);
  }

  lemma OpenUIdentScanned(sql: string, i: nat, p: Piece)
    requires PieceAt(sql, i, p) && p.OpenUIdent?
    ensures TokenAt(sql, i) == Token(Neutral(p), i + |Text(p)|) && |Text(p)| > 0
  {
    var open := [p.u, '&', '"'];
    AtSplit(sql, i, open, p.text);
    assert sql[i + 0] == open[0] && sql[i + 1] == open[1] && sql[i + 2] == open[2];
    NeverClosesRuns(sql, i + 3, '"', false);
  }

  lemma PieceScanned(sql: string, i: nat, p: Piece)
    requires PieceAt(sql, i, p)
    ensures i < i + |Text(p)| <= |sql| && TokenAt(sql, i) == Token(Neutral(p), i + |Text(p)|)
  {
    match p
    case Code(c) => CodeScanned(sql, i, c);
    case LineComment(t) => LineScanned(sql, i, t);
    case BlockComment(body) =>
      assert Text(p) == ItemText(Nested(body));
      BlockScanned(sql, i, body);
    case Dollar(tag, t) =>
      DollarScanned(sql, i, tag, t, Fence(tag));
    case EStr(_, _) => EStrScanned(sql, i, p);
    case UIdent(_, _) => UIdentScanned(sql, i, p);
    case OpenComment(_) => OpenCommentScanned(sql, i, p);
    case OpenStr(_) => OpenStrScanned(sql, i, p);
    case OpenEStr(_, _) => OpenEStrScanned(sql, i, p);
    case OpenIdent(_) => OpenStrScanned(sql, i, p);
    case OpenUIdent(_, _) => OpenUIdentScanned(sql, i, p);
    case _ => StrScanned(sql, i, p);
  }

  /** The scanner passes piece k, from its start to the start of the next. */
  ghost predicate Passes(sql: string, offs: seq<nat>, ps: seq<Piece>, k: nat)
    requires k < |ps| && |offs| == |ps| + 1
  {
    offs[k] < |sql| && TokenAt(sql, offs[k]) == Token(Neutral(ps[k]), offs[k + 1])
  }

  lemma PlacedPasses(sql: string, offs: seq<nat>, ps: seq<Piece>, k: nat)
    requires k < |ps| && |offs| == |ps| + 1 && offs[k] == Offset(ps, k) && offs[k + 1] == Offset(ps, k + 1) && Placed(sql, ps, k)
    ensures Passes(sql, offs, ps, k)
  {
    PieceScanned(sql, offs[k], ps[k]);
  }

  lemma {:induction false} ScanFrom(sql: string, offs: seq<nat>, ps: seq<Piece>, k: nat)
    requires k <= |ps| && |offs| == |ps| + 1 && offs[|ps|] == |sql|
    requires forall m: nat :: m < |ps| ==> Passes(sql, offs, ps, m)
    ensures offs[k] <= |sql| && Scan(sql, offs[k]) == Neutrals(ps[k..])
    decreases |ps| - k
  {
    if k < |ps| {
      assert Passes(sql, offs, ps, k);
      ScanFrom(sql, offs, ps, k + 1);
      assert ps[k..][0] == ps[k] && ps[k..][1..] == ps[k + 1..];
    }
  }

  /** The scanner emits exactly the neutral forms of the pieces, whatever their bodies contain. */
  lemma ScanIsNeutral(sql: string, ps: seq<Piece>)
    requires Lexed(sql, ps)
    ensures Scan(sql, 0) == Neutrals(ps)
  {
    var offs := seq(|ps| + 1, k requires 0 <= k <= |ps| => Offset(ps, k));
    forall k: nat | k < |ps|
      ensures Passes(sql, offs, ps, k)
    {
      PlacedPasses(sql, offs, ps, k);
    }
    ScanFrom(sql, offs, ps, 0);
    assert ps[0..] == ps;
  }

  // ---- every text has pieces ---------------------------------------------------------------------

  lemma AtSlice(sql: string, i: nat, j: nat)
    requires i <= j <= |sql|
    ensures At(sql, i, sql[i..j])
  {
  }

  lemma {:induction false} LineRead(sql: string, j: nat)
    requires j <= |sql|
    ensures forall k :: j <= k < LineEnd(sql, j) ==> !Newline(sql[k])
    ensures LineEnd(sql, j) < |sql| ==> Newline(sql[LineEnd(sql, j)])
    decreases |sql| - j
  {
    if j < |sql| && !Newline(sql[j]) {
      LineRead(sql, j + 1);
    }
  }

  lemma LineIsPiece(sql: string, i: nat) returns (p: Piece)
    requires Pair(sql, i, '-', '-')
    ensures PieceAt(sql, i, p)
  {
    LineRead(sql, i + 2);
    var t := sql[i + 2..LineEnd(sql, i + 2)];
    AtSlice(sql, i + 2, LineEnd(sql, i + 2));
    AtJoin(sql, i, "--", t);
    p := LineComment(t);
  }

  lemma BlockIsPiece(sql: string, i: nat) returns (p: Piece)
    requires Pair(sql, i, '/', '*')
    ensures PieceAt(sql, i, p)
  {
    var body, closed := CommentReads(sql, i + 2);
    if closed {
      p := BlockComment(body);
      AtJoin(sql, i, "/*", CommentText(body) + "*/");
      assert Text(p) == "/*" + (CommentText(body) + "*/");
    } else {
      p := OpenComment(sql[i + 2..]);
      AtSlice(sql, i + 2, |sql|);
      AtJoin(sql, i, "/*", sql[i + 2..]);
      forall inner | CommentOk(sql, i + 2, inner)
        ensures !At(sql, i, "/*" + CommentText(inner) + "*/")
      {
        if At(sql, i, "/*" + CommentText(inner) + "*/") {
          NestedSkipped(sql, i, inner, 0);
        }
      }
    }
  }

  lemma NotClosed(sql: string, k: nat, mark: char, escape: bool)
    requires !Closes(sql, k, mark, escape) && mark != '\\'
    ensures NeverCloses(sql, k, mark, escape)
  {
    forall items | QuoteOk(items, mark, escape) && At(sql, k, QuoteText(items, mark) + [mark])
      ensures !NotNext(sql, k + |QuoteText(items, mark)| + 1, mark)
    {
      if NotNext(sql, k + |QuoteText(items, mark)| + 1, mark) {
        QuoteEnds(sql, k, items, mark, escape);
      }
    }
  }

  // a quoted piece, closed or open

  lemma StrIsPiece(sql: string, i: nat) returns (p: Piece)
    requires i < |sql| && sql[i] == '\''
    ensures PieceAt(sql, i, p)
  {
    var open := "'";
    if Closes(sql, i + 1, '\'', false) {
      var items := QuoteReads(sql, i + 1, '\'', false);
      AtJoin(sql, i, open, QuoteText(items, '\'') + ['\'']);
      p := Str(items);
    } else {
      NotClosed(sql, i + 1, '\'', false);
      AtSlice(sql, i + 1, |sql|);
      AtJoin(sql, i, open, sql[i + 1..]);
      p := OpenStr(sql[i + 1..]);
    }
  }

  lemma IdentIsPiece(sql: string, i: nat) returns (p: Piece)
    requires i < |sql| && sql[i] == '"'
    ensures PieceAt(sql, i, p)
  {
    var open := "\"";
    if Closes(sql, i + 1, '"', false) {
      var items := QuoteReads(sql, i + 1, '"', false);
      AtJoin(sql, i, open, QuoteText(items, '"') + ['"']);
      p := Ident(items);
    } else {
      NotClosed(sql, i + 1, '"', false);
      AtSlice(sql, i + 1, |sql|);
      AtJoin(sql, i, open, sql[i + 1..]);
      p := OpenIdent(sql[i + 1..]);
    }
  }

  lemma EStrIsPiece(sql: string, i: nat) returns (p: Piece)
    requires i + 1 < |sql| && IsE(sql[i]) && sql[i + 1] == '\'' && !AfterIdent(sql, i)
    ensures PieceAt(sql, i, p)
  {
    var open := [sql[i], '\''];
    if Closes(sql, i + 2, '\'', true) {
      var items := QuoteReads(sql, i + 2, '\'', true);
      AtJoin(sql, i, open, QuoteText(items, '\'') + ['\'']);
      p := EStr(sql[i], items);
    } else {
      NotClosed(sql, i + 2, '\'', true);
      AtSlice(sql, i + 2, |sql|);
      AtJoin(sql, i, open, sql[i + 2..]);
      p := OpenEStr(sql[i], sql[i + 2..]);
    }
  }

  lemma UIdentIsPiece(sql: string, i: nat) returns (p: Piece)
    requires i < |sql| && IsU(sql[i]) && Pair(sql, i + 1, '&', '"') && !AfterIdent(sql, i)
    ensures PieceAt(sql, i, p)
  {
    var open := [sql[i], '&', '"'];
    if Closes(sql, i + 3, '"', false) {
      var items := QuoteReads(sql, i + 3, '"', false);
      AtJoin(sql, i, open, QuoteText(items, '"') + ['"']);
      p := UIdent(sql[i], items);
    } else {
      NotClosed(sql, i + 3, '"', false);
      AtSlice(sql, i + 3, |sql|);
      AtJoin(sql, i, open, sql[i + 3..]);
      p := OpenUIdent(sql[i], sql[i + 3..]);
    }
  }

  lemma {:induction false} FindIsFirst(sql: string, t: string, from: nat)
    ensures forall m: nat :: from <= m < Find(sql, t, from) ==> !At(sql, m, t)
    decreases |sql| - from
  {
    if from <= |sql| && !At(sql, from, t) {
      FindIsFirst(sql, t, from + 1);
    }
  }

  /** A dollar sign that does not continue an identifier: a closed dollar quote, or a character like any other. */
  lemma DollarIsPiece(sql: string, i: nat) returns (p: Piece)
    requires i < |sql| && sql[i] == '$' && !AfterIdent(sql, i)
    ensures PieceAt(sql, i, p)
  {
    p := Code('$');
    if DollarOpens(sql, i) {
      var tag := OpenedTag(sql, i);
      var open := Fence(tag);
      DollarOpened(sql, i, tag);
      var start := i + |open|;
      var k := Find(sql, open, start);
      FindIsFirst(sql, open, start);
      if k <= |sql| {
        p := DollarClosed(sql, i, tag, k);
      } else {
        OnlyTag(sql, i, tag);
      }
    } else {
      forall tag | TagOk(tag)
        ensures !At(sql, i, Fence(tag))
      {
        if At(sql, i, Fence(tag)) {
          DollarOpened(sql, i, tag);
        }
      }
    }
  }

  lemma DollarClosed(sql: string, i: nat, tag: string, k: nat) returns (p: Piece)
    requires i <= |sql| && TagOk(tag) && !AfterIdent(sql, i) && i + |tag| + 2 <= k && At(sql, i, Fence(tag)) && At(sql, k, Fence(tag))
    requires forall m: nat :: i + |tag| + 2 <= m < k ==> !At(sql, m, Fence(tag))
    ensures PieceAt(sql, i, p)
  {
    var open := Fence(tag);
    var t := sql[i + |open|..k];
    AtSlice(sql, i + |open|, k);
    AtJoin(sql, i + |open|, t, open);
    AtJoin(sql, i, open, t + open);
    p := Dollar(tag, t);
  }

  /** The tag that opens at a position is unique. */
  lemma OnlyTag(sql: string, i: nat, tag: string)
    requires i < |sql| && TagOk(tag) && At(sql, i, Fence(tag)) && !DollarCloses(sql, i, tag)
    ensures forall other :: TagOk(other) && At(sql, i, Fence(other)) ==> !DollarCloses(sql, i, other)
  {
    DollarOpened(sql, i, tag);
    forall other | TagOk(other) && At(sql, i, Fence(other))
      ensures other == tag
    {
      DollarOpened(sql, i, other);
      assert (Fence(other))[1..|other| + 1] == other && (Fence(tag))[1..|tag| + 1] == tag;
    }
  }

  lemma AnyPiece(sql: string, i: nat) returns (p: Piece)
    requires i < |sql|
    ensures PieceAt(sql, i, p)
  {
    var c := sql[i];
    var free := !AfterIdent(sql, i);
    if Pair(sql, i, '-', '-') {
      p := LineIsPiece(sql, i);
    } else if Pair(sql, i, '/', '*') {
      p := BlockIsPiece(sql, i);
    } else if c == '$' && free {
      p := DollarIsPiece(sql, i);
    } else if IsE(c) && i + 1 < |sql| && sql[i + 1] == '\'' && free {
      p := EStrIsPiece(sql, i);
    } else if c == '\'' {
      p := StrIsPiece(sql, i);
    } else if IsU(c) && Pair(sql, i + 1, '&', '"') && free {
      p := UIdentIsPiece(sql, i);
    } else if c == '"' {
      p := IdentIsPiece(sql, i);
    } else {
      p := Code(c);
    }
  }

  lemma {:induction false} OffsetSnoc(ps: seq<Piece>, p: Piece, k: nat)
    requires k <= |ps|
    ensures Offset(ps + [p], k) == Offset(ps, k)
  {
    if k > 0 {
      OffsetSnoc(ps, p, k - 1);
      assert (ps + [p])[k - 1] == ps[k - 1];
    }
  }

  lemma LexedOneMore(sql: string, ps: seq<Piece>, p: Piece)
    requires (forall k: nat :: k < |ps| ==> Placed(sql, ps, k)) && PieceAt(sql, Offset(ps, |ps|), p)
    ensures forall k: nat :: k < |ps| + 1 ==> Placed(sql, ps + [p], k)
    ensures Offset(ps + [p], |ps| + 1) == Offset(ps, |ps|) + |Text(p)|
  {
    forall k: nat | k < |ps| + 1
      ensures Placed(sql, ps + [p], k)
    {
      OffsetSnoc(ps, p, k);
      assert k < |ps| ==> Placed(sql, ps, k);
    }
    OffsetSnoc(ps, p, |ps|);
  }

  /** Every text is a sequence of pieces: whatever the scanner is given, its output is the neutral form of them. */
  lemma EveryTextLexes(sql: string) returns (ps: seq<Piece>)
    ensures Lexed(sql, ps) && Scan(sql, 0) == Neutrals(ps)
  {
    ps := [];
    while Offset(ps, |ps|) < |sql|
      invariant Offset(ps, |ps|) <= |sql| && forall k: nat :: k < |ps| ==> Placed(sql, ps, k)
      decreases |sql| - Offset(ps, |ps|)
    {
      var p := AnyPiece(sql, Offset(ps, |ps|));
      PieceScanned(sql, Offset(ps, |ps|), p);
      LexedOneMore(sql, ps, p);
      ps := ps + [p];
    }
    ScanIsNeutral(sql, ps);
  }
}
