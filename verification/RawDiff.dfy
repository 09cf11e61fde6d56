/**
  The docs-only merge gate over `git diff --raw -z`: a strict parser of the NUL-separated stream, and the
  classification of its entries.  A string stands for bytes; UTF-8 validity is a parameter, and the tests on
  paths look at ASCII bytes only, which UTF-8 leaves as they are.
 */
module RawDiff {
  import opened Options
  import opened Splitting

  datatype Entry = Entry(omode: string, nmode: string, status: string, paths: seq<string>)

  // ---- the parser -----------------------------------------------------------------------------------

  predicate Ascii(s: string) { forall i: nat :: i < |s| ==> s[i] < 128 as char }

  /** How many paths follow an info line. */
  function PathCount(status: string): (n: nat)
    ensures n == 1 || n == 2
  {
    if status != [] && (status[0] == 'R' || status[0] == 'C') then 2 else 1
  }

  /** An info line: a colon, two modes, two object names and a status. */
  predicate IsInfo(t: string) {
    t != [] && t[0] == ':' && |Split(t[1..], ' ')| == 5
    && Ascii(Split(t[1..], ' ')[0]) && Ascii(Split(t[1..], ' ')[1]) && Ascii(Split(t[1..], ' ')[4])
  }

  function Status(t: string): string
    requires IsInfo(t)
  {
    Split(t[1..], ' ')[4]
  }

  predicate Describes(t: string, e: Entry) {
    IsInfo(t) && Split(t[1..], ' ')[0] == e.omode && Split(t[1..], ' ')[1] == e.nmode && Status(t) == e.status
    && |e.paths| == PathCount(e.status)
  }

  ghost predicate AllValid(paths: seq<string>, utf8: string -> bool) {
    forall i: nat :: i < |paths| ==> utf8(paths[i])
  }

  /** The fields of a list of entries, each led by its info line. */
  function Fields(infos: seq<string>, es: seq<Entry>): seq<string>
    requires |infos| == |es|
  {
    if es == [] then [] else [infos[0]] + es[0].paths + Fields(infos[1..], es[1..])
  }

  ghost predicate Reads(infos: seq<string>, es: seq<Entry>, toks: seq<string>, utf8: string -> bool) {
    && |infos| == |es| && Fields(infos, es) == toks
    && forall i: nat :: i < |es| ==> Describes(infos[i], es[i]) && AllValid(es[i].paths, utf8)
  }

  /** The strict grammar of a token list, read from the front. */
  ghost function ParseTokens(toks: seq<string>, utf8: string -> bool): Option<seq<Entry>> {
    if toks == [] then Some([])
    else if !IsInfo(toks[0]) then None
    else
      var n := PathCount(Status(toks[0]));
      if |toks| < 1 + n || !AllValid(toks[1..1 + n], utf8) then None
      else
        var rest := ParseTokens(toks[1 + n..], utf8);
        if rest.None? then None else Some([First(toks)] + rest.value)
  }

  function First(toks: seq<string>): Entry
    requires toks != [] && IsInfo(toks[0]) && |toks| >= 1 + PathCount(Status(toks[0]))
  {
    var fields := Split(toks[0][1..], ' ');
    Entry(fields[0], fields[1], fields[4], toks[1..1 + PathCount(fields[4])])
  }

  ghost function After(done: seq<Entry>, rest: Option<seq<Entry>>): Option<seq<Entry>> {
    if rest.None? then None else Some(done + rest.value)
  }

  /** The tokens of a stream: a final NUL ends the last one. */
  function Tokens(out: string): seq<string> {
    if out == [] then []
    else
      var toks := Split(out, '\0');
      if toks[|toks| - 1] == [] then toks[..|toks| - 1] else toks
  }

  /** parse_raw_z; None is a ValueError. */
  method ParseRawZ(out: string, utf8: string -> bool) returns (r: Option<seq<Entry>>)
    ensures r == ParseTokens(Tokens(out), utf8)
  {
    var toks := Tokens(out);
    var entries: seq<Entry> := [];
    var i := 0;
    StartParse(toks, utf8);
    while i < |toks|
      invariant 0 <= i <= |toks|
      invariant ParseTokens(toks, utf8) == After(entries, ParseTokens(toks[i..], utf8))
    {
      var entry, n := ParseEntry(toks, i, utf8);
      if entry.None? {
        return None;
      }
      StepParse(toks, i, utf8, entries, entry.value, n);
      entries := entries + [entry.value];
      i := i + 1 + n;
    }
    assert ParseTokens(toks[i..], utf8) == Some([]);
    assert entries + [] == entries;
    return Some(entries);
  }

  /** One turn of the loop: an info line and its paths. */
  method ParseEntry(toks: seq<string>, i: nat, utf8: string -> bool) returns (entry: Option<Entry>, n: nat)
    requires i < |toks|
    ensures entry.None? ==> ParseTokens(toks[i..], utf8).None?
    ensures entry.Some? ==> IsInfo(toks[i]) && n == PathCount(Status(toks[i])) && i + 1 + n <= |toks|
                            && AllValid(toks[i + 1..i + 1 + n], utf8) && entry.value == First(toks[i..])
  {
    n := 0;
    var t := toks[i];
    if !IsInfo(t) {
      return None, 0;
    }
    n := PathCount(Status(t));
    if |toks| - i < 1 + n {
      return None, n;
    }
    var raw := toks[i + 1..i + 1 + n];
    assert toks[i..][1..1 + n] == raw;
    var ok := DecodePaths(raw, utf8);
    entry := if ok then Some(First(toks[i..])) else None;
  }

  method DecodePaths(raw: seq<string>, utf8: string -> bool) returns (ok: bool)
    ensures ok <==> AllValid(raw, utf8)
  {
    for k := 0 to |raw|
      invariant forall j: nat :: j < k ==> utf8(raw[j])
    {
      if !utf8(raw[k]) {
        return false;
      }
    }
    return true;
  }

  lemma StartParse(toks: seq<string>, utf8: string -> bool)
    ensures ParseTokens(toks, utf8) == After([], ParseTokens(toks[0..], utf8))
  {
    assert toks[0..] == toks;
    if ParseTokens(toks, utf8).Some? {
      assert [] + ParseTokens(toks, utf8).value == ParseTokens(toks, utf8).value;
    }
  }

  lemma StepParse(toks: seq<string>, i: nat, utf8: string -> bool, entries: seq<Entry>, entry: Entry, n: nat)
    requires i < |toks| && IsInfo(toks[i]) && n == PathCount(Status(toks[i])) && i + 1 + n <= |toks|
    requires AllValid(toks[i + 1..i + 1 + n], utf8) && entry == First(toks[i..])
    ensures After(entries, ParseTokens(toks[i..], utf8)) == After(entries + [entry], ParseTokens(toks[i + 1 + n..], utf8))
  {
    var rest := toks[i..];
    assert rest[1..1 + n] == toks[i + 1..i + 1 + n] && rest[1 + n..] == toks[i + 1 + n..];
    var tail := ParseTokens(toks[i + 1 + n..], utf8);
    if tail.Some? {
      assert entries + ([entry] + tail.value) == entries + [entry] + tail.value;
    }
  }

  lemma Regroup(toks: seq<string>, n: nat)
    requires 1 + n <= |toks|
    ensures [toks[0]] + toks[1..1 + n] + toks[1 + n..] == toks
  {
  }

  /** Whenever the parser succeeds, the fields of its entries are the whole stream: each field belongs to exactly
      one entry, as its info line or as one of its paths. */
  lemma {:induction false} ParseIsComplete(toks: seq<string>, utf8: string -> bool) returns (infos: seq<string>)
    requires ParseTokens(toks, utf8).Some?
    ensures Reads(infos, ParseTokens(toks, utf8).value, toks, utf8)
  {
    if toks == [] {
      infos := [];
    } else {
      var n := PathCount(Status(toks[0]));
      var rest := ParseIsComplete(toks[1 + n..], utf8);
      var es := ParseTokens(toks, utf8).value;
      infos := [toks[0]] + rest;
      assert es[1..] == ParseTokens(toks[1 + n..], utf8).value && infos[1..] == rest;
      Regroup(toks, n);
      forall i: nat | i < |es|
        ensures Describes(infos[i], es[i]) && AllValid(es[i].paths, utf8)
      {
        if i > 0 {
          assert es[i] == es[1..][i - 1] && infos[i] == rest[i - 1];
        }
      }
    }
  }

  /** And it succeeds on everything of that shape, with the entries it was made from. */
  lemma {:induction false} ParseReads(infos: seq<string>, es: seq<Entry>, toks: seq<string>, utf8: string -> bool)
    requires Reads(infos, es, toks, utf8)
    ensures ParseTokens(toks, utf8) == Some(es)
    decreases |es|
  {
    if es != [] {
      assert Describes(infos[0], es[0]) && AllValid(es[0].paths, utf8);
      var n := |es[0].paths|;
      var rest := Fields(infos[1..], es[1..]);
      assert toks[0] == infos[0] && toks[1..1 + n] == es[0].paths && toks[1 + n..] == rest;
      assert First(toks) == es[0];
      forall i: nat | i < |es[1..]|
        ensures Describes(infos[1..][i], es[1..][i]) && AllValid(es[1..][i].paths, utf8)
      {
        assert Describes(infos[i + 1], es[i + 1]);
      }
      ParseReads(infos[1..], es[1..], rest, utf8);
      assert [es[0]] + es[1..] == es;
    }
  }

  // ---- the printer ----------------------------------------------------------------------------------

  /** An entry together with the object names the parser drops. */
  datatype Printed = Printed(entry: Entry, osha: string, nsha: string)

  function InfoLine(p: Printed): string {
    ":" + Join([p.entry.omode, p.entry.nmode, p.osha, p.nsha, p.entry.status], ' ')
  }

  predicate Plain(s: string) { ' ' !in s && '\0' !in s }

  ghost predicate Printable(p: Printed, utf8: string -> bool) {
    && Plain(p.entry.omode) && Plain(p.entry.nmode) && Plain(p.osha) && Plain(p.nsha) && Plain(p.entry.status)
    && Ascii(p.entry.omode) && Ascii(p.entry.nmode) && Ascii(p.entry.status)
    && |p.entry.paths| == PathCount(p.entry.status) && AllValid(p.entry.paths, utf8)
    && forall i: nat :: i < |p.entry.paths| ==> '\0' !in p.entry.paths[i]
  }

  function Entries(ps: seq<Printed>): seq<Entry> { seq(|ps|, i requires 0 <= i < |ps| => ps[i].entry) }

  function Infos(ps: seq<Printed>): seq<string> { seq(|ps|, i requires 0 <= i < |ps| => InfoLine(ps[i])) }

  /** Each field followed by a NUL. */
  function Terminated(toks: seq<string>): string {
    if toks == [] then [] else toks[0] + ['\0'] + Terminated(toks[1..])
  }

  function Print(ps: seq<Printed>): string { Terminated(Fields(Infos(ps), Entries(ps))) }

  lemma {:induction false} SplitTerminated(toks: seq<string>)
    requires forall i: nat :: i < |toks| ==> '\0' !in toks[i]
    ensures Split(Terminated(toks), '\0') == toks + [[]]
  {
    if toks != [] {
      SplitTerminated(toks[1..]);
      SplitFirst(toks[0], Terminated(toks[1..]), '\0');
    }
  }

  lemma TokensOfTerminated(toks: seq<string>)
    requires forall i: nat :: i < |toks| ==> '\0' !in toks[i]
    ensures Tokens(Terminated(toks)) == toks
  {
    SplitTerminated(toks);
  }

  lemma InfoLineDescribes(p: Printed, utf8: string -> bool)
    requires Printable(p, utf8)
    ensures Describes(InfoLine(p), p.entry) && '\0' !in InfoLine(p)
  {
    var parts := [p.entry.omode, p.entry.nmode, p.osha, p.nsha, p.entry.status];
    SplitJoin(parts, ' ');
    assert InfoLine(p)[1..] == Join(parts, ' ');
    JoinKeepsOut(parts, ' ', '\0');
  }

  lemma {:induction false} JoinKeepsOut(parts: seq<string>, sep: char, c: char)
    requires |parts| >= 1 && c != sep && forall i: nat :: i < |parts| ==> c !in parts[i]
    ensures c !in Join(parts, sep)
  {
    if |parts| > 1 {
      JoinKeepsOut(parts[1..], sep, c);
    }
  }

  lemma {:induction false} FieldsHaveNoNul(ps: seq<Printed>, utf8: string -> bool)
    requires forall i: nat :: i < |ps| ==> Printable(ps[i], utf8)
    ensures forall i: nat :: i < |Fields(Infos(ps), Entries(ps))| ==> '\0' !in Fields(Infos(ps), Entries(ps))[i]
  {
    if ps != [] {
      assert Infos(ps)[1..] == Infos(ps[1..]) && Entries(ps)[1..] == Entries(ps[1..]);
      FieldsHaveNoNul(ps[1..], utf8);
      InfoLineDescribes(ps[0], utf8);
    }
  }

  /** The parser inverts the printer. */
  lemma ParseInvertsPrint(ps: seq<Printed>, utf8: string -> bool)
    requires forall i: nat :: i < |ps| ==> Printable(ps[i], utf8)
    ensures ParseTokens(Tokens(Print(ps)), utf8) == Some(Entries(ps))
  {
    var toks := Fields(Infos(ps), Entries(ps));
    FieldsHaveNoNul(ps, utf8);
    TokensOfTerminated(toks);
    forall i: nat | i < |ps|
      ensures Describes(Infos(ps)[i], Entries(ps)[i]) && AllValid(Entries(ps)[i].paths, utf8)
    {
      InfoLineDescribes(ps[i], utf8);
    }
    ParseReads(Infos(ps), Entries(ps), toks, utf8);
  }

  // ---- the gate -------------------------------------------------------------------------------------

  predicate EndsWith(s: string, t: string) { |t| <= |s| && s[|s| - |t|..] == t }

  predicate StartsWith(s: string, t: string) { |t| <= |s| && s[..|t|] == t }

  function Lower(s: string): string {
    seq(|s|, i requires 0 <= i < |s| => if 'A' <= s[i] <= 'Z' then s[i] + 32 as char else s[i])
  }

  const DOC: string := ".md"
  const DENY_DIRS: set<string> :=
    {".github", ".claude", ".codex", ".cursor", ".agents", "rules", "skills", "prompts", "substrate"}
  const DENY_BASENAMES: set<string> := {"CLAUDE.md", "AGENTS.md", "GEMINI.md", "CODEOWNERS", "DESIGN.md", ".cursorrules"}

  function Name(path: string): string {
    var parts := Split(path, '/');
    parts[|parts| - 1]
  }

  predicate DeniedDir(path: string) {
    var parts := Split(path, '/');
    exists i: nat :: i < |parts| - 1 && parts[i] in DENY_DIRS
  }

  predicate DeniedName(base: string) {
    var low := Lower(base);
    || base in DENY_BASENAMES
    || ((StartsWith(low, "copilot") || StartsWith(low, "security")) && EndsWith(low, DOC))
    || EndsWith(low, "-design" + DOC) || EndsWith(low, "-spec" + DOC)
  }

  predicate IsDenylisted(path: string) {
    DeniedDir(path) || DeniedName(Name(path)) || path == "docs/OPERATING.md"
  }

  predicate DocPath(path: string) { EndsWith(path, DOC) && !IsDenylisted(path) }

  /** A whole component of the path that is not its last one, at position i. */
  predicate DirAt(path: string, dir: string, i: nat) {
    i + |dir| < |path| && path[i..i + |dir|] == dir && path[i + |dir|] == '/' && Boundary(path, i)
  }

  predicate Boundary(path: string, i: nat)
    requires i <= |path|
  {
    i == 0 || path[i - 1] == '/'
  }

  /** The file's own name begins at position k. */
  predicate NameAt(path: string, k: nat) {
    k <= |path| && Boundary(path, k) && forall j: nat :: k <= j < |path| ==> path[j] != '/'
  }

  /** The letters are those of the word, in either case. */
  predicate Spells(s: string, word: string) {
    |s| == |word| && forall i: nat :: i < |s| ==> s[i] == word[i] || ('A' <= s[i] <= 'Z' && word[i] == s[i] + 32 as char)
  }

  predicate Opens(name: string, word: string) { |word| <= |name| && Spells(name[..|word|], word) }

  predicate Closes(name: string, word: string) { |word| <= |name| && Spells(name[|name| - |word|..], word) }

  /** A name nobody reads as instructions or as ground truth. */
  predicate InertName(name: string) {
    && name !in DENY_BASENAMES
    && (Opens(name, "copilot") || Opens(name, "security") ==> !Closes(name, DOC))
    && !Closes(name, "-design" + DOC) && !Closes(name, "-spec" + DOC)
  }

  /** An inert document: a Markdown file outside every denied directory, under a name that is not denied. */
  ghost predicate Inert(path: string) {
    && EndsWith(path, DOC) && path != "docs/OPERATING.md"
    && Outside(path, DENY_DIRS) && NamedInert(path)
  }

  predicate LowerCase(word: string) { forall i: nat :: i < |word| ==> !('A' <= word[i] <= 'Z') }

  lemma SpellsLower(s: string, word: string)
    requires LowerCase(word)
    ensures Spells(s, word) <==> Lower(s) == word
  {
    if Spells(s, word) {
      forall i: nat | i < |s|
        ensures Lower(s)[i] == word[i]
      {
        assert !('A' <= word[i] <= 'Z');
      }
    }
    if Lower(s) == word {
      forall i: nat | i < |s|
        ensures s[i] == word[i] || ('A' <= s[i] <= 'Z' && word[i] == s[i] + 32 as char)
      {
        assert word[i] == Lower(s)[i];
      }
    }
  }

  lemma OpensLower(name: string, word: string)
    requires LowerCase(word)
    ensures Opens(name, word) <==> StartsWith(Lower(name), word)
  {
    if |word| <= |name| {
      SpellsLower(name[..|word|], word);
      assert Lower(name)[..|word|] == Lower(name[..|word|]);
    }
  }

  lemma ClosesLower(name: string, word: string)
    requires LowerCase(word)
    ensures Closes(name, word) <==> EndsWith(Lower(name), word)
  {
    if |word| <= |name| {
      SpellsLower(name[|name| - |word|..], word);
      assert Lower(name)[|name| - |word|..] == Lower(name[|name| - |word|..]);
    }
  }

  lemma InertNameByLower(name: string)
    ensures InertName(name) <==> !DeniedName(name)
  {
    OpensLower(name, "copilot");
    OpensLower(name, "security");
    ClosesLower(name, DOC);
    ClosesLower(name, "-design" + DOC);
    ClosesLower(name, "-spec" + DOC);
  }

  predicate NoSlash(parts: seq<string>) { forall i: nat :: i < |parts| ==> '/' !in parts[i] }

  lemma DirAfter(head: string, rest: string, dir: string, k: nat)
    ensures DirAt(head + ['/'] + rest, dir, |head| + 1 + k) <==> DirAt(rest, dir, k)
  {
    var path, at := head + ['/'] + rest, |head| + 1 + k;
    if k + |dir| < |rest| {
      assert path[|head| + 1..] == rest;
      assert path[at..at + |dir|] == rest[k..k + |dir|];
    }
  }

  /** The parts of a path but the last are the directories it lies under. */
  lemma {:induction false} PartIsDir(parts: seq<string>, i: nat) returns (at: nat)
    requires NoSlash(parts) && i + 1 < |parts|
    ensures DirAt(Join(parts, '/'), parts[i], at)
  {
    var path, rest := Join(parts, '/'), Join(parts[1..], '/');
    assert path == parts[0] + ['/'] + rest;
    if i == 0 {
      at := 0;
    } else {
      var k := PartIsDir(parts[1..], i - 1);
      at := |parts[0]| + 1 + k;
      DirAfter(parts[0], rest, parts[i], k);
    }
  }

  lemma {:induction false} DirIsPart(parts: seq<string>, dir: string, at: nat) returns (i: nat)
    requires |parts| >= 1 && NoSlash(parts) && '/' !in dir && DirAt(Join(parts, '/'), dir, at)
    ensures i + 1 < |parts| && parts[i] == dir
  {
    var path := Join(parts, '/');
    if |parts| > 1 {
      var n, rest := |parts[0]|, Join(parts[1..], '/');
      assert path == parts[0] + ['/'] + rest;
      if at == 0 {
        assert path[n] == '/' && path[..|dir|] == dir;
        assert |dir| == n;
        i := 0;
      } else {
        assert at > n by {
          assert forall k: nat :: k < n ==> path[k] == parts[0][k];
        }
        var k: nat := at - n - 1;
        DirAfter(parts[0], rest, dir, k);
        var j := DirIsPart(parts[1..], dir, k);
        i := j + 1;
      }
    }
  }

  /** The last part is the file's own name. */
  lemma {:induction false} LastIsName(parts: seq<string>) returns (at: nat)
    requires |parts| >= 1 && NoSlash(parts)
    ensures NameAt(Join(parts, '/'), at) && Join(parts, '/')[at..] == parts[|parts| - 1]
  {
    if |parts| == 1 {
      at := 0;
    } else {
      var k := LastIsName(parts[1..]);
      var path, rest := Join(parts, '/'), Join(parts[1..], '/');
      assert path == parts[0] + ['/'] + rest;
      at := |parts[0]| + 1 + k;
      assert path[at..] == rest[k..];
    }
  }

  /** Under none of these directories. */
  ghost predicate Outside(path: string, dirs: set<string>) { forall dir, i: nat :: dir in dirs ==> !DirAt(path, dir, i) }

  ghost predicate NamedInert(path: string) { forall k: nat :: NameAt(path, k) ==> InertName(path[k..]) }

  lemma DirsExactly(parts: seq<string>, dirs: set<string>)
    requires |parts| >= 1 && NoSlash(parts) && forall dir :: dir in dirs ==> '/' !in dir
    ensures Outside(Join(parts, '/'), dirs) <==> !exists i: nat :: i < |parts| - 1 && parts[i] in dirs
  {
    var path := Join(parts, '/');
    if i: nat :| i < |parts| - 1 && parts[i] in dirs {
      var at := PartIsDir(parts, i);
    }
    if dir, at: nat :| dir in dirs && DirAt(path, dir, at) {
      var i := DirIsPart(parts, dir, at);
      assert parts[i] in dirs;
    }
  }

  lemma OneName(path: string, j: nat, k: nat)
    requires NameAt(path, j) && NameAt(path, k)
    ensures j == k
  {
  }

  lemma NameFound(path: string) returns (at: nat)
    ensures NameAt(path, at) && path[at..] == Name(path)
  {
    JoinSplit(path, '/');
    at := LastIsName(Split(path, '/'));
  }

  lemma NameExactly(path: string)
    ensures NamedInert(path) <==> InertName(Name(path))
  {
    var at := NameFound(path);
    forall k: nat | NameAt(path, k)
      ensures path[k..] == Name(path)
    {
      OneName(path, k, at);
    }
  }

  /** The path test, by components and lower-cased text, accepts exactly the inert documents. */
  lemma DocPathExactly(path: string)
    ensures DocPath(path) <==> Inert(path)
  {
    assert Outside(path, DENY_DIRS) <==> !DeniedDir(path) by {
      JoinSplit(path, '/');
      DirsExactly(Split(path, '/'), DENY_DIRS);
    }
    NameExactly(path);
    InertNameByLower(Name(path));
  }

  predicate Digits(s: string) { forall i: nat :: i < |s| ==> '0' <= s[i] <= '9' }

  /** The digits write the number, with leading zeros where it is shorter. */
  predicate Writes(digits: string, n: nat) {
    if digits == [] then n == 0
    else digits[|digits| - 1] == "0123456789"[n % 10] && Writes(digits[..|digits| - 1], n / 10)
  }

  /** The status grammar the source documents: A, D or M, or R or C with a score of 0 to 100. */
  ghost predicate StrictStatus(st: string) {
    || st == "A" || st == "D" || st == "M"
    || (2 <= |st| <= 4 && (st[0] == 'R' || st[0] == 'C') && exists n: nat :: n <= 100 && Writes(st[1..], n))
  }

  function Score(digits: string): nat
    requires Digits(digits)
  {
    if digits == [] then 0 else 10 * Score(digits[..|digits| - 1]) + (digits[|digits| - 1] - '0') as nat
  }

  lemma {:induction false} WritesScore(digits: string, n: nat)
    ensures Writes(digits, n) <==> Digits(digits) && Score(digits) == n
  {
    if digits != [] {
      var init, d := digits[..|digits| - 1], digits[|digits| - 1];
      WritesScore(init, n / 10);
      assert "0123456789"[n % 10] == '0' + (n % 10) as char;
      assert Digits(digits) <==> Digits(init) && '0' <= d <= '9' by {
        assert digits == init + [d];
      }
    }
  }

  /** A, D or M bare; R or C with up to three digits. */
  predicate LooseStatus(st: string) {
    st == "A" || st == "D" || st == "M" || (2 <= |st| <= 4 && Scored(st))
  }

  predicate Scored(st: string) {
    st != [] && (st[0] == 'R' || st[0] == 'C') && Digits(st[1..])
  }

  /** What its expression admits: any three digits, and `$` also matches before a final newline. */
  predicate StatusOk(st: string) {
    LooseStatus(st) || (EndsInNewline(st) && LooseStatus(st[..|st| - 1]))
  }

  predicate EndsInNewline(st: string) { st != [] && st[|st| - 1] == '\n' }

  predicate ScoreTooHigh(st: string) { Scored(st) && Score(st[1..]) > 100 }

  const REGULAR: string := "100644"
  const ABSENT: string := "000000"

  predicate ModesOk(e: Entry)
    requires e.status != []
  {
    if e.status[..1] == "A" then e.omode == ABSENT && e.nmode == REGULAR
    else if e.status[..1] == "D" then e.omode == REGULAR && e.nmode == ABSENT
    else e.omode == REGULAR && e.nmode == REGULAR
  }

  /** The mode of one side: a regular file where the change has that side, none otherwise. */
  function Side(present: bool): string { if present then "100644" else "000000" }

  /** Only an addition lacks the old side, only a deletion the new one. */
  predicate TrueModes(omode: string, nmode: string, status: string)
    requires status != []
  {
    omode == Side(status[0] != 'A') && nmode == Side(status[0] != 'D')
  }

  /** What the gate promises of an entry. */
  ghost predicate Safe(e: Entry) {
    StatusOk(e.status) && AllInert(e.paths) && TrueModes(e.omode, e.nmode, e.status)
  }

  ghost predicate AllSafe(es: seq<Entry>) { forall i: nat :: i < |es| ==> Safe(es[i]) }

  ghost predicate AllInert(paths: seq<string>) { forall i: nat :: i < |paths| ==> Inert(paths[i]) }

  method ClassifyPaths(paths: seq<string>) returns (ok: bool)
    ensures ok <==> AllInert(paths)
  {
    for j := 0 to |paths|
      invariant forall k: nat :: k < j ==> Inert(paths[k])
    {
      DocPathExactly(paths[j]);
      if !DocPath(paths[j]) {
        return false;
      }
    }
    return true;
  }

  lemma ModesExactly(e: Entry)
    requires StatusOk(e.status)
    ensures e.status != [] && (ModesOk(e) <==> TrueModes(e.omode, e.nmode, e.status))
  {
    assert e.status[..1] == [e.status[0]];
  }

  /** classify_diff. */
  method ClassifyDiff(entries: seq<Entry>) returns (ok: bool)
    ensures ok <==> entries != [] && AllSafe(entries)
  {
    if entries == [] {
      return false;
    }
    for i := 0 to |entries|
      invariant forall k: nat :: k < i ==> Safe(entries[k])
    {
      var e := entries[i];
      if !StatusOk(e.status) {
        return false;
      }
      ModesExactly(e);
      var inert := ClassifyPaths(e.paths);
      if !inert || !ModesOk(e) {
        return false;
      }
    }
    return true;
  }

  /** A field the gate vouches for: an info line with an accepted status and both modes right for it, or an inert
      document path. */
  ghost predicate Vouched(t: string) {
    || Inert(t)
    || (IsInfo(t) && StatusOk(Status(t)) && TrueModes(Split(t[1..], ' ')[0], Split(t[1..], ' ')[1], Status(t)))
  }

  lemma {:induction false} SafeFields(infos: seq<string>, es: seq<Entry>)
    requires |infos| == |es| && forall i: nat :: i < |es| ==> Describes(infos[i], es[i]) && Safe(es[i])
    ensures forall k: nat :: k < |Fields(infos, es)| ==> Vouched(Fields(infos, es)[k])
  {
    if es != [] {
      var head, rest := [infos[0]] + es[0].paths, Fields(infos[1..], es[1..]);
      SafeFields(infos[1..], es[1..]);
      assert Describes(infos[0], es[0]) && Safe(es[0]);
      assert Vouched(infos[0]);
      forall k: nat | k < |Fields(infos, es)|
        ensures Vouched(Fields(infos, es)[k])
      {
        assert Fields(infos, es) == head + rest;
        if 0 < k < |head| {
          assert head[k] == es[0].paths[k - 1];
        }
      }
    }
  }

  /** The bytes are the fields: nothing of the stream lies outside them. */
  lemma TokensAreTheStream(out: string)
    ensures out == Terminated(Tokens(out)) || out + ['\0'] == Terminated(Tokens(out))
  {
    if out != [] {
      var parts := Split(out, '\0');
      JoinSplit(out, '\0');
      JoinTerminated(parts);
      if parts[|parts| - 1] == [] {
        assert parts == Tokens(out) + [[]];
        TerminatedInit(Tokens(out));
        assert out == (out + ['\0'])[..|out|];
        assert Terminated(Tokens(out)) == (Terminated(Tokens(out)) + ['\0'])[..|out|];
      }
    }
  }

  lemma {:induction false} JoinTerminated(parts: seq<string>)
    requires |parts| >= 1
    ensures Join(parts, '\0') + ['\0'] == Terminated(parts)
  {
    if |parts| > 1 {
      JoinTerminated(parts[1..]);
    }
  }

  lemma {:induction false} TerminatedInit(toks: seq<string>)
    ensures Terminated(toks + [[]]) == Terminated(toks) + ['\0']
  {
    if toks != [] {
      TerminatedInit(toks[1..]);
      assert (toks + [[]])[1..] == toks[1..] + [[]];
    }
  }

  /** The gate's promise reaches the byte stream: when the stream parses and every entry is safe, the stream consists
      of vouched-for fields and nothing else. */
  lemma GateCoversStream(out: string, utf8: string -> bool)
    requires ParseTokens(Tokens(out), utf8).Some?
    requires forall i: nat :: i < |ParseTokens(Tokens(out), utf8).value| ==> Safe(ParseTokens(Tokens(out), utf8).value[i])
    ensures forall k: nat :: k < |Tokens(out)| ==> Vouched(Tokens(out)[k])
    ensures out == Terminated(Tokens(out)) || out + ['\0'] == Terminated(Tokens(out))
  {
    var infos := ParseIsComplete(Tokens(out), utf8);
    SafeFields(infos, ParseTokens(Tokens(out), utf8).value);
    TokensAreTheStream(out);
  }

  /** The two halves together, as the caller runs them: the gate opens exactly for a stream that is a list of safe
      entries, at least one, each printed as its info line and its paths. */
  method Gate(out: string, utf8: string -> bool) returns (ok: bool)
    ensures ok <==> exists infos, es :: Reads(infos, es, Tokens(out), utf8) && es != [] && AllSafe(es)
    ensures ok ==> out != [] && forall k: nat :: k < |Tokens(out)| ==> Vouched(Tokens(out)[k])
  {
    var entries := ParseRawZ(out, utf8);
    forall infos, es | Reads(infos, es, Tokens(out), utf8)
      ensures entries == Some(es)
    {
      ParseReads(infos, es, Tokens(out), utf8);
    }
    if entries.None? {
      return false;
    }
    ghost var infos := ParseIsComplete(Tokens(out), utf8);
    ok := ClassifyDiff(entries.value);
    if ok {
      GateCoversStream(out, utf8);
      assert AllSafe(entries.value);
    }
  }

  /** The status check is the documented grammar, except exactly for a trailing newline and a score above 100. */
  lemma StatusExactly(st: string)
    ensures StatusOk(st) && !EndsInNewline(st) && !ScoreTooHigh(st) <==> StrictStatus(st)
    ensures ScoreTooHigh(st) ==> (StatusOk(st) <==> |st| <= 4)
    ensures EndsInNewline(st) ==>
              (StatusOk(st) <==> StatusOk(st[..|st| - 1]) && !EndsInNewline(st[..|st| - 1]))
  {
    if |st| >= 2 {
      var digits := st[1..];
      assert st[|st| - 1] == digits[|digits| - 1];
      if Digits(digits) {
        WritesScore(digits, Score(digits));
      }
      if n: nat :| n <= 100 && Writes(digits, n) {
        WritesScore(digits, n);
      }
    }
  }

  /** Both escapes are real. */
  lemma StatusEscapes()
    ensures StatusOk("A\n") && !StrictStatus("A\n") && EndsInNewline("A\n")
    ensures StatusOk("R999") && !StrictStatus("R999") && ScoreTooHigh("R999")
  {
    var newline, high := "A\n", "R999";
    assert newline[..1] == "A";
    assert high[1..] == "999";
    assert Score("9") == 9 by { assert "9"[..0] == ""; }
    assert Score("99") == 99 by { assert "99"[..1] == "9"; }
    assert Score("999") == 999 by { assert "999"[..2] == "99"; }
    StatusExactly(newline);
    StatusExactly(high);
  }
}
