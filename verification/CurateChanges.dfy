/**
  The curator's classification of a staged workspace against the manifest taken at stage-in.
 */
module CurateChanges {
  import opened Options
  import opened Collections
  import opened Promote

  /** One staged path, runtime artefacts already set aside; `valid`: a top-level name that passes the name rule;
      `clean`: its content checks raise nothing. */
  datatype Entry = Entry(name: Name, dir: bool, staged: bool, regular: bool, valid: bool, clean: bool, content: Content)

  datatype Changes = Changes(newFiles: seq<Name>, indexModified: bool, violations: nat)

  function Names(es: seq<Entry>): seq<Name> {
    seq(|es|, i requires 0 <= i < |es| => es[i].name)
  }

  /** Every allowed shape of an entry: a directory stage-in made, an unchanged staged file, a changed index.md,
      or a valid and clean new file. */
  predicate Allowed(e: Entry, manifest: map<Name, Content>) {
    if e.dir then e.staged
    else e.regular && if e.name in manifest then (e.content == manifest[e.name] || (e.name == Index && e.clean))
                      else e.valid && e.clean
  }

  predicate IsNew(e: Entry, manifest: map<Name, Content>) { !e.dir && e.name !in manifest }

  /** The new names, in listing order. */
  function NewNames(es: seq<Entry>, manifest: map<Name, Content>): seq<Name> {
    if es == [] then []
    else NewNames(es[..|es| - 1], manifest) + if IsNew(es[|es| - 1], manifest) then [es[|es| - 1].name] else []
  }

  predicate TouchesIndex(e: Entry, manifest: map<Name, Content>) {
    !e.dir && e.name == Index && Index in manifest && e.content != manifest[Index]
  }

  predicate Present(es: seq<Entry>, n: Name) {
    exists i: nat :: i < |es| && !es[i].dir && es[i].name == n
  }

  /** classify_changes: without violations, the workspace is the manifest plus the new files, except for index.md;
      and a lint run changes nothing. */
  method ClassifyChanges(es: seq<Entry>, manifest: map<Name, Content>, names: seq<Name>, lint: bool) returns (ch: Changes)
    requires NoDup(Names(es)) && (forall n :: n in names <==> n in manifest)
    ensures ch.violations == 0 <==>
            && Additive(es, manifest)
            && (lint ==> NewNames(es, manifest) == [] && forall e :: e in es ==> !TouchesIndex(e, manifest))
    ensures ch.violations == 0 ==> ch.newFiles == NewNames(es, manifest)
    ensures ch.violations == 0 ==> (ch.indexModified <==> exists e :: e in es && TouchesIndex(e, manifest))
  {
    ch := Changes([], false, 0);
    for i := 0 to |names|
      invariant ch == Changes([], false, ch.violations)
      invariant ch.violations == 0 <==> forall k :: 0 <= k < i ==> Present(es, names[k])
    {
      var present := Listed(es, names[i]);
      if !present {
        ch := ch.(violations := ch.violations + 1);
      }
    }
    var missing := ch.violations;
    assert missing == 0 <==> forall n :: n in manifest ==> Present(es, n);
    for i := 0 to |es|
      invariant ch.violations >= missing
      invariant ch.violations == missing <==> forall k :: 0 <= k < i ==> Allowed(es[k], manifest)
      invariant ch.violations == missing ==> ch.newFiles == NewNames(es[..i], manifest)
      invariant ch.violations == missing ==> (ch.indexModified <==> exists k: nat :: k < i && TouchesIndex(es[k], manifest))
    {
      assert es[..i + 1][..i] == es[..i];
      var e := es[i];
      if !Allowed(e, manifest) {
        ch := ch.(violations := ch.violations + 1);
      } else if IsNew(e, manifest) {
        ch := ch.(newFiles := ch.newFiles + [e.name]);
      } else if TouchesIndex(e, manifest) {
        ch := ch.(indexModified := true);
      }
    }
    assert es[..|es|] == es;
    AllowedIsAdditive(es, manifest);
    if lint && (ch.newFiles != [] || ch.indexModified) {
      ch := ch.(violations := ch.violations + 1);
    }
  }

  /** The name is that of a regular file of this content. */
  predicate Holds(es: seq<Entry>, n: Name, content: Content) {
    exists i: nat :: i < |es| && es[i].name == n && !es[i].dir && es[i].regular && es[i].content == content
  }

  /** The workspace by its contents: each staged file but index.md holds what it was staged with; index.md is still
      there, as it was or with checked content; anything else is a checked new file or a staged directory. */
  ghost predicate Additive(es: seq<Entry>, manifest: map<Name, Content>) {
    && (forall n :: n in manifest && n != Index ==> Holds(es, n, manifest[n]))
    && (Index in manifest ==> Holds(es, Index, manifest[Index]) || Rewritten(es))
    && (forall e :: e in es && !e.dir && e.name !in manifest ==> e.regular && e.valid && e.clean)
    && (forall e :: e in es && e.dir ==> e.staged)
  }

  ghost predicate Rewritten(es: seq<Entry>) {
    exists i: nat :: i < |es| && es[i].name == Index && !es[i].dir && es[i].regular && es[i].clean
  }

  lemma SameEntry(es: seq<Entry>, i: nat, j: nat)
    requires NoDup(Names(es)) && i < |es| && j < |es| && es[i].name == es[j].name
    ensures i == j
  {
    assert Names(es)[i] == Names(es)[j];
  }

  /** The entry rules and the check for missing files together say exactly that. */
  lemma AllowedIsAdditive(es: seq<Entry>, manifest: map<Name, Content>)
    requires NoDup(Names(es))
    ensures (forall e :: e in es ==> Allowed(e, manifest)) && (forall n :: n in manifest ==> Present(es, n))
            <==> Additive(es, manifest)
  {
    if (forall e :: e in es ==> Allowed(e, manifest)) && (forall n :: n in manifest ==> Present(es, n)) {
      forall n | n in manifest
        ensures Holds(es, n, manifest[n]) || (n == Index && Rewritten(es))
      {
        var i: nat :| i < |es| && !es[i].dir && es[i].name == n;
        assert es[i] in es;
      }
    }
    if Additive(es, manifest) {
      AdditiveIsAllowed(es, manifest);
    }
  }

  lemma AdditiveIsAllowed(es: seq<Entry>, manifest: map<Name, Content>)
    requires NoDup(Names(es)) && Additive(es, manifest)
    ensures forall e :: e in es ==> Allowed(e, manifest)
    ensures forall n :: n in manifest ==> Present(es, n)
  {
    forall n | n in manifest
      ensures Present(es, n)
      ensures forall k: nat :: k < |es| && es[k].name == n ==> Allowed(es[k], manifest)
    {
      var i: nat :| && i < |es| && es[i].name == n && !es[i].dir && es[i].regular
                    && (es[i].content == manifest[n] || (n == Index && es[i].clean));
      forall k: nat | k < |es| && es[k].name == n
        ensures k == i
      {
        SameEntry(es, i, k);
      }
    }
    forall e | e in es
      ensures Allowed(e, manifest)
    {
      var k: nat :| k < |es| && es[k] == e;
    }
  }

  method Listed(es: seq<Entry>, n: Name) returns (present: bool)
    ensures present <==> Present(es, n)
  {
    for i := 0 to |es|
      invariant forall k: nat :: k < i ==> es[k].dir || es[k].name != n
    {
      if !es[i].dir && es[i].name == n {
        return true;
      }
    }
    return false;
  }

  lemma {:induction false} NewNamesAreNew(es: seq<Entry>, manifest: map<Name, Content>)
    requires NoDup(Names(es))
    ensures forall n :: n in NewNames(es, manifest) <==> n !in manifest && Present(es, n)
    ensures NoDup(NewNames(es, manifest))
  {
    if es != [] {
      var init, last := es[..|es| - 1], es[|es| - 1];
      assert Names(init) == Names(es)[..|es| - 1];
      NewNamesAreNew(init, manifest);
      forall n
        ensures Present(es, n) <==> Present(init, n) || (!last.dir && last.name == n)
      {
        if i: nat :| i < |init| && !init[i].dir && init[i].name == n {
          assert es[i] == init[i];
        }
      }
      forall n | n in NewNames(init, manifest)
        ensures n != last.name
      {
        var i: nat :| i < |init| && !init[i].dir && init[i].name == n;
        assert Names(es)[i] == n && Names(es)[|es| - 1] == last.name;
      }
      NoDupSnoc(NewNames(init, manifest), last.name);
    }
  }

  /** What a compliant classification hands to the promote: no target twice, and none that was staged in, except a
      modified index.md.  So the only existing file a promote may replace is index.md. */
  lemma TargetsAreNewOrIndex(es: seq<Entry>, manifest: map<Name, Content>, ch: Changes, staged: map<Name, Content>)
    requires NoDup(Names(es)) && ch.newFiles == NewNames(es, manifest)
    requires ch.indexModified <==> exists e :: e in es && TouchesIndex(e, manifest)
    ensures var ts := Targets(Job(ch.newFiles, ch.indexModified, staged, None));
            && NoDup(ts)
            && (forall n :: n in ts <==> (n !in manifest && Present(es, n)) || (n == Index && ch.indexModified))
  {
    NewNamesAreNew(es, manifest);
    var ts := Targets(Job(ch.newFiles, ch.indexModified, staged, None));
    forall i: nat, j: nat | i < j < |ts|
      ensures ts[i] != ts[j]
    {
      if j == |ch.newFiles| {
        assert ts[i] in NewNames(es, manifest);
      }
    }
  }
}
