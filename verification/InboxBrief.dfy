/**
  From pulled threads to the brief: every thread becomes exactly one item, and every item lands in exactly
  one section or in the noise count.
 */
module InboxBrief {
  import opened Options
  import opened InboxClassify

  /** A pulled thread; `flagged`: its content holds the nonce or a fence marker. */
  datatype Mail = Mail(account: nat, thread: nat, flagged: bool)

  datatype Item = Item(mail: Mail, category: Category, worthy: bool, drafted: bool)

  const MAX_CLASSIFY: nat := 200
  const MAX_CLASSIFY_CALLS: nat := 3
  const MAX_DRAFTS: nat := 5

  function Mails(items: seq<Item>): seq<Mail> {
    seq(|items|, i requires 0 <= i < |items| => items[i].mail)
  }

  lemma MailsAppend(items: seq<Item>, item: Item)
    ensures Mails(items + [item]) == Mails(items) + [item.mail]
  {
  }

  lemma MailsConcat(a: seq<Item>, b: seq<Item>)
    ensures Mails(a + b) == Mails(a) + Mails(b)
  {
  }

  // ---- classify ----------------------------------------------------------------------------------

  /** The item says what the answer says about its thread: its row's category and worth, or unclassified without one. */
  predicate Carries(item: Item, rows: Option<Rows>) {
    && !item.drafted
    && if rows.Some? && item.mail.thread in rows.value
       then item.category == rows.value[item.mail.thread].category && item.worthy == rows.value[item.mail.thread].worthy
       else item.category.Unclassified? && !item.worthy
  }

  function ToItem(mail: Mail, rows: Option<Rows>): (item: Item)
    ensures item.mail == mail && Carries(item, rows)
  {
    if rows.Some? && mail.thread in rows.value
    then Item(mail, rows.value[mail.thread].category, rows.value[mail.thread].worthy, false)
    else Item(mail, Unclassified, false, false)
  }

  ghost predicate AllCarry(items: seq<Item>, rows: Option<Rows>) {
    forall i: nat :: i < |items| ==> Carries(items[i], rows)
  }

  /** One chunk's answer spread over its threads. */
  function Spread(chunk: seq<Mail>, rows: Option<Rows>): (items: seq<Item>)
    ensures Mails(items) == chunk && AllCarry(items, rows)
  {
    seq(|chunk|, i requires 0 <= i < |chunk| => ToItem(chunk[i], rows))
  }

  /** The threads with the flag set, or those without, in order. */
  function Having(threads: seq<Mail>, flag: bool): seq<Mail> {
    if threads == [] then []
    else
      var last := threads[|threads| - 1];
      Having(threads[..|threads| - 1], flag) + if last.flagged == flag then [last] else []
  }

  /** The c-th call's threads. */
  function Chunk(sent: seq<Mail>, c: nat): seq<Mail>
    requires c * MAX_CLASSIFY <= |sent|
  {
    if |sent| - c * MAX_CLASSIFY <= MAX_CLASSIFY then sent[c * MAX_CLASSIFY..]
    else sent[c * MAX_CLASSIFY..(c + 1) * MAX_CLASSIFY]
  }

  ghost predicate ScanGives(raw: string, known: set<nat>, decode: Decoder, rows: Option<Rows>) {
    exists stops: seq<nat>, pos: nat :: Outcome(raw, known, decode, stops, pos, rows)
  }

  /** A call's answer: none without a reply, else what the best-candidate scan makes of the reply. */
  ghost predicate Answered(chunk: seq<Mail>, reply: seq<Mail> -> Option<string>, decode: Decoder, rows: Option<Rows>) {
    && (reply(chunk).None? ==> rows.None?)
    && (reply(chunk).Some? ==> ScanGives(reply(chunk).value, (set m | m in chunk :: m.thread), decode, rows))
    && (rows.Some? ==> AllAnswerable(rows.value))
  }

  type Check = (seq<Mail>, Option<Rows>) -> bool

  ghost function AnswersOf(reply: seq<Mail> -> Option<string>, decode: Decoder): Check {
    (chunk, rows) => Answered(chunk, reply, decode, rows)
  }

  /** So far, one answer per call, and every thread's item carries the answer of its own call. */
  ghost predicate ChunkedSoFar(sent: seq<Mail>, isAnswer: Check, items: seq<Item>, answers: seq<Option<Rows>>) {
    && |items| <= |sent| && Mails(items) == sent[..|items|]
    && |answers| == (|items| + MAX_CLASSIFY - 1) / MAX_CLASSIFY && (|items| == |answers| * MAX_CLASSIFY || |items| == |sent|)
    && (forall c: nat :: c < |answers| ==> CallAnswered(sent, c, isAnswer, answers[c]))
    && AllCarryTheirs(items, answers)
  }

  ghost predicate CallAnswered(sent: seq<Mail>, c: nat, isAnswer: Check, rows: Option<Rows>) {
    c * MAX_CLASSIFY <= |sent| && isAnswer(Chunk(sent, c), rows)
  }

  ghost predicate AllCarryTheirs(items: seq<Item>, answers: seq<Option<Rows>>) {
    forall j: nat :: j < |items| ==> j / MAX_CLASSIFY < |answers| && Carries(items[j], answers[j / MAX_CLASSIFY])
  }

  ghost predicate Chunked(sent: seq<Mail>, isAnswer: Check, items: seq<Item>, answers: seq<Option<Rows>>) {
    |items| == |sent| && ChunkedSoFar(sent, isAnswer, items, answers)
  }

  predicate AllUsable(answers: seq<Option<Rows>>) { forall c: nat :: c < |answers| ==> answers[c].Some? }

  ghost predicate AllSuspicious(items: seq<Item>) {
    forall i: nat :: i < |items| ==> items[i] == Item(items[i].mail, Suspicious, false, false)
  }

  const BUDGET: nat := MAX_CLASSIFY * MAX_CLASSIFY_CALLS

  function Sent(candidates: seq<Mail>): seq<Mail> { if |candidates| > BUDGET then candidates[..BUDGET] else candidates }

  /** The whole classification: the flagged threads as suspicious, the unflagged ones over budget as unclassified,
      and the others by their call's answer. */
  ghost predicate Classified(threads: seq<Mail>, reply: seq<Mail> -> Option<string>, decode: Decoder, items: seq<Item>, answers: seq<Option<Rows>>) {
    var candidates := Having(threads, false);
    var a, b := |Having(threads, true)|, |Having(threads, true)| + |candidates| - |Sent(candidates)|;
    && a <= b <= |items|
    && Mails(items[..a]) == Having(threads, true) && AllSuspicious(items[..a])
    && Mails(items[a..b]) == candidates[|Sent(candidates)|..] && AllCarry(items[a..b], None)
    && Chunked(Sent(candidates), AnswersOf(reply, decode), items[b..], answers)
  }

  /** classify: one item per thread, each as the answers say, within the call budget; the classification is usable
      exactly when every call got rows. */
  method Classify(threads: seq<Mail>, reply: seq<Mail> -> Option<string>, decode: Decoder)
    returns (items: seq<Item>, ok: bool, answers: seq<Option<Rows>>)
    ensures Classified(threads, reply, decode, items, answers) && (ok <==> AllUsable(answers))
    ensures multiset(Mails(items)) == multiset(threads) && |answers| <= MAX_CLASSIFY_CALLS
    ensures forall i: nat :: i < |items| ==> !items[i].drafted
  {
    var flagged, candidates := Screen(threads);
    var over: seq<Item> := [];
    var all := candidates;
    if |candidates| > BUDGET {
      over := Spread(candidates[BUDGET..], None);
      candidates := candidates[..BUDGET];
    }
    var rest;
    rest, ok, answers := ClassifyChunks(candidates, reply, decode);
    items := flagged + over + rest;
    Assembled(flagged, over, rest, threads);
  }

  lemma Assembled(flagged: seq<Item>, over: seq<Item>, rest: seq<Item>, threads: seq<Mail>)
    requires Mails(flagged) == Having(threads, true) && Mails(rest) == Sent(Having(threads, false))
    requires Mails(over) == Having(threads, false)[|Sent(Having(threads, false))|..]
    ensures var items, a, b := flagged + over + rest, |flagged|, |flagged| + |over|;
            items[..a] == flagged && items[a..b] == over && items[b..] == rest && multiset(Mails(items)) == multiset(threads)
  {
    MailsConcat(flagged + over, rest);
    MailsConcat(flagged, over);
    HavingAll(threads);
    var good := Having(threads, false);
    assert good == Sent(good) + good[|Sent(good)|..];
  }

  lemma {:induction false} HavingAll(threads: seq<Mail>)
    ensures multiset(Having(threads, true)) + multiset(Having(threads, false)) == multiset(threads)
  {
    if threads != [] {
      HavingAll(threads[..|threads| - 1]);
      assert threads == threads[..|threads| - 1] + [threads[|threads| - 1]];
    }
  }

  /** One call per chunk; a failed call leaves its chunk unclassified. */
  method ClassifyChunks(candidates: seq<Mail>, reply: seq<Mail> -> Option<string>, decode: Decoder)
    returns (items: seq<Item>, ok: bool, answers: seq<Option<Rows>>)
    ensures Chunked(candidates, AnswersOf(reply, decode), items, answers) && (ok <==> AllUsable(answers))
  {
    ghost var isAnswer := AnswersOf(reply, decode);
    items, ok, answers := [], true, [];
    while |items| < |candidates|
      invariant ChunkedSoFar(candidates, isAnswer, items, answers) && (ok <==> AllUsable(answers))
    {
      var chunk := Chunk(candidates, |answers|);
      var rows := Ask(chunk, reply, decode);
      assert isAnswer(chunk, rows);
      if rows.None? {
        ok := false;
      }
      NextUsable(answers, rows);
      NextChunk(candidates, isAnswer, items, answers, rows);
      items := items + Spread(chunk, rows);
      answers := answers + [rows];
    }
  }

  lemma NextUsable(answers: seq<Option<Rows>>, rows: Option<Rows>)
    ensures AllUsable(answers + [rows]) <==> AllUsable(answers) && rows.Some?
  {
    assert (answers + [rows])[|answers|] == rows;
    assert forall c: nat :: c < |answers| ==> (answers + [rows])[c] == answers[c];
  }

  /** One call: no reply, or whatever rows the best-candidate scan finds in it. */
  method Ask(chunk: seq<Mail>, reply: seq<Mail> -> Option<string>, decode: Decoder) returns (rows: Option<Rows>)
    ensures Answered(chunk, reply, decode, rows)
  {
    var raw := reply(chunk);
    if raw.None? {
      return None;
    }
    var known := set m | m in chunk :: m.thread;
    rows := ParseClassification(raw.value, known, decode);
  }

  lemma NextChunk(sent: seq<Mail>, isAnswer: Check, items: seq<Item>, answers: seq<Option<Rows>>, rows: Option<Rows>)
    requires ChunkedSoFar(sent, isAnswer, items, answers) && |items| < |sent|
    requires isAnswer(Chunk(sent, |answers|), rows)
    ensures |Chunk(sent, |answers|)| > 0
    ensures ChunkedSoFar(sent, isAnswer, items + Spread(Chunk(sent, |answers|), rows), answers + [rows])
  {
    var chunk := Chunk(sent, |answers|);
    MailsConcat(items, Spread(chunk, rows));
    assert sent[..|items| + |chunk|] == sent[..|items|] + chunk;
    assert CallAnswered(sent, |answers|, isAnswer, rows);
    TheirsToo(items, answers, Spread(chunk, rows), rows);
  }

  lemma TheirsToo(items: seq<Item>, answers: seq<Option<Rows>>, more: seq<Item>, rows: Option<Rows>)
    requires AllCarryTheirs(items, answers) && AllCarry(more, rows) && |items| == |answers| * MAX_CLASSIFY && |more| <= MAX_CLASSIFY
    ensures AllCarryTheirs(items + more, answers + [rows])
  {
    var items1, answers1 := items + more, answers + [rows];
    forall j: nat | j < |items1|
      ensures j / MAX_CLASSIFY < |answers1| && Carries(items1[j], answers1[j / MAX_CLASSIFY])
    {
      if j < |items| {
        assert Carries(items[j], answers[j / MAX_CLASSIFY]);
      } else {
        assert Carries(more[j - |items|], rows);
        assert j / MAX_CLASSIFY == |answers|;
      }
    }
  }

  /** Threads with a breakout signal never reach the model: they are suspicious, and the others are its candidates. */
  method Screen(threads: seq<Mail>) returns (items: seq<Item>, candidates: seq<Mail>)
    ensures Mails(items) == Having(threads, true) && AllSuspicious(items) && candidates == Having(threads, false)
  {
    items, candidates := [], [];
    for k := 0 to |threads|
      invariant Mails(items) == Having(threads[..k], true) && AllSuspicious(items) && candidates == Having(threads[..k], false)
    {
      var t := threads[k];
      assert threads[..k + 1][..k] == threads[..k];
      if t.flagged {
        MailsAppend(items, Item(t, Suspicious, false, false));
        items := items + [Item(t, Suspicious, false, false)];
      } else {
        candidates := candidates + [t];
      }
    }
    assert threads[..|threads|] == threads;
  }

  /** What Having picks: a thread is among the flagged, or among the others, as often as it was pulled. */
  lemma {:induction false} HavingExactly(threads: seq<Mail>, flag: bool, m: Mail)
    ensures multiset(Having(threads, flag))[m] == if m.flagged == flag then multiset(threads)[m] else 0
  {
    if threads != [] {
      HavingExactly(threads[..|threads| - 1], flag, m);
      assert threads == threads[..|threads| - 1] + [threads[|threads| - 1]];
    }
  }

  // ---- drafts ------------------------------------------------------------------------------------

  predicate Draftable(c: Category) { c.JobReply? || c.NeedsYou? }

  /** What the sections rely on: only draftable items carry a draft. */
  predicate Laid(item: Item) { item.drafted ==> Draftable(item.category) }

  /** Gmail and the composer: which accounts pulled well, whether a thread has a draft (None: the check failed), and
      whether composing and creating a draft work. */
  datatype Desk = Desk(reachable: nat -> bool, hasDraft: Mail -> Option<bool>, composes: Mail -> bool, creates: Mail -> bool)

  predicate Wanted(item: Item, desk: Desk) { item.worthy && Draftable(item.category) && desk.reachable(item.mail.account) }

  /** The item costs an attempt, if there is budget. */
  predicate Tries(item: Item, desk: Desk) { Wanted(item, desk) && desk.hasDraft(item.mail) == Some(false) }

  function Attempts(items: seq<Item>, desk: Desk): nat {
    if items == [] then 0 else Attempts(items[..|items| - 1], desk) + if Tries(items[|items| - 1], desk) then 1 else 0
  }

  lemma {:induction false} AttemptsGrow(items: seq<Item>, desk: Desk, i: nat)
    requires i <= |items|
    ensures Attempts(items[..i], desk) <= Attempts(items, desk)
  {
    if i < |items| {
      AttemptsGrow(items[..|items| - 1], desk, i);
      assert items[..|items| - 1][..i] == items[..i];
    } else {
      assert items[..i] == items;
    }
  }

  /** The i-th item gets a draft: it wants one, has none, comes while there is budget, and both steps work. */
  predicate GetsDraft(items: seq<Item>, desk: Desk, i: nat)
    requires i < |items|
  {
    Tries(items[i], desk) && Attempts(items[..i], desk) < MAX_DRAFTS && desk.composes(items[i].mail) && desk.creates(items[i].mail)
  }

  /** The i-th item holds its account back: its check fails, or the draft composed for it is not created. */
  predicate Fails(items: seq<Item>, desk: Desk, i: nat)
    requires i < |items|
  {
    && Wanted(items[i], desk) && Attempts(items[..i], desk) < MAX_DRAFTS
    && (desk.hasDraft(items[i].mail).None?
        || (Tries(items[i], desk) && desk.composes(items[i].mail) && !desk.creates(items[i].mail)))
  }

  /** _create_drafts; each attempt costs budget.  `failed` are the accounts whose cursor is held. */
  method CreateDrafts(before: seq<Item>, desk: Desk) returns (items: seq<Item>, failed: set<nat>)
    requires forall i: nat :: i < |before| ==> !before[i].drafted
    ensures |items| == |before|
    ensures forall i: nat :: i < |items| ==> items[i] == before[i].(drafted := GetsDraft(before, desk, i))
    ensures forall a :: a in failed <==> exists i: nat :: i < |before| && before[i].mail.account == a && Fails(before, desk, i)
  {
    items, failed := before, {};
    var attempts := 0;
    for i := 0 to |before|
      invariant |items| == |before| && attempts == Attempts(before[..i], desk) <= MAX_DRAFTS
      invariant forall k: nat :: k < |items| ==> items[k] == before[k].(drafted := k < i && GetsDraft(before, desk, k))
      invariant forall a :: a in failed <==> exists k: nat :: k < i && before[k].mail.account == a && Fails(before, desk, k)
    {
      assert before[..i + 1][..i] == before[..i];
      if items[i].worthy && Draftable(items[i].category) && desk.reachable(items[i].mail.account) {
        if attempts == MAX_DRAFTS {
          BudgetIsSpent(before, desk, i);
          break;
        }
        var has := desk.hasDraft(items[i].mail);
        if has.None? {
          failed := failed + {items[i].mail.account};
        } else if !has.value {
          attempts := attempts + 1;
          if desk.composes(items[i].mail) {
            if desk.creates(items[i].mail) {
              items := items[i := items[i].(drafted := true)];
            } else {
              failed := failed + {items[i].mail.account};
            }
          }
        }
      }
    }
  }

  lemma BudgetIsSpent(items: seq<Item>, desk: Desk, i: nat)
    requires i < |items| && Attempts(items[..i], desk) >= MAX_DRAFTS
    ensures forall k: nat :: i <= k < |items| ==> !GetsDraft(items, desk, k) && !Fails(items, desk, k)
  {
    forall k: nat | i <= k < |items|
      ensures Attempts(items[..k], desk) >= MAX_DRAFTS
    {
      AttemptsGrow(items[..k], desk, i);
      assert items[..k][..i] == items[..i];
    }
  }

  ghost function DraftsTo(items: seq<Item>, desk: Desk, n: nat): set<nat>
    requires n <= |items|
  {
    set i: nat | i < n && GetsDraft(items, desk, i)
  }

  /** Never more than the budget. */
  lemma {:induction false} DraftsWithinBudget(items: seq<Item>, desk: Desk, n: nat)
    requires n <= |items|
    ensures |DraftsTo(items, desk, n)| <= MAX_DRAFTS && |DraftsTo(items, desk, n)| <= Attempts(items[..n], desk)
  {
    if n == 0 {
      assert DraftsTo(items, desk, n) == {};
    } else {
      DraftsWithinBudget(items, desk, n - 1);
      assert items[..n][..n - 1] == items[..n - 1];
      var before := DraftsTo(items, desk, n - 1);
      assert DraftsTo(items, desk, n) == if GetsDraft(items, desk, n - 1) then before + {n - 1} else before;
    }
  }

  // ---- the brief ---------------------------------------------------------------------------------

  datatype Place = NeedsYouList | DraftsWaiting | JobReplies | WaitingList | FyiList | UnclassifiedList | NoiseCount

  /** The section filters, and the noise count. */
  predicate Shown(place: Place, i: Item) {
    match place
    case NeedsYouList => (i.category.NeedsYou? || i.category.Suspicious?) && !i.drafted
    case DraftsWaiting => i.drafted
    case JobReplies => i.category.JobReply? && !i.drafted
    case WaitingList => i.category.WaitingOnMe? && !i.drafted
    case FyiList => i.category.Fyi?
    case UnclassifiedList => i.category.Unclassified?
    case NoiseCount => i.category.Noise?
  }

  function Select(items: seq<Item>, place: Place): seq<Item> {
    if items == [] then []
    else (if Shown(place, items[0]) then [items[0]] else []) + Select(items[1..], place)
  }

  function Places(): seq<Place> {
    [NeedsYouList, DraftsWaiting, JobReplies, WaitingList, FyiList, UnclassifiedList, NoiseCount]
  }

  /** Everything on the brief, section by section. */
  function OnBrief(items: seq<Item>, places: seq<Place>): multiset<Item> {
    if places == [] then multiset{} else multiset(Select(items, places[0])) + OnBrief(items, places[1..])
  }

  /** The place of an item. */
  function PlaceOf(i: Item): Place {
    if i.drafted then DraftsWaiting else
      match i.category
      case JobReply => JobReplies
      case WaitingOnMe => WaitingList
      case NeedsYou => NeedsYouList
      case Fyi => FyiList
      case Noise => NoiseCount
      case Suspicious => NeedsYouList
      case Unclassified => UnclassifiedList
  }

  lemma OnePlace(i: Item)
    requires Laid(i)
    ensures forall p :: Shown(p, i) <==> p == PlaceOf(i)
  {
  }

  /** Adding an item adds it to the places that show it. */
  lemma {:induction false} OnBriefCons(items: seq<Item>, places: seq<Place>)
    requires items != [] && forall i: nat, j: nat :: i < j < |places| ==> places[i] != places[j]
    requires forall p, q :: Shown(p, items[0]) && Shown(q, items[0]) ==> p == q
    ensures OnBrief(items, places)
         == OnBrief(items[1..], places) + (if exists p :: p in places && Shown(p, items[0]) then multiset{items[0]} else multiset{})
    decreases places
  {
    if places != [] {
      var p, rest := places[0], places[1..];
      OnBriefCons(items, rest);
      assert places == [p] + rest;
      if Shown(p, items[0]) {
        assert forall q :: q in rest && Shown(q, items[0]) ==> q == p;
        assert p !in rest;
        assert p in places;
      }
    }
  }

  ghost predicate EveryPlaceOnce(places: seq<Place>) {
    (forall p: Place :: p in places) && forall i: nat, j: nat :: i < j < |places| ==> places[i] != places[j]
  }

  lemma PlacesAreAll()
    ensures EveryPlaceOnce(Places())
  {
    var ps := Places();
    forall p: Place
      ensures p in ps
    {
      match p
      case NeedsYouList => assert ps[0] == p;
      case DraftsWaiting => assert ps[1] == p;
      case JobReplies => assert ps[2] == p;
      case WaitingList => assert ps[3] == p;
      case FyiList => assert ps[4] == p;
      case UnclassifiedList => assert ps[5] == p;
      case NoiseCount => assert ps[6] == p;
    }
  }

  /** Thread conservation: the sections and the noise count together hold each item exactly once. */
  lemma {:induction false} BriefHoldsAll(items: seq<Item>)
    requires forall i :: 0 <= i < |items| ==> Laid(items[i])
    ensures OnBrief(items, Places()) == multiset(items)
  {
    PlacesAreAll();
    PlacesHoldAll(items, Places());
  }

  lemma {:induction false} PlacesHoldAll(items: seq<Item>, places: seq<Place>)
    requires forall i :: 0 <= i < |items| ==> Laid(items[i])
    requires EveryPlaceOnce(places)
    ensures OnBrief(items, places) == multiset(items)
  {
    if items == [] {
      NothingOnBrief(places);
    } else {
      PlacesHoldAll(items[1..], places);
      OneMoreItem(items, places);
      FirstAndRest(items);
    }
  }

  lemma FirstAndRest(items: seq<Item>)
    requires items != []
    ensures multiset(items) == multiset(items[1..]) + multiset{items[0]}
  {
    assert items == [items[0]] + items[1..];
  }

  lemma OneMoreItem(items: seq<Item>, places: seq<Place>)
    requires items != [] && Laid(items[0]) && EveryPlaceOnce(places)
    ensures OnBrief(items, places) == OnBrief(items[1..], places) + multiset{items[0]}
  {
    OnePlace(items[0]);
    assert PlaceOf(items[0]) in places && Shown(PlaceOf(items[0]), items[0]);
    OnBriefCons(items, places);
  }

  lemma {:induction false} NothingOnBrief(places: seq<Place>)
    ensures OnBrief([], places) == multiset{}
  {
    if places != [] {
      NothingOnBrief(places[1..]);
    }
  }

  /** Each place shows exactly the items whose place it is, as often as they occur. */
  lemma {:induction false} PlaceShows(items: seq<Item>, place: Place, item: Item)
    requires forall i :: 0 <= i < |items| ==> Laid(items[i])
    ensures multiset(Select(items, place))[item] == if PlaceOf(item) == place then multiset(items)[item] else 0
  {
    if items != [] {
      PlaceShows(items[1..], place, item);
      OnePlace(items[0]);
      FirstAndRest(items);
    }
  }

  /** From pull to brief: every pulled thread is on the brief or in the noise count exactly once, where the answer
      about it and the draft made for it place it. */
  method PrepareBrief(threads: seq<Mail>, reply: seq<Mail> -> Option<string>, decode: Decoder, desk: Desk)
    returns (items: seq<Item>, ok: bool, failed: set<nat>, ghost classified: seq<Item>, ghost answers: seq<Option<Rows>>)
    ensures multiset(Mails(items)) == multiset(threads) && OnBrief(items, Places()) == multiset(items)
    ensures Classified(threads, reply, decode, classified, answers) && (ok <==> AllUsable(answers)) && |answers| <= MAX_CLASSIFY_CALLS
    ensures |items| == |classified|
    ensures forall i: nat :: i < |items| ==> items[i] == classified[i].(drafted := GetsDraft(classified, desk, i))
    ensures forall a :: a in failed <==> exists i: nat :: i < |classified| && classified[i].mail.account == a && Fails(classified, desk, i)
  {
    var sorted, rows;
    sorted, ok, rows := Classify(threads, reply, decode);
    items, failed := CreateDrafts(sorted, desk);
    classified, answers := sorted, rows;
    assert Mails(items) == Mails(classified);
    BriefHoldsAll(items);
  }
}
