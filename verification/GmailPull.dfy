/**
  Paginated pulls from a mailbox that keeps changing.  Mail may arrive between any two page requests;
  the checkpoint the client returns decides what the next pull will not look at again.
 */
module GmailPull {
  import opened Options
  import opened Collections

  type Thread = nat

  datatype Message = Message(key: nat, thread: Option<Thread>, date: nat)

  datatype LabelChange = LabelChange(inbox: bool, message: Message)

  /** One history record. */
  datatype Event = Event(id: nat, messages: seq<Message>, labels: seq<LabelChange>)

  datatype Page = Page(records: seq<Event>, historyId: Option<nat>, more: bool)

  /** The messages a record brings into the inbox: new ones, and those that get the label. */
  function Entered(e: Event): set<Message> {
    (set m | m in e.messages) + (set l | l in e.labels && l.inbox :: l.message)
  }

  /** The threads the client takes from a record. */
  ghost predicate Shows(e: Event, t: Thread) {
    exists m :: m in Entered(e) && m.thread == Some(t)
  }

  /** The threads hold every change of the mailbox after `from` and up to `upTo`. */
  predicate Whole(log: seq<Event>, from: nat, upTo: nat, threads: set<Thread>) {
    forall k :: 0 <= k < |log| && from < log[k].id <= upTo ==> Holds(threads, Entered(log[k]))
  }

  /** Each of the messages has its thread among these. */
  predicate Holds(threads: set<Thread>, ms: set<Message>) {
    forall m :: m in ms && m.thread.Some? ==> m.thread.value in threads
  }

  function Threads(ms: set<Message>): (ts: set<Thread>)
    ensures Holds(ts, ms) && forall t :: t in ts <==> exists m :: m in ms && m.thread == Some(t)
  {
    set m | m in ms && m.thread.Some? :: m.thread.value
  }

  /** Just the threads of that range. */
  function ShownIn(log: seq<Event>, from: nat, upTo: nat): (ts: set<Thread>)
    ensures Whole(log, from, upTo, ts)
  {
    if log == [] then {}
    else
      var init, e := log[..|log| - 1], log[|log| - 1];
      ShownIn(init, from, upTo) + if from < e.id <= upTo then Threads(Entered(e)) else {}
  }

  ghost predicate PageShows(p: Page, t: Thread) {
    exists i :: 0 <= i < |p.records| && Shows(p.records[i], t)
  }

  function Keep(ts: seq<Thread>, t: Option<Thread>): (r: seq<Thread>)
    ensures NoDup(ts) ==> NoDup(r)
    ensures forall x :: x in r <==> x in ts || Some(x) == t
  {
    if t.Some? && t.value !in ts then ts + [t.value] else ts
  }

  method AddRecord(ts: seq<Thread>, e: Event) returns (r: seq<Thread>)
    requires NoDup(ts)
    ensures NoDup(r) && forall x :: x in r <==> x in ts || Shows(e, x)
  {
    r := AddMessages(ts, e.messages);
    for i := 0 to |e.labels|
      invariant NoDup(r)
      invariant forall x: Thread :: x in r <==> x in ts || InThread(e.messages, x) || Labelled(e.labels, i, x)
    {
      if e.labels[i].inbox {
        r := Keep(r, e.labels[i].message.thread);
      }
    }
    ShownParts(e);
  }

  ghost predicate InThread(ms: seq<Message>, t: Thread) {
    exists i :: 0 <= i < |ms| && ms[i].thread == Some(t)
  }

  /** One of the first n label changes puts a message of the thread into the inbox. */
  ghost predicate Labelled(labels: seq<LabelChange>, n: nat, t: Thread)
    requires n <= |labels|
  {
    exists j :: 0 <= j < n && labels[j].inbox && labels[j].message.thread == Some(t)
  }

  lemma ShownParts(e: Event)
    ensures forall x: Thread :: Shows(e, x) <==> InThread(e.messages, x) || Labelled(e.labels, |e.labels|, x)
  {
    forall x: Thread
      ensures Shows(e, x) <==> InThread(e.messages, x) || Labelled(e.labels, |e.labels|, x)
    {
      if Labelled(e.labels, |e.labels|, x) {
        var j :| 0 <= j < |e.labels| && e.labels[j].inbox && e.labels[j].message.thread == Some(x);
        assert e.labels[j] in e.labels && e.labels[j].message in Entered(e);
      }
      if InThread(e.messages, x) {
        var i :| 0 <= i < |e.messages| && e.messages[i].thread == Some(x);
        assert e.messages[i] in Entered(e);
      }
    }
  }

  method AddMessages(ts: seq<Thread>, ms: seq<Message>) returns (r: seq<Thread>)
    requires NoDup(ts)
    ensures NoDup(r) && forall x :: x in r <==> x in ts || InThread(ms, x)
  {
    r := ts;
    for i := 0 to |ms|
      invariant NoDup(r) && forall x :: x in r <==> x in ts || exists j :: 0 <= j < i && ms[j].thread == Some(x)
    {
      r := Keep(r, ms[i].thread);
    }
  }

  method AddPage(ts: seq<Thread>, p: Page) returns (r: seq<Thread>)
    requires NoDup(ts)
    ensures NoDup(r) && forall x :: x in r <==> x in ts || PageShows(p, x)
  {
    r := ts;
    for i := 0 to |p.records|
      invariant NoDup(r)
      invariant forall x :: x in r <==> x in ts || exists k :: 0 <= k < i && Shows(p.records[k], x)
    {
      r := AddRecord(r, p.records[i]);
    }
  }

  /** pull_since_history over the responses it gets: the checkpoint is the first page's. */
  method PullSinceHistory(start: nat, pages: seq<Page>) returns (threads: seq<Thread>, newId: nat)
    requires |pages| >= 1 && !pages[|pages| - 1].more && forall i :: 0 <= i < |pages| - 1 ==> pages[i].more
    ensures NoDup(threads)
    ensures forall t :: t in threads <==> exists i :: 0 <= i < |pages| && PageShows(pages[i], t)
    ensures newId == if pages[0].historyId.Some? then pages[0].historyId.value else start
    ensures forall logs, cuts :: Serves(start, logs, cuts, pages) ==>
              Whole(logs[|logs| - 1], start, newId, set t | t in threads)
  {
    threads, newId := [], start;
    var k, again := 0, true;
    while again
      invariant 0 <= k <= |pages| && (again ==> k < |pages|) && (!again ==> k == |pages|) && NoDup(threads)
      invariant forall t :: t in threads <==> exists i :: 0 <= i < k && PageShows(pages[i], t)
      invariant newId == if k > 0 && pages[0].historyId.Some? then pages[0].historyId.value else start
      decreases |pages| - k, again
    {
      if k == 0 && pages[0].historyId.Some? {
        newId := pages[0].historyId.value;
      }
      threads := AddPage(threads, pages[k]);
      again := pages[k].more;
      k := k + 1;
    }
    forall logs, cuts | Serves(start, logs, cuts, pages)
      ensures Whole(logs[|logs| - 1], start, newId, set t | t in threads)
    {
      SincePullIsWhole(start, logs, cuts, pages, (set t | t in threads), newId);
    }
  }

  // ---- the mailbox -------------------------------------------------------------------------------

  ghost predicate Increasing(log: seq<Event>) {
    forall i, j :: 0 <= i < j < |log| ==> log[i].id < log[j].id
  }

  /** The mailbox as it was at each request: it only grows. */
  ghost predicate Grows(logs: seq<seq<Event>>) {
    && (forall i :: 0 <= i < |logs| ==> Increasing(logs[i]))
    && (forall i, j :: 0 <= i <= j < |logs| ==> |logs[i]| <= |logs[j]| && logs[j][..|logs[i]|] == logs[i])
  }

  /** `h` separates what the mailbox held from what comes later. */
  ghost predicate Separates(h: nat, log: seq<Event>, later: seq<Event>) {
    && |log| <= |later|
    && (forall k :: 0 <= k < |log| ==> log[k].id <= h)
    && (forall k :: |log| <= k < |later| ==> later[k].id > h)
  }

  /** What the server promises: page i shows the stretch cuts[i]..cuts[i+1] of the mailbox as it is at
      that request, the stretches join, and together they reach at least the end of the mailbox as it
      was at the first request.  What arrived meanwhile may or may not be shown. */
  ghost predicate Serves(start: nat, logs: seq<seq<Event>>, cuts: seq<nat>, pages: seq<Page>) {
    && |logs| == |pages| >= 1 && |cuts| == |pages| + 1 && Grows(logs)
    && (forall k :: 0 <= k < cuts[0] && k < |logs[0]| ==> logs[0][k].id <= start)
    && (forall i :: 0 <= i < |pages| ==> cuts[i] <= cuts[i + 1] <= |logs[i]| && pages[i].records == logs[i][cuts[i]..cuts[i + 1]])
    && |logs[0]| <= cuts[|pages|]
    && (forall i :: 0 <= i < |pages| && pages[i].historyId.Some? ==>
          Separates(pages[i].historyId.value, logs[i], logs[|logs| - 1]))
  }

  /** The page whose stretch holds position k. */
  lemma {:induction false} PageOf(cuts: seq<nat>, n: nat, k: nat) returns (i: nat)
    requires |cuts| == n + 1 && (forall j :: 0 <= j < n ==> cuts[j] <= cuts[j + 1]) && cuts[0] <= k < cuts[n]
    ensures i < n && cuts[i] <= k < cuts[i + 1]
  {
    if cuts[n - 1] <= k {
      i := n - 1;
    } else {
      i := PageOf(cuts[..n], n - 1, k);
    }
  }

  /** The checkpoint was read, in a mailbox that held `profile`, no later than the first page. */
  ghost predicate ReadBefore(profile: seq<Event>, checkpoint: nat, logs: seq<seq<Event>>) {
    && |logs| >= 1 && |profile| <= |logs[0]| && logs[0][..|profile|] == profile
    && Separates(checkpoint, profile, logs[|logs| - 1])
  }

  /** Checkpoint before scan: everything after `since` and up to a checkpoint taken no later than the first
      page request is on some page, whatever arrived in between. */
  lemma CheckpointCovers(profile: seq<Event>, checkpoint: nat, since: nat, logs: seq<seq<Event>>, cuts: seq<nat>, pages: seq<Page>, k: nat, t: Thread)
    requires Serves(since, logs, cuts, pages)
    requires ReadBefore(profile, checkpoint, logs)
    requires k < |logs[|logs| - 1]| && Shows(logs[|logs| - 1][k], t) && since < logs[|logs| - 1][k].id <= checkpoint
    ensures exists i :: 0 <= i < |pages| && PageShows(pages[i], t)
  {
    var last, e := logs[|logs| - 1], logs[|logs| - 1][k];
    assert k < |profile|;
    assert last[..|logs[0]|] == logs[0];
    assert logs[0][k] == e;
    var i := PageOf(cuts, |pages|, k);
    assert last[..|logs[i]|] == logs[i] && logs[i][k] == e;
    assert pages[i].records[k - cuts[i]] == e;
  }

  /** Checkpoint-first pagination loses nothing: every event after `start` and up to the first page's
      history id was shown on some page, whatever arrived in between. */
  lemma FirstPageCheckpointCovers(start: nat, logs: seq<seq<Event>>, cuts: seq<nat>, pages: seq<Page>, k: nat, t: Thread)
    requires Serves(start, logs, cuts, pages) && pages[0].historyId.Some?
    requires k < |logs[|logs| - 1]| && Shows(logs[|logs| - 1][k], t)
    requires start < logs[|logs| - 1][k].id <= pages[0].historyId.value
    ensures exists i :: 0 <= i < |pages| && PageShows(pages[i], t)
  {
    assert logs[0][..|logs[0]|] == logs[0];
    CheckpointCovers(logs[0], pages[0].historyId.value, start, logs, cuts, pages, k, t);
  }

  /** The listed threads hold everything between where the pull began and its checkpoint: this is what the cursor
      relies on when it advances. */
  lemma CheckedPullIsWhole(profile: seq<Event>, checkpoint: nat, since: nat, logs: seq<seq<Event>>, cuts: seq<nat>, pages: seq<Page>, threads: set<Thread>)
    requires Serves(since, logs, cuts, pages) && ReadBefore(profile, checkpoint, logs)
    requires forall t :: t in threads <==> exists i :: 0 <= i < |pages| && PageShows(pages[i], t)
    ensures Whole(logs[|logs| - 1], since, checkpoint, threads)
  {
    var log := logs[|logs| - 1];
    forall k, m | 0 <= k < |log| && since < log[k].id <= checkpoint && m in Entered(log[k]) && m.thread.Some?
      ensures m.thread.value in threads
    {
      CheckpointCovers(profile, checkpoint, since, logs, cuts, pages, k, m.thread.value);
    }
  }

  lemma SincePullIsWhole(start: nat, logs: seq<seq<Event>>, cuts: seq<nat>, pages: seq<Page>, threads: set<Thread>, newId: nat)
    requires Serves(start, logs, cuts, pages)
    requires forall t :: t in threads <==> exists i :: 0 <= i < |pages| && PageShows(pages[i], t)
    requires newId == if pages[0].historyId.Some? then pages[0].historyId.value else start
    ensures Whole(logs[|logs| - 1], start, newId, threads)
  {
    if pages[0].historyId.Some? {
      assert logs[0][..|logs[0]|] == logs[0];
      CheckedPullIsWhole(logs[0], newId, start, logs, cuts, pages, threads);
    }
  }

  /** A change that brings message n of thread t. */
  function Arrival(n: nat, t: Thread): Event { Event(n, [Message(n, Some(t), n)], []) }

  lemma ArrivalShows(n: nat, t: Thread, u: Thread)
    ensures Shows(Arrival(n, t), u) <==> u == t
  {
    assert Message(n, Some(t), n) in Entered(Arrival(n, t));
  }

  /** Three messages arrive, the last one between two page requests. */
  lemma LateArrival() returns (logs: seq<seq<Event>>, cuts: seq<nat>, pages: seq<Page>)
    ensures Serves(0, logs, cuts, pages) && |logs| == 2 && logs[1] == [Arrival(1, 10), Arrival(2, 20), Arrival(3, 30)]
    ensures pages == [Page([Arrival(1, 10)], Some(2), true), Page([Arrival(2, 20)], Some(3), false)]
  {
    var a, b, c := Arrival(1, 10), Arrival(2, 20), Arrival(3, 30);
    logs, cuts := [[a, b], [a, b, c]], [0, 1, 2];
    pages := [Page([a], Some(2), true), Page([b], Some(3), false)];
    assert logs[1][..2] == logs[0] && logs[1][..3] == logs[1] && logs[0][..2] == logs[0];
    assert logs[0][0..1] == [a] && logs[1][1..2] == [b];
  }

  /** A later page's history id would not do: an event it covers was on no page. */
  lemma LaterCheckpointLoses() returns (logs: seq<seq<Event>>, cuts: seq<nat>, pages: seq<Page>, t: Thread)
    ensures Serves(0, logs, cuts, pages) && |pages| == 2 && pages[1].historyId.Some?
    ensures exists k :: 0 <= k < |logs[1]| && 0 < logs[1][k].id <= pages[1].historyId.value && Shows(logs[1][k], t)
    ensures forall i :: 0 <= i < |pages| ==> !PageShows(pages[i], t)
  {
    logs, cuts, pages := LateArrival();
    t := 30;
    ArrivalShows(1, 10, t);
    ArrivalShows(2, 20, t);
    ArrivalShows(3, 30, t);
    assert Shows(logs[1][2], t);
  }

  // ---- the bounded backfill ----------------------------------------------------------------------

  datatype Listing = Listing(messages: seq<Message>, more: bool)

  ghost predicate ListingShows(p: Listing, m: Message) { m in p.messages }

  /** pull_bounded_backfill: the checkpoint is read before the listing, which shows messages and no history. */
  method PullBackfill(checkpoint: nat, pages: seq<Listing>) returns (threads: seq<Thread>, newId: nat)
    requires |pages| >= 1 && !pages[|pages| - 1].more && forall i :: 0 <= i < |pages| - 1 ==> pages[i].more
    ensures NoDup(threads) && newId == checkpoint
    ensures forall t :: t in threads <==> exists i :: 0 <= i < |pages| && InThread(pages[i].messages, t)
    ensures forall since: nat, boxes :: Lists(since, boxes, pages) ==> Holds((set t | t in threads), Staying(since, boxes))
  {
    threads, newId := [], checkpoint;
    var k, again := 0, true;
    while again
      invariant 0 <= k <= |pages| && (again ==> k < |pages|) && (!again ==> k == |pages|) && NoDup(threads)
      invariant forall t :: t in threads <==> exists i :: 0 <= i < k && InThread(pages[i].messages, t)
      decreases |pages| - k, again
    {
      threads := AddMessages(threads, pages[k].messages);
      again := pages[k].more;
      k := k + 1;
    }
    forall since: nat, boxes | Lists(since, boxes, pages)
      ensures Holds((set t | t in threads), Staying(since, boxes))
    {
      StayingIsListed(since, boxes, pages, (set t | t in threads));
    }
  }

  /** The messages dated after `since` that are in the inbox at every request of the listing. */
  function Staying(since: nat, boxes: seq<set<Message>>): set<Message>
    requires |boxes| >= 1
  {
    set m | m in boxes[0] && m.date > since && forall i :: 0 <= i < |boxes| ==> m in boxes[i]
  }

  /** What the server promises: a message dated after `since` that stays in the inbox from the first request to the
      last is on some page, and only messages of the inbox dated after `since` are. */
  ghost predicate Lists(since: nat, boxes: seq<set<Message>>, pages: seq<Listing>) {
    && |boxes| == |pages| >= 1
    && (forall m :: m in Staying(since, boxes) ==> exists i :: 0 <= i < |pages| && ListingShows(pages[i], m))
    && (forall i, m :: 0 <= i < |pages| && m in pages[i].messages ==> m in boxes[i] && m.date > since)
  }

  lemma StayingIsListed(since: nat, boxes: seq<set<Message>>, pages: seq<Listing>, threads: set<Thread>)
    requires Lists(since, boxes, pages)
    requires forall t :: t in threads <==> exists i :: 0 <= i < |pages| && InThread(pages[i].messages, t)
    ensures Holds(threads, Staying(since, boxes))
  {
    forall m | m in Staying(since, boxes) && m.thread.Some?
      ensures m.thread.value in threads
    {
      var i :| 0 <= i < |pages| && ListingShows(pages[i], m);
      var j :| 0 <= j < |pages[i].messages| && pages[i].messages[j] == m;
      assert InThread(pages[i].messages, m.thread.value);
    }
  }

  /** The listing is no history: a message that re-entered the inbox is not shown if it is dated before the window. */
  lemma ReentryIsNotListed() returns (since: nat, boxes: seq<set<Message>>, pages: seq<Listing>, m: Message)
    ensures Lists(since, boxes, pages) && m in boxes[0] && m.thread.Some? && m.date <= since
    ensures forall i :: 0 <= i < |pages| ==> !InThread(pages[i].messages, m.thread.value)
  {
    since, m := 3, Message(1, Some(10), 1);
    boxes, pages := [{m}], [Listing([], false)];
  }
}
