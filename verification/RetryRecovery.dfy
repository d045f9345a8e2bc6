/**
 The retry recovery pass of server.js (`retryDeferredByOrphans`): the eligible jobs of a database are
 read a page at a time behind a stored cursor, and each is dispatched unless it already is.  Job ids stand
 for themselves in their order; None is the empty cursor.
 */
module RetryRecovery {
  import opened Options

  const QUEUE_RETRY_RECOVERY_BATCH := 64

  /** The policy's answers that decide a job for good. */
  const FINAL_ACTIONS: set<string> := {"requeued", "gave_up", "none", "not_eligible", "resume_disabled"}

  type JobId = nat
  type Cursor = Option<JobId>

  // ---------------------------------------------------------------- pages

  predicate Behind(cursor: Cursor, id: JobId) { cursor.None? || id > cursor.value }

  function Above(eligible: set<JobId>, cursor: Cursor): set<JobId> { set id | id in eligible && Behind(cursor, id) }

  function UpTo(eligible: set<JobId>, id: JobId): set<JobId> { set other | other in eligible && other <= id }

  predicate IsLeast(ids: set<JobId>, id: JobId) { id in ids && forall other :: other in ids ==> id <= other }

  lemma {:induction false} LeastAmong(ids: set<JobId>) returns (least: JobId)
    requires ids != {}
    ensures IsLeast(ids, least)
    decreases |ids|
  {
    var id :| id in ids;
    var rest := ids - {id};
    least := id;
    if rest != {} {
      var best := LeastAmong(rest);
      least := if best < id then best else id;
    }
    forall other | other in ids ensures least <= other { assert other == id || other in rest; }
  }

  lemma LeastExists(ids: set<JobId>)
    requires ids != {}
    ensures exists id :: IsLeast(ids, id)
  {
    var id := LeastAmong(ids);
  }

  function Least(ids: set<JobId>): (id: JobId)
    requires ids != {}
    ensures IsLeast(ids, id)
  {
    LeastExists(ids);
    var id :| id in ids && IsLeast(ids, id);
    id
  }

  /** ORDER BY job_id LIMIT n */
  function First(ids: set<JobId>, n: nat): seq<JobId>
    decreases n
  {
    if n == 0 || ids == {} then [] else [Least(ids)] + First(ids - {Least(ids)}, n - 1)
  }

  /** The rows behind the cursor; a cursor past the last row starts over at once. */
  function Window(eligible: set<JobId>, cursor: Cursor): set<JobId> {
    if Above(eligible, cursor) == {} then eligible else Above(eligible, cursor)
  }

  /** The rows a pass reads: one more than a page, to see whether there are more. */
  function Query(eligible: set<JobId>, cursor: Cursor): seq<JobId> { First(Window(eligible, cursor), QUEUE_RETRY_RECOVERY_BATCH + 1) }

  function Page(eligible: set<JobId>, cursor: Cursor): seq<JobId> {
    var rows := Query(eligible, cursor);
    if |rows| > QUEUE_RETRY_RECOVERY_BATCH then rows[..QUEUE_RETRY_RECOVERY_BATCH] else rows
  }

  function NextCursor(eligible: set<JobId>, cursor: Cursor): Cursor {
    var rows := Query(eligible, cursor);
    if |rows| > QUEUE_RETRY_RECOVERY_BATCH then Some(rows[QUEUE_RETRY_RECOVERY_BATCH - 1]) else None
  }

  /** The n smallest, in order. */
  ghost predicate Smallest(ids: set<JobId>, n: nat, rows: seq<JobId>) {
    && |rows| == (if n <= |ids| then n else |ids|)
    && (forall i :: 0 <= i < |rows| ==> rows[i] in ids)
    && Ascending(rows)
    && (forall id, i :: id in ids && id !in rows && 0 <= i < |rows| ==> rows[i] < id)
  }

  lemma {:induction false} FirstIsSmallest(ids: set<JobId>, n: nat)
    ensures Smallest(ids, n, First(ids, n))
    decreases n
  {
    if n > 0 && ids != {} {
      var least := Least(ids);
      var rest := First(ids - {least}, n - 1);
      FirstIsSmallest(ids - {least}, n - 1);
      assert forall id :: id in [least] + rest <==> id == least || id in rest;
    }
  }

  // ---------------------------------------------------------------- coverage

  /** How many pages so many rows take. */
  function Pages(n: nat): nat { (n + QUEUE_RETRY_RECOVERY_BATCH - 1) / QUEUE_RETRY_RECOVERY_BATCH }

  function Between(eligible: set<JobId>, cursor: Cursor, id: JobId): set<JobId> { set other | other in eligible && Behind(cursor, other) && other <= id }

  /** How many more passes a row can go unread. */
  function Need(eligible: set<JobId>, cursor: Cursor, id: JobId): nat {
    if Behind(cursor, id) then Pages(|Between(eligible, cursor, id)|)
    else Pages(|Above(eligible, cursor)|) + Pages(|UpTo(eligible, id)|)
  }

  lemma PagesStep(n: nat)
    requires n > QUEUE_RETRY_RECOVERY_BATCH
    ensures Pages(n) == 1 + Pages(n - QUEUE_RETRY_RECOVERY_BATCH)
  {
  }

  lemma PagesGrow(a: nat, b: nat)
    requires a <= b
    ensures Pages(a) <= Pages(b)
    ensures Pages(a) + Pages(b) <= Pages(a + b) + 1
  {
  }

  lemma {:induction false} SubsetSize(a: set<JobId>, b: set<JobId>)
    requires a <= b
    ensures |a| <= |b|
  {
    if a != {} {
      var k :| k in a;
      SubsetSize(a - {k}, b - {k});
    }
  }

  function Items(rows: seq<JobId>): set<JobId> { set id | id in rows }

  predicate Ascending(rows: seq<JobId>) { forall i, j :: 0 <= i < j < |rows| ==> rows[i] < rows[j] }

  lemma ItemsSnoc(rows: seq<JobId>, id: JobId)
    ensures Items(rows + [id]) == Items(rows) + {id}
  {
  }

  lemma {:induction false} AscendingSize(rows: seq<JobId>)
    requires Ascending(rows)
    ensures |Items(rows)| == |rows|
  {
    if rows != [] {
      var last := |rows| - 1;
      AscendingSize(rows[..last]);
      ItemsSnoc(rows[..last], rows[last]);
      assert rows == rows[..last] + [rows[last]];
      assert rows[last] !in Items(rows[..last]);
    }
  }

  /** What a pass reads of the rows it looks at: the smallest, up to a page. */
  lemma PageIsSmallest(eligible: set<JobId>, cursor: Cursor)
    ensures Smallest(Window(eligible, cursor), QUEUE_RETRY_RECOVERY_BATCH, Page(eligible, cursor))
    ensures NextCursor(eligible, cursor) ==
            if |Window(eligible, cursor)| > QUEUE_RETRY_RECOVERY_BATCH then Some(Page(eligible, cursor)[QUEUE_RETRY_RECOVERY_BATCH - 1]) else None
  {
    var w, rows := Window(eligible, cursor), Query(eligible, cursor);
    FirstIsSmallest(w, QUEUE_RETRY_RECOVERY_BATCH + 1);
    if |rows| > QUEUE_RETRY_RECOVERY_BATCH {
      var page := rows[..QUEUE_RETRY_RECOVERY_BATCH];
      forall id, i | id in w && id !in page && 0 <= i < |page| ensures page[i] < id {
        assert rows == page + [rows[QUEUE_RETRY_RECOVERY_BATCH]];
      }
    }
  }

  /** A full page takes a whole page off what is behind the cursor. */
  lemma PageEnds(rows: set<JobId>, page: seq<JobId>)
    requires |page| == QUEUE_RETRY_RECOVERY_BATCH && Smallest(rows, QUEUE_RETRY_RECOVERY_BATCH, page)
    ensures var last := Some(page[QUEUE_RETRY_RECOVERY_BATCH - 1]);
            rows == Above(rows, last) + Items(page) && Above(rows, last) !! Items(page)
            && |Above(rows, last)| == |rows| - QUEUE_RETRY_RECOVERY_BATCH
  {
    var last := Some(page[QUEUE_RETRY_RECOVERY_BATCH - 1]);
    AscendingSize(page);
    forall other | other in rows ensures other in page <==> other <= last.value {
      if other in page { var k :| 0 <= k < |page| && page[k] == other; }
    }
  }

  /** A row that is not read moves a whole page closer. */
  lemma PageApproaches(rows: set<JobId>, page: seq<JobId>, id: JobId)
    requires |page| == QUEUE_RETRY_RECOVERY_BATCH && Smallest(rows, QUEUE_RETRY_RECOVERY_BATCH, page) && id in rows && id !in page
    ensures page[QUEUE_RETRY_RECOVERY_BATCH - 1] < id
    ensures var last := Some(page[QUEUE_RETRY_RECOVERY_BATCH - 1]);
            |Between(rows, None, id)| == |Between(rows, last, id)| + QUEUE_RETRY_RECOVERY_BATCH && |Between(rows, last, id)| > 0
  {
    var last := Some(page[QUEUE_RETRY_RECOVERY_BATCH - 1]);
    AscendingSize(page);
    PageEnds(rows, page);
    forall other | other in page ensures other < id { var k :| 0 <= k < |page| && page[k] == other; }
    assert Between(rows, None, id) == Between(rows, last, id) + Items(page);
    assert Between(rows, last, id) !! Items(page);
    assert id in Between(rows, last, id);
  }

  lemma UnreadMeansFull(rows: set<JobId>, page: seq<JobId>, id: JobId)
    requires Smallest(rows, QUEUE_RETRY_RECOVERY_BATCH, page) && id in rows && id !in page
    ensures |page| == QUEUE_RETRY_RECOVERY_BATCH < |rows|
  {
    AscendingSize(page);
    SubsetSize(Items(page), rows - {id});
  }

  /** A row behind the cursor that a pass does not read is a page closer after it. */
  lemma AheadApproaches(eligible: set<JobId>, cursor: Cursor, id: JobId)
    requires id in eligible && Behind(cursor, id) && id !in Page(eligible, cursor)
    ensures Need(eligible, NextCursor(eligible, cursor), id) + 1 == Need(eligible, cursor, id)
  {
    var w, page := Window(eligible, cursor), Page(eligible, cursor);
    assert id in Above(eligible, cursor);
    PageIsSmallest(eligible, cursor);
    UnreadMeansFull(w, page, id);
    PageApproaches(w, page, id);
    var last := Some(page[QUEUE_RETRY_RECOVERY_BATCH - 1]);
    assert Between(w, None, id) == Between(eligible, cursor, id);
    assert page[QUEUE_RETRY_RECOVERY_BATCH - 1] in w;
    assert Between(w, last, id) == Between(eligible, last, id);
    PagesStep(|Between(eligible, cursor, id)|);
  }

  /** A row before the cursor waits for the rows behind it, and for the start over. */
  lemma BeforeApproaches(eligible: set<JobId>, cursor: Cursor, id: JobId)
    requires id in eligible && !Behind(cursor, id) && id !in Page(eligible, cursor)
    ensures Need(eligible, NextCursor(eligible, cursor), id) + 1 == Need(eligible, cursor, id)
  {
    var w, page := Window(eligible, cursor), Page(eligible, cursor);
    PageIsSmallest(eligible, cursor);
    assert Between(eligible, None, id) == UpTo(eligible, id);
    if Above(eligible, cursor) == {} {
      UnreadMeansFull(w, page, id);
      PageApproaches(w, page, id);
      PagesStep(|UpTo(eligible, id)|);
    } else if |w| > QUEUE_RETRY_RECOVERY_BATCH {
      PageEnds(w, page);
      var last := Some(page[QUEUE_RETRY_RECOVERY_BATCH - 1]);
      assert page[QUEUE_RETRY_RECOVERY_BATCH - 1] in w;
      assert Above(w, last) == Above(eligible, last);
      PagesStep(|w|);
    } else {
      assert |w| > 0;
    }
  }

  lemma NeedShrinks(fewer: set<JobId>, eligible: set<JobId>, cursor: Cursor, id: JobId)
    requires fewer <= eligible
    ensures Need(fewer, cursor, id) <= Need(eligible, cursor, id)
  {
    SubsetSize(Between(fewer, cursor, id), Between(eligible, cursor, id));
    SubsetSize(Above(fewer, cursor), Above(eligible, cursor));
    SubsetSize(UpTo(fewer, id), UpTo(eligible, id));
    PagesGrow(|Between(fewer, cursor, id)|, |Between(eligible, cursor, id)|);
    PagesGrow(|Above(fewer, cursor)|, |Above(eligible, cursor)|);
    PagesGrow(|UpTo(fewer, id)|, |UpTo(eligible, id)|);
  }

  lemma NeedIsBounded(eligible: set<JobId>, cursor: Cursor, id: JobId)
    ensures Need(eligible, cursor, id) <= Pages(|eligible|) + 1
  {
    if Behind(cursor, id) {
      SubsetSize(Between(eligible, cursor, id), eligible);
      PagesGrow(|Between(eligible, cursor, id)|, |eligible|);
    } else {
      var a, b := Above(eligible, cursor), UpTo(eligible, id);
      assert a !! b;
      assert |a + b| == |a| + |b|;
      SubsetSize(a + b, eligible);
      PagesGrow(|a + b|, |eligible|);
      PagesAdd(|a|, |b|);
    }
  }

  lemma PagesAdd(a: nat, b: nat)
    ensures Pages(a) + Pages(b) <= Pages(a + b) + 1
  {
  }

  // ---------------------------------------------------------------- passes

  /** The cursor before pass k, when pass i finds these rows eligible. */
  function CursorAt(found: seq<set<JobId>>, cursor: Cursor, k: nat): Cursor
    requires k <= |found|
  {
    if k == 0 then cursor else NextCursor(found[k - 1], CursorAt(found, cursor, k - 1))
  }

  ghost predicate ReadIn(found: seq<set<JobId>>, cursor: Cursor, id: JobId, k: nat)
    requires k < |found|
  {
    id in Page(found[k], CursorAt(found, cursor, k))
  }

  lemma {:induction false} UnreadApproaches(found: seq<set<JobId>>, cursor: Cursor, id: JobId, k: nat)
    requires k < |found| && (forall i :: 0 <= i < |found| ==> id in found[i]) && (forall i :: 0 < i < |found| ==> found[i] <= found[i - 1])
    requires forall i :: 0 <= i < k ==> !ReadIn(found, cursor, id, i)
    ensures Need(found[k], CursorAt(found, cursor, k), id) + k <= Need(found[0], cursor, id)
  {
    if k > 0 {
      UnreadApproaches(found, cursor, id, k - 1);
      var before := CursorAt(found, cursor, k - 1);
      assert !ReadIn(found, cursor, id, k - 1);
      if Behind(before, id) { AheadApproaches(found[k - 1], before, id); } else { BeforeApproaches(found[k - 1], before, id); }
      NeedShrinks(found[k], found[k - 1], CursorAt(found, cursor, k), id);
    }
  }

  lemma NeedIsPositive(eligible: set<JobId>, cursor: Cursor, id: JobId)
    requires id in eligible
    ensures Need(eligible, cursor, id) >= 1
  {
    if Behind(cursor, id) { assert id in Between(eligible, cursor, id); } else { assert id in UpTo(eligible, id); }
  }

  /**
   Coverage: from any stored cursor, while the eligible rows only shrink, every row that stays eligible is
   read within one pass more than its n rows fill pages.
   */
  lemma EveryRowIsRead(found: seq<set<JobId>>, cursor: Cursor, id: JobId)
    requires |found| > 0 && |found| == (|found[0]| + 63) / 64 + 1
    requires (forall i :: 0 <= i < |found| ==> id in found[i]) && (forall i :: 0 < i < |found| ==> found[i] <= found[i - 1])
    ensures exists k :: 0 <= k < |found| && ReadIn(found, cursor, id, k)
  {
    var last := |found| - 1;
    if forall i :: 0 <= i < |found| ==> !ReadIn(found, cursor, id, i) {
      UnreadApproaches(found, cursor, id, last);
      NeedIsBounded(found[0], cursor, id);
      var before := CursorAt(found, cursor, last);
      NeedIsPositive(found[last], before, id);
      NeedIsPositive(found[last], NextCursor(found[last], before), id);
      assert !ReadIn(found, cursor, id, last);
      if Behind(before, id) { AheadApproaches(found[last], before, id); } else { BeforeApproaches(found[last], before, id); }
      assert false;
    }
  }

  // ---------------------------------------------------------------- dispatches

  /** What one bridge remembers: the jobs it has given to the retry policy, and those the policy has not answered yet. */
  datatype Dispatches = Dispatches(scheduled: set<JobId>, inFlight: set<JobId>, running: multiset<JobId>)

  /** One row of a page: skipped when scheduled, or while its orphan still lives. */
  function Visit(d: Dispatches, id: JobId, orphans: set<JobId>): Dispatches {
    if id in d.scheduled || id in orphans then d
    else Dispatches(d.scheduled + {id}, d.inFlight + {id}, d.running + multiset{id})
  }

  function VisitAll(d: Dispatches, rows: seq<JobId>, orphans: set<JobId>): Dispatches {
    if rows == [] then d else Visit(VisitAll(d, rows[..|rows| - 1], orphans), rows[|rows| - 1], orphans)
  }

  /** A dispatch settles: a final decision keeps the job reserved, anything else frees it for a later pass. */
  function Settle(d: Dispatches, id: JobId, final: bool): Dispatches {
    if id !in d.running then d
    else Dispatches(if final then d.scheduled else d.scheduled - {id}, d.inFlight - {id}, d.running - multiset{id})
  }

  ghost predicate OncePerJob(d: Dispatches) {
    d.inFlight <= d.scheduled && forall id :: d.running[id] == if id in d.inFlight then 1 else 0
  }

  datatype Event = Pass(rows: seq<JobId>, orphans: set<JobId>) | Settled(id: JobId, final: bool)

  function Happen(d: Dispatches, e: Event): Dispatches {
    match e
    case Pass(rows, orphans) => VisitAll(d, rows, orphans)
    case Settled(id, final) => Settle(d, id, final)
  }

  function Run(d: Dispatches, events: seq<Event>): Dispatches {
    if events == [] then d else Happen(Run(d, events[..|events| - 1]), events[|events| - 1])
  }

  lemma {:induction false} VisitAllKeeps(d: Dispatches, rows: seq<JobId>, orphans: set<JobId>)
    requires OncePerJob(d)
    ensures OncePerJob(VisitAll(d, rows, orphans)) && d.scheduled <= VisitAll(d, rows, orphans).scheduled
  {
    if rows != [] { VisitAllKeeps(d, rows[..|rows| - 1], orphans); }
  }

  /** Over any passes, pages and answers, no job ever has two dispatches in flight. */
  lemma {:induction false} NeverTwice(events: seq<Event>, id: JobId)
    ensures OncePerJob(Run(Dispatches({}, {}, multiset{}), events)) && Run(Dispatches({}, {}, multiset{}), events).running[id] <= 1
  {
    if events != [] {
      NeverTwice(events[..|events| - 1], id);
      var d := Run(Dispatches({}, {}, multiset{}), events[..|events| - 1]);
      match events[|events| - 1]
      case Pass(rows, orphans) => VisitAllKeeps(d, rows, orphans);
      case Settled(other, final) =>
    }
  }

  /** A job with a final decision stays reserved: no later pass dispatches it again. */
  lemma {:induction false} FinalIsForGood(d: Dispatches, events: seq<Event>, id: JobId)
    requires OncePerJob(d) && id in d.scheduled && id !in d.inFlight
    ensures OncePerJob(Run(d, events)) && id in Run(d, events).scheduled && id !in Run(d, events).inFlight
  {
    if events != [] {
      FinalIsForGood(d, events[..|events| - 1], id);
      var before := Run(d, events[..|events| - 1]);
      match events[|events| - 1]
      case Pass(rows, orphans) => ReservedIsSkipped(before, rows, orphans, id);
      case Settled(other, final) =>
    }
  }

  lemma {:induction false} ReservedIsSkipped(d: Dispatches, rows: seq<JobId>, orphans: set<JobId>, id: JobId)
    requires OncePerJob(d) && id in d.scheduled
    ensures OncePerJob(VisitAll(d, rows, orphans)) && id in VisitAll(d, rows, orphans).scheduled
    ensures id in VisitAll(d, rows, orphans).inFlight <==> id in d.inFlight
  {
    if rows != [] { ReservedIsSkipped(d, rows[..|rows| - 1], orphans, id); }
  }

  /** The jobs a pass gives to the retry policy: those of its page that are not scheduled and whose orphan is gone. */
  function Dispatched(d: Dispatches, rows: seq<JobId>, orphans: set<JobId>): set<JobId> {
    set id | id in rows && id !in d.scheduled && id !in orphans
  }

  function Sending(d: Dispatches, sent: set<JobId>): Dispatches {
    Dispatches(d.scheduled + sent, d.inFlight + sent, d.running + multiset(sent))
  }

  lemma DispatchedNext(d: Dispatches, rows: seq<JobId>, id: JobId, orphans: set<JobId>)
    ensures Dispatched(d, rows + [id], orphans) ==
              if id in d.scheduled || id in orphans then Dispatched(d, rows, orphans) else Dispatched(d, rows, orphans) + {id}
  {
    assert forall k :: k in rows + [id] <==> k in rows || k == id;
  }

  lemma SendingNext(d: Dispatches, sent: set<JobId>, id: JobId)
    requires id !in sent
    ensures Sending(d, sent + {id}) == Dispatches(d.scheduled + sent + {id}, d.inFlight + sent + {id}, d.running + multiset(sent) + multiset{id})
  {
    assert d.scheduled + (sent + {id}) == d.scheduled + sent + {id};
    assert d.inFlight + (sent + {id}) == d.inFlight + sent + {id};
    assert multiset(sent + {id}) == multiset(sent) + multiset{id};
  }

  lemma VisitMeans(d: Dispatches, rows: seq<JobId>, id: JobId, orphans: set<JobId>)
    ensures Visit(Sending(d, Dispatched(d, rows, orphans)), id, orphans) == Sending(d, Dispatched(d, rows + [id], orphans))
  {
    var sent := Dispatched(d, rows, orphans);
    DispatchedNext(d, rows, id, orphans);
    if id in d.scheduled || id in orphans {
    } else if id in sent {
      assert sent + {id} == sent;
    } else {
      SendingNext(d, sent, id);
    }
  }

  lemma {:induction false} PassMeans(d: Dispatches, rows: seq<JobId>, orphans: set<JobId>)
    ensures VisitAll(d, rows, orphans) == Sending(d, Dispatched(d, rows, orphans))
  {
    if rows == [] {
      assert Sending(d, Dispatched(d, rows, orphans)) == d;
    } else {
      var less, id := rows[..|rows| - 1], rows[|rows| - 1];
      PassMeans(d, less, orphans);
      VisitMeans(d, less, id, orphans);
      assert rows == less + [id];
    }
  }

  /**
   What an answer to a dispatch in flight does for good: after a final one no later pass, whatever it reads, gives the
   job to the policy again; after any other the next pass that reads the job with its orphan gone does.
   */
  lemma AnswerDecides(d: Dispatches, events: seq<Event>, id: JobId, rows: seq<JobId>, orphans: set<JobId>)
    requires OncePerJob(d) && id in d.inFlight
    ensures var freed := Happen(d, Settled(id, false)); id in rows && id !in orphans ==> id in Happen(freed, Pass(rows, orphans)).inFlight
    ensures var kept := Happen(d, Settled(id, true));
            id !in Run(kept, events).inFlight && Run(kept, events).running[id] == 0 && id !in Dispatched(Run(kept, events), rows, orphans)
  {
    PassMeans(Happen(d, Settled(id, false)), rows, orphans);
    FinalIsForGood(Happen(d, Settled(id, true)), events, id);
  }

  /** Scheduled and answered: no later pass dispatches it again. */
  predicate DecidedForGood(d: Dispatches, id: JobId) { id in d.scheduled && id !in d.inFlight }

  /** A page with nothing after it holds every row behind the cursor, and is empty only without eligible rows. */
  lemma LastPageReadsAll(eligible: set<JobId>, cursor: Cursor)
    ensures NextCursor(eligible, cursor) == None ==> forall id :: id in eligible && Behind(cursor, id) ==> id in Page(eligible, cursor)
    ensures Page(eligible, cursor) == [] ==> eligible == {}
    ensures forall id :: id in Page(eligible, cursor) ==> id in eligible
  {
    var window, rows := Window(eligible, cursor), Query(eligible, cursor);
    FirstIsSmallest(window, QUEUE_RETRY_RECOVERY_BATCH + 1);
    if NextCursor(eligible, cursor) == None {
      forall id | id in eligible && Behind(cursor, id) ensures id in rows {
        assert id in Above(eligible, cursor) && id in window;
        AllAreFirst(window, rows, id);
      }
    }
  }

  lemma AllAreFirst(ids: set<JobId>, rows: seq<JobId>, id: JobId)
    requires Smallest(ids, |ids|, rows) && id in ids
    ensures id in rows
  {
    AscendingSize(rows);
    var listed := set k | k in rows;
    assert listed <= ids;
    SubsetSize(listed, ids);
    if id !in rows { SubsetSize(listed, ids - {id}); }
  }

  // ---------------------------------------------------------------- as it runs

  class RetryRecoverer {
    var cursors: map<string, JobId>
    var scheduled: set<JobId>
    var inFlight: set<JobId>
    ghost var running: multiset<JobId>

    ghost function State(): Dispatches
      reads this
    {
      Dispatches(scheduled, inFlight, running)
    }

    function CursorOf(dbPath: string): Cursor
      reads this
    {
      if dbPath in cursors then Some(cursors[dbPath]) else None
    }

    constructor ()
      ensures State() == Dispatches({}, {}, multiset{}) && cursors == map[]
    {
      cursors, scheduled, inFlight, running := map[], {}, {}, multiset{};
    }

    /** The loop of one pass over its page: whether a row of it is not decided for good. */
    method DispatchPage(rows: seq<JobId>, orphans: set<JobId>) returns (waiting: bool)
      requires Ascending(rows)
      modifies this`scheduled, this`inFlight, this`running
      ensures State() == VisitAll(old(State()), rows, orphans)
      ensures !waiting <==> forall k :: 0 <= k < |rows| ==> DecidedForGood(old(State()), rows[k])
    {
      ghost var start := State();
      waiting := false;
      for i := 0 to |rows|
        invariant State() == VisitAll(start, rows[..i], orphans)
        invariant !waiting <==> forall k :: 0 <= k < i ==> DecidedForGood(start, rows[k])
      {
        assert rows[..i + 1][..i] == rows[..i];
        var id := rows[i];
        PassMeans(start, rows[..i], orphans);
        assert id !in rows[..i];
        assert DecidedForGood(start, id) <==> id in scheduled && id !in inFlight;
        if id in scheduled {
          if id in inFlight { waiting := true; }
          continue;
        }
        waiting := true;
        if id in orphans { continue; }
        scheduled, inFlight, running := scheduled + {id}, inFlight + {id}, running + multiset{id};
      }
      assert rows[..|rows|] == rows;
    }

    /** retryDeferredByOrphans: whether recovery of this database is still pending afterwards. */
    method RetryDeferred(dbPath: string, eligible: set<JobId>, orphans: set<JobId>) returns (waiting: bool)
      requires OncePerJob(State())
      modifies this
      ensures State() == VisitAll(old(State()), Page(eligible, old(CursorOf(dbPath))), orphans) && OncePerJob(State())
      ensures CursorOf(dbPath) == NextCursor(eligible, old(CursorOf(dbPath)))
      ensures forall other :: other != dbPath ==> CursorOf(other) == old(CursorOf(other))
      // Nothing waits exactly when this pass read to the last row and every row it read is decided for good; rows before a stored cursor it did not read.
      ensures !waiting <==> NextCursor(eligible, old(CursorOf(dbPath))) == None
                            && forall k :: 0 <= k < |Page(eligible, old(CursorOf(dbPath)))| ==>
                                             DecidedForGood(old(State()), Page(eligible, old(CursorOf(dbPath)))[k])
      ensures !waiting ==> forall id :: id in eligible && Behind(old(CursorOf(dbPath)), id) ==> DecidedForGood(old(State()), id)
      // So while no eligible row is decided, nothing waits only when there is none.
      ensures !waiting && (forall id :: id in eligible ==> !DecidedForGood(old(State()), id)) ==> eligible == {}
    {
      var cursor := CursorOf(dbPath);
      var rows := Query(eligible, cursor);
      var more := |rows| > QUEUE_RETRY_RECOVERY_BATCH;
      rows := if more then rows[..QUEUE_RETRY_RECOVERY_BATCH] else rows;
      assert rows == Page(eligible, cursor);
      cursors := if more then cursors[dbPath := rows[|rows| - 1]] else cursors - {dbPath};
      PageIsSmallest(eligible, cursor);
      ghost var start := State();
      var undecided := DispatchPage(rows, orphans);
      waiting := more || undecided;
      VisitAllKeeps(start, rows, orphans);
      LastPageReadsAll(eligible, cursor);
    }

    /** The dispatch's answer. */
    method OnSettled(id: JobId, action: string)
      requires OncePerJob(State()) && id in inFlight
      modifies this
      ensures State() == Settle(old(State()), id, action in {"requeued", "gave_up", "none", "not_eligible", "resume_disabled"})
      ensures OncePerJob(State()) && cursors == old(cursors)
    {
      inFlight, running := inFlight - {id}, running - multiset{id};
      if action !in FINAL_ACTIONS { scheduled := scheduled - {id}; }
    }
  }
}
