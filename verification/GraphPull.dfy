/** `pullShapeTable`: pages of hub messages are merged and the shape cursor is
    saved after each page. */
module GraphPull {
  import opened GraphSync
  import opened Options
  import opened Sequences

  const MAX_SHAPE_PAGES := 40

  /** The operation of a message: `delete` or `remove` in any case, any other text
      or none, or a truthy value that is not a text and makes `isDeleteOp` throw. */
  datatype Operation = Other | Delete | NotText

  /** A message of a page. `applies` is false when merging its row throws; the
      loop counts that and goes on. */
  datatype Message = Message(control: bool, operation: Operation, value: Option<Row>, applies: bool)

  datatype Fetch =
    | FetchFailed
    | Page(handle: Option<string>, offset: Option<string>, messages: seq<Message>, upToDate: bool)

  datatype Cursor = Cursor(handle: Option<string>, offset: string, failed: bool)

  /** What survives a crash: the tables and the saved cursor. */
  datatype Persistent = Persistent(db: Replica, cursor: Option<Cursor>)

  /** A write to the database. */
  datatype Write = Merge(row: Row) | SaveCursor(handle: Option<string>, offset: string, failed: bool)

  /** COALESCE keeps the stored handle when none is given. */
  function Saved(c: Option<Cursor>, handle: Option<string>, offset: string, failed: bool): Cursor {
    Cursor(Coalesce(handle, if c.Some? then c.value.handle else None), offset, failed)
  }

  function Perform(p: Persistent, w: Write, now: Time): Persistent {
    match w
    case Merge(row) => p.(db := Apply(p.db, row, now))
    case SaveCursor(handle, offset, failed) => p.(cursor := Some(Saved(p.cursor, handle, offset, failed)))
  }

  function PerformAll(p: Persistent, ws: seq<Write>, now: Time): Persistent {
    if ws == [] then p else Perform(PerformAll(p, ws[..|ws| - 1], now), ws[|ws| - 1], now)
  }

  /** Examining the message throws outside the handler of a failed merge. */
  predicate Throws(m: Message) {
    !m.control && m.operation == NotText
  }

  /** How many messages the loop examines before one throws. */
  function Reach(ms: seq<Message>): (r: nat)
    ensures r <= |ms| && (forall i :: 0 <= i < r ==> !Throws(ms[i])) && (r < |ms| ==> Throws(ms[r]))
  {
    if ms == [] || Throws(ms[0]) then 0 else 1 + Reach(ms[1..])
  }

  /** A message with a row to merge. */
  predicate Carries(m: Message) {
    !m.control && m.operation != Delete && m.value.Some? && m.applies
  }

  function PageRows(ms: seq<Message>): seq<Row> {
    if ms == [] then []
    else if Carries(ms[|ms| - 1]) then PageRows(ms[..|ms| - 1]) + [ms[|ms| - 1].value.value]
    else PageRows(ms[..|ms| - 1])
  }

  // ----- the counters -----

  datatype Counts = Counts(pages: nat, applied: nat, skippedDeletes: nat, errors: nat)

  /** What one message adds: control and empty messages count as nothing. */
  function Count(c: Counts, m: Message): Counts {
    if m.control then c
    else if m.operation == Delete then c.(skippedDeletes := c.skippedDeletes + 1)
    else if m.value == None then c
    else if m.applies then c.(applied := c.applied + 1)
    else c.(errors := c.errors + 1)
  }

  function CountAll(c: Counts, ms: seq<Message>): Counts {
    if ms == [] then c else Count(CountAll(c, ms[..|ms| - 1]), ms[|ms| - 1])
  }

  lemma CountAllStep(c: Counts, ms: seq<Message>, i: nat)
    requires i < |ms|
    ensures CountAll(c, ms[..i + 1]) == Count(CountAll(c, ms[..i]), ms[i])
  {
    assert ms[..i + 1][..i] == ms[..i];
  }

  /** The applied count is the number of rows merged. */
  lemma {:induction false} AppliedAreRows(c: Counts, ms: seq<Message>)
    ensures CountAll(c, ms).applied == c.applied + |PageRows(ms)| && CountAll(c, ms).pages == c.pages
  {
    if ms != [] { AppliedAreRows(c, ms[..|ms| - 1]); }
  }

  predicate Aborts(p: Fetch)
    requires p.Page?
  {
    Reach(p.messages) < |p.messages|
  }

  function CountPage(c: Counts, p: Fetch): Counts
    requires p.Page?
  {
    var examined := CountAll(c.(pages := c.pages + 1), p.messages[..Reach(p.messages)]);
    if Aborts(p) then examined.(errors := examined.errors + 1) else examined
  }

  /** A pull stops after a page that throws, is up to date or has no offset. */
  predicate Last(p: Fetch)
    requires p.Page?
  {
    Aborts(p) || p.upToDate || p.offset == None
  }

  function CountPull(c: Counts, fetches: seq<Fetch>): Counts
    decreases fetches
  {
    if fetches == [] then c
    else if fetches[0].FetchFailed? then c.(errors := c.errors + 1)
    else if Last(fetches[0]) then CountPage(c, fetches[0])
    else CountPull(CountPage(c, fetches[0]), fetches[1..])
  }

  lemma CountPullStep(c: Counts, fetches: seq<Fetch>, i: nat)
    requires i < |fetches|
    ensures CountPull(c, fetches[i..]) ==
      if fetches[i].FetchFailed? then c.(errors := c.errors + 1)
      else if Last(fetches[i]) then CountPage(c, fetches[i])
      else CountPull(CountPage(c, fetches[i]), fetches[i + 1..])
  {
    assert fetches[i..][1..] == fetches[i + 1..];
  }

  function AsMerges(rows: seq<Row>): (ws: seq<Write>)
    ensures |ws| == |rows| && forall i :: 0 <= i < |rows| ==> ws[i] == Merge(rows[i])
  {
    seq(|rows|, i requires 0 <= i < |rows| => Merge(rows[i]))
  }

  function NextOffset(offset: string, p: Fetch): string
    requires p.Page?
  {
    if p.offset.Some? then p.offset.value else offset
  }

  lemma PageRowsStep(ms: seq<Message>, i: nat)
    requires i < |ms|
    ensures PageRows(ms[..i + 1]) ==
      if Carries(ms[i]) then PageRows(ms[..i]) + [ms[i].value.value] else PageRows(ms[..i])
  {
    assert ms[..i + 1][..i] == ms[..i];
  }

  lemma PerformMerge(p: Persistent, rows: seq<Row>, row: Row, now: Time)
    ensures PerformAll(p, AsMerges(rows + [row]), now) == Perform(PerformAll(p, AsMerges(rows), now), Merge(row), now)
  {
    var ws := AsMerges(rows + [row]);
    assert ws[..|ws| - 1] == AsMerges(rows);
  }

  /** The writes of one page; a page that throws saves its own offset all the same. */
  function PageWrites(handle: Option<string>, offset: string, ms: seq<Message>): seq<Write> {
    AsMerges(PageRows(ms[..Reach(ms)])) + [SaveCursor(handle, offset, Reach(ms) < |ms|)]
  }

  /** The writes of a pull, in order. A crash performs a prefix of them. */
  function Writes(handle: Option<string>, offset: string, fetches: seq<Fetch>): seq<Write>
    decreases fetches
  {
    if fetches == [] then []
    else if fetches[0].FetchFailed? then [SaveCursor(handle, offset, true)]
    else
      var p := fetches[0];
      var h, o := Coalesce(p.handle, handle), NextOffset(offset, p);
      PageWrites(h, o, p.messages) + if Last(p) then [] else Writes(h, o, fetches[1..])
  }

  /** What a pull writes after its first page. */
  function Rest(handle: Option<string>, offset: string, fetches: seq<Fetch>): seq<Write>
    requires fetches != [] && fetches[0].Page?
  {
    if Last(fetches[0]) then []
    else Writes(Coalesce(fetches[0].handle, handle), NextOffset(offset, fetches[0]), fetches[1..])
  }

  /** Performing a pull from page `i` on is performing that page and then the rest. */
  lemma PullStep(p: Persistent, handle: Option<string>, offset: string, fetches: seq<Fetch>, i: nat, now: Time)
    requires i < |fetches| && fetches[i].Page?
    ensures var page := fetches[i];
      var h, o := Coalesce(page.handle, handle), NextOffset(offset, page);
      var p' := PerformAll(p, PageWrites(h, o, page.messages), now);
      PerformAll(p, Writes(handle, offset, fetches[i..]), now) ==
        if Last(page) then p' else PerformAll(p', Writes(h, o, fetches[i + 1..]), now)
  {
    var page := fetches[i];
    var h, o := Coalesce(page.handle, handle), NextOffset(offset, page);
    WritesPage(handle, offset, fetches[i..]);
    assert fetches[i..][1..] == fetches[i + 1..];
    PerformAppend(p, PageWrites(h, o, page.messages), Rest(handle, offset, fetches[i..]), now);
  }

  lemma FailedPull(p: Persistent, handle: Option<string>, offset: string, fetches: seq<Fetch>, i: nat, now: Time)
    requires i < |fetches| && fetches[i].FetchFailed?
    ensures PerformAll(p, Writes(handle, offset, fetches[i..]), now)
      == Perform(p, SaveCursor(handle, offset, true), now)
  {
    PerformOne(p, [], SaveCursor(handle, offset, true), now);
    assert [] + [SaveCursor(handle, offset, true)] == Writes(handle, offset, fetches[i..]);
  }

  lemma PullDone(p: Persistent, handle: Option<string>, offset: string, c: Counts, now: Time)
    ensures PerformAll(p, Writes(handle, offset, []), now) == p && CountPull(c, []) == c
  {
  }

  lemma WritesPage(handle: Option<string>, offset: string, fetches: seq<Fetch>)
    requires fetches != [] && fetches[0].Page?
    ensures Writes(handle, offset, fetches) ==
      PageWrites(Coalesce(fetches[0].handle, handle), NextOffset(offset, fetches[0]), fetches[0].messages)
      + Rest(handle, offset, fetches)
  {
  }

  /** The cursor that a pull starts from. */
  function LoadCursor(c: Option<Cursor>): Cursor {
    if c.Some? then c.value else Cursor(None, "-1", false)
  }

  /** What is stored after a whole pull. */
  function Pulled(p: Persistent, fetches: seq<Fetch>, now: Time): Persistent {
    var start := LoadCursor(p.cursor);
    PerformAll(p, Writes(start.handle, start.offset, fetches), now)
  }

  class ShapeReplica {
    var db: Replica
    var cursor: Option<Cursor>

    function Stored(): Persistent
      reads this
    {
      Persistent(db, cursor)
    }

    constructor ()
      ensures Stored() == Persistent(Replica(map[], map[]), None)
    {
      db, cursor := Replica(map[], map[]), None;
    }

    /** The loop over the messages, up to the one that throws if there is one. */
    method ApplyPage(before: Counts, ms: seq<Message>, now: Time) returns (stats: Counts, threw: bool)
      modifies this
      ensures Stored() == PerformAll(old(Stored()), AsMerges(PageRows(ms[..Reach(ms)])), now)
      ensures stats == CountAll(before, ms[..Reach(ms)]) && threw == (Reach(ms) < |ms|)
    {
      stats := before;
      for i := 0 to |ms|
        invariant Stored() == PerformAll(old(Stored()), AsMerges(PageRows(ms[..i])), now)
        invariant stats == CountAll(before, ms[..i]) && i <= Reach(ms)
      {
        var m := ms[i];
        PageRowsStep(ms, i);
        CountAllStep(before, ms, i);
        if m.control {
          continue;
        }
        if m.operation == NotText {
          return stats, true;
        }
        if m.operation == Delete {
          stats := stats.(skippedDeletes := stats.skippedDeletes + 1);
          continue;
        }
        if m.value == None {
          continue;
        }
        if m.applies {
          PerformMerge(old(Stored()), PageRows(ms[..i]), m.value.value, now);
          db := Apply(db, m.value.value, now);
          stats := stats.(applied := stats.applied + 1);
        } else {
          stats := stats.(errors := stats.errors + 1);
        }
      }
      threw := false;
    }

    /** A page and the save after it: the loop's own, or that of the handler which
        catches what the loop throws. */
    method PullPage(before: Counts, handle: Option<string>, offset: string, ms: seq<Message>, now: Time)
      returns (stats: Counts, threw: bool)
      modifies this
      ensures Stored() == PerformAll(old(Stored()), PageWrites(handle, offset, ms), now)
      ensures threw == (Reach(ms) < |ms|)
      ensures var examined := CountAll(before, ms[..Reach(ms)]);
        stats == if threw then examined.(errors := examined.errors + 1) else examined
    {
      PerformOne(Stored(), AsMerges(PageRows(ms[..Reach(ms)])), SaveCursor(handle, offset, Reach(ms) < |ms|), now);
      stats, threw := ApplyPage(before, ms, now);
      if threw { stats := stats.(errors := stats.errors + 1); }
      cursor := Some(Saved(cursor, handle, offset, threw));
    }

    /** `fetches` are the answers that the requests of the loop would get; it makes at
        most forty. */
    method PullShapeTable(before: Counts, fetches: seq<Fetch>, now: Time) returns (stats: Counts)
      requires |fetches| >= MAX_SHAPE_PAGES
      modifies this
      ensures Stored() == Pulled(old(Stored()), fetches[..40], now)
      ensures stats == CountPull(before, fetches[..40])
    {
      hide Writes, PerformAll, CountPull;
      var fetches := fetches[..MAX_SHAPE_PAGES];
      var handle, offset := LoadCursor(cursor).handle, LoadCursor(cursor).offset;
      stats := before;
      ghost var goal := Pulled(Stored(), fetches, now);
      assert fetches[0..] == fetches;
      for i := 0 to MAX_SHAPE_PAGES
        invariant PerformAll(Stored(), Writes(handle, offset, fetches[i..]), now) == goal
        invariant CountPull(stats, fetches[i..]) == CountPull(before, fetches)
      {
        CountPullStep(stats, fetches, i);
        if fetches[i].FetchFailed? {
          stats := stats.(errors := stats.errors + 1);
          FailedPull(Stored(), handle, offset, fetches, i, now);
          cursor := Some(Saved(cursor, handle, offset, true));
          return;
        }
        var page := fetches[i];
        PullStep(Stored(), handle, offset, fetches, i, now);
        stats := stats.(pages := stats.pages + 1);
        handle := Coalesce(page.handle, handle);
        offset := NextOffset(offset, page);
        var threw;
        stats, threw := PullPage(stats, handle, offset, page.messages, now);
        if threw || page.upToDate || page.offset == None { return; }
      }
      PullDone(Stored(), handle, offset, stats, now);
      assert fetches[MAX_SHAPE_PAGES..] == [];
    }
  }

  lemma PerformOne(p: Persistent, done: seq<Write>, w: Write, now: Time)
    ensures PerformAll(p, done + [w], now) == Perform(PerformAll(p, done, now), w, now)
  {
    assert (done + [w])[..|done|] == done;
  }

  lemma {:induction false} PerformAppend(p: Persistent, a: seq<Write>, b: seq<Write>, now: Time)
    ensures PerformAll(p, a + b, now) == PerformAll(PerformAll(p, a, now), b, now)
  {
    if b == [] {
      assert a + b == a;
    } else {
      assert (a + b)[..|a + b| - 1] == a + b[..|b| - 1];
      PerformAppend(p, a, b[..|b| - 1], now);
    }
  }

  // ----- where the cursor stands -----

  ghost function RowsOf(ws: seq<Write>): seq<Row> {
    if ws == [] then []
    else RowsOf(ws[..|ws| - 1]) + if ws[|ws| - 1].Merge? then [ws[|ws| - 1].row] else []
  }

  /** How often the cursor was saved, and the offset of the last save. */
  ghost function Saves(ws: seq<Write>): nat {
    if ws == [] then 0 else Saves(ws[..|ws| - 1]) + if ws[|ws| - 1].SaveCursor? then 1 else 0
  }

  ghost function LastSaved(ws: seq<Write>): Option<string> {
    if ws == [] then None
    else if ws[|ws| - 1].SaveCursor? then Some(ws[|ws| - 1].offset)
    else LastSaved(ws[..|ws| - 1])
  }

  /** All rows that some pages carry, examined or not. */
  ghost function AllRows(fetches: seq<Fetch>): seq<Row> {
    if fetches == [] then []
    else (if fetches[0].Page? then PageRows(fetches[0].messages) else []) + AllRows(fetches[1..])
  }

  ghost function OffsetAfter(offset: string, fetches: seq<Fetch>): string
    decreases fetches
  {
    if fetches == [] then offset
    else OffsetAfter(if fetches[0].Page? then NextOffset(offset, fetches[0]) else offset, fetches[1..])
  }

  lemma {:induction false} RowsOfAppend(a: seq<Write>, b: seq<Write>)
    ensures RowsOf(a + b) == RowsOf(a) + RowsOf(b) && Saves(a + b) == Saves(a) + Saves(b)
    ensures LastSaved(a + b) == if LastSaved(b).Some? then LastSaved(b) else LastSaved(a)
  {
    if b == [] {
      assert a + b == a;
    } else {
      assert (a + b)[..|a + b| - 1] == a + b[..|b| - 1];
      RowsOfAppend(a, b[..|b| - 1]);
    }
  }

  lemma {:induction false} RowsOfMerges(rows: seq<Row>, n: nat)
    requires n <= |rows|
    ensures var ws := AsMerges(rows)[..n]; RowsOf(ws) == rows[..n] && Saves(ws) == 0 && LastSaved(ws) == None
  {
    if n > 0 {
      assert AsMerges(rows)[..n][..n - 1] == AsMerges(rows)[..n - 1];
      RowsOfMerges(rows, n - 1);
    }
  }

  lemma RowsOfSave(ws: seq<Write>, handle: Option<string>, offset: string, failed: bool)
    ensures var all := ws + [SaveCursor(handle, offset, failed)];
      RowsOf(all) == RowsOf(ws) && Saves(all) == Saves(ws) + 1 && LastSaved(all) == Some(offset)
  {
    var all := ws + [SaveCursor(handle, offset, failed)];
    assert all[..|all| - 1] == ws;
  }

  /** The rows that a page merges before it throws or ends. */
  function MergedRows(ms: seq<Message>): seq<Row> {
    PageRows(ms[..Reach(ms)])
  }

  lemma WholePage(handle: Option<string>, offset: string, ms: seq<Message>)
    ensures var ws := PageWrites(handle, offset, ms);
      RowsOf(ws) == MergedRows(ms) && Saves(ws) == 1 && LastSaved(ws) == Some(offset)
  {
    var rows := MergedRows(ms);
    assert AsMerges(rows)[..|rows|] == AsMerges(rows) && rows[..|rows|] == rows;
    RowsOfMerges(rows, |rows|);
    RowsOfSave(AsMerges(rows), handle, offset, Reach(ms) < |ms|);
  }

  lemma PartPage(handle: Option<string>, offset: string, ms: seq<Message>, n: nat)
    requires n < |PageWrites(handle, offset, ms)|
    ensures var cut := PageWrites(handle, offset, ms)[..n];
      RowsOf(cut) <= MergedRows(ms) && Saves(cut) == 0 && LastSaved(cut) == None
  {
    var rows := MergedRows(ms);
    assert PageWrites(handle, offset, ms)[..n] == AsMerges(rows)[..n];
    RowsOfMerges(rows, n);
  }

  /** A pull writes the rows of its first page, one save, and the rest. */
  lemma PullRows(handle: Option<string>, offset: string, fetches: seq<Fetch>)
    requires fetches != [] && fetches[0].Page?
    ensures var ws, rest := Writes(handle, offset, fetches), Rest(handle, offset, fetches);
      RowsOf(ws) == MergedRows(fetches[0].messages) + RowsOf(rest) && Saves(ws) == 1 + Saves(rest)
  {
    var h, o, ms := Coalesce(fetches[0].handle, handle), NextOffset(offset, fetches[0]), fetches[0].messages;
    WritesPage(handle, offset, fetches);
    RowsOfAppend(PageWrites(h, o, ms), Rest(handle, offset, fetches));
    WholePage(h, o, ms);
  }

  lemma PullFailed(handle: Option<string>, offset: string, fetches: seq<Fetch>)
    requires fetches != [] && fetches[0].FetchFailed?
    ensures RowsOf(Writes(handle, offset, fetches)) == []
  {
    RowsOfSave([], handle, offset, true);
    assert [] + [SaveCursor(handle, offset, true)] == Writes(handle, offset, fetches);
  }

  lemma PageApplied(c: Counts, p: Fetch)
    requires p.Page?
    ensures CountPage(c, p).applied == c.applied + |MergedRows(p.messages)|
  {
    AppliedAreRows(c.(pages := c.pages + 1), p.messages[..Reach(p.messages)]);
  }

  /** A pull counts as applied exactly the rows it merges. */
  lemma {:induction false} AppliedAreMerged(c: Counts, handle: Option<string>, offset: string, fetches: seq<Fetch>)
    ensures CountPull(c, fetches).applied == c.applied + |RowsOf(Writes(handle, offset, fetches))|
    decreases fetches
  {
    if fetches == [] {
    } else if fetches[0].FetchFailed? {
      PullFailed(handle, offset, fetches);
    } else {
      PullRows(handle, offset, fetches);
      PageApplied(c, fetches[0]);
      if !Last(fetches[0]) {
        var h, o := Coalesce(fetches[0].handle, handle), NextOffset(offset, fetches[0]);
        AppliedAreMerged(CountPage(c, fetches[0]), h, o, fetches[1..]);
      }
    }
  }

  /** A page that throws before or at a message with a row: the row is never merged. */
  ghost predicate Loses(ms: seq<Message>) {
    exists i :: Reach(ms) <= i < |ms| && Carries(ms[i])
  }

  lemma {:induction false} RowsFrom(ms: seq<Message>, r: nat)
    requires r <= |ms|
    ensures PageRows(ms[..r]) <= PageRows(ms)
    ensures |PageRows(ms[..r])| < |PageRows(ms)| <==> exists i :: r <= i < |ms| && Carries(ms[i])
  {
    if r == |ms| {
      assert ms[..r] == ms;
    } else {
      var init := ms[..|ms| - 1];
      RowsFrom(init, r);
      assert init[..r] == ms[..r];
    }
  }

  /** A page that the pull reaches loses a row. */
  ghost predicate LosesReached(fetches: seq<Fetch>)
    decreases fetches
  {
    && fetches != [] && fetches[0].Page?
    && (Loses(fetches[0].messages) || (!Last(fetches[0]) && LosesReached(fetches[1..])))
  }

  /** After these writes every page whose offset was saved has its rows merged. */
  ghost predicate NotAhead(ws: seq<Write>, fetches: seq<Fetch>) {
    Saves(ws) <= |fetches| && AllRows(fetches[..Saves(ws)]) <= RowsOf(ws)
  }

  lemma AfterFirstPage(offset: string, fetches: seq<Fetch>, j: nat)
    requires fetches != [] && fetches[0].Page? && j < |fetches|
    ensures AllRows(fetches[..j + 1]) == PageRows(fetches[0].messages) + AllRows(fetches[1..][..j])
    ensures OffsetAfter(offset, fetches[..j + 1]) == OffsetAfter(NextOffset(offset, fetches[0]), fetches[1..][..j])
  {
    assert fetches[..j + 1][1..] == fetches[1..][..j];
  }

  /** The first writes of a pull: part of its first page, or that page and the first
      writes of the rest. */
  lemma CutWrites(handle: Option<string>, offset: string, fetches: seq<Fetch>, k: nat)
    requires fetches != [] && fetches[0].Page? && k <= |Writes(handle, offset, fetches)|
    ensures var h, o := Coalesce(fetches[0].handle, handle), NextOffset(offset, fetches[0]);
      var page, rest := PageWrites(h, o, fetches[0].messages), Rest(handle, offset, fetches);
      && (k < |page| ==> Writes(handle, offset, fetches)[..k] == page[..k])
      && (k >= |page| ==> k - |page| <= |rest| && Writes(handle, offset, fetches)[..k] == page + rest[..k - |page|])
  {
    WritesPage(handle, offset, fetches);
  }

  /** The last save among these writes has the offset of as many pages as were saved. */
  ghost predicate SavedRight(ws: seq<Write>, offset: string, fetches: seq<Fetch>) {
    && Saves(ws) <= |fetches|
    && LastSaved(ws) == if Saves(ws) == 0 then None else Some(OffsetAfter(offset, fetches[..Saves(ws)]))
  }

  lemma SavedRightAfterPage(h: Option<string>, offset: string, fetches: seq<Fetch>, tail: seq<Write>)
    requires fetches != [] && fetches[0].Page? && SavedRight(tail, NextOffset(offset, fetches[0]), fetches[1..])
    ensures SavedRight(PageWrites(h, NextOffset(offset, fetches[0]), fetches[0].messages) + tail, offset, fetches)
  {
    var o, ms := NextOffset(offset, fetches[0]), fetches[0].messages;
    WholePage(h, o, ms);
    RowsOfAppend(PageWrites(h, o, ms), tail);
    AfterFirstPage(offset, fetches, Saves(tail));
    assert fetches[1..][..0] == [];
  }

  /** The offset in the stored cursor is that of the last page that was saved. */
  lemma {:induction false} SavedOffset(handle: Option<string>, offset: string, fetches: seq<Fetch>, k: nat)
    requires k <= |Writes(handle, offset, fetches)|
    ensures SavedRight(Writes(handle, offset, fetches)[..k], offset, fetches)
    decreases fetches
  {
    if fetches == [] || k == 0 {
    } else if fetches[0].FetchFailed? {
      FailedCut(handle, offset, fetches, k);
    } else {
      var h, o, ms := Coalesce(fetches[0].handle, handle), NextOffset(offset, fetches[0]), fetches[0].messages;
      var page := PageWrites(h, o, ms);
      CutWrites(handle, offset, fetches, k);
      if k < |page| {
        PartPage(h, o, ms, k);
      } else {
        if !Last(fetches[0]) { SavedOffset(h, o, fetches[1..], k - |page|); }
        SavedRightAfterPage(h, offset, fetches, Rest(handle, offset, fetches)[..k - |page|]);
      }
    }
  }

  lemma FailedCut(handle: Option<string>, offset: string, fetches: seq<Fetch>, k: nat)
    requires fetches != [] && fetches[0].FetchFailed? && 0 < k <= |Writes(handle, offset, fetches)|
    ensures var cut := Writes(handle, offset, fetches)[..k];
      RowsOf(cut) == [] && Saves(cut) == 1 && LastSaved(cut) == Some(offset)
    ensures AllRows(fetches[..1]) == [] && OffsetAfter(offset, fetches[..1]) == offset
  {
    RowsOfSave([], handle, offset, true);
    assert [] + [SaveCursor(handle, offset, true)] == Writes(handle, offset, fetches)[..k];
    FailedFirst(offset, fetches[0]);
    assert fetches[..1] == [fetches[0]];
  }

  lemma FailedFirst(offset: string, p: Fetch)
    requires p.FetchFailed?
    ensures AllRows([p]) == [] && OffsetAfter(offset, [p]) == offset
  {
    assert [p][1..] == [];
    assert AllRows([p]) == [] + AllRows([]);
  }

  lemma BehindAfterPage(handle: Option<string>, offset: string, fetches: seq<Fetch>, tail: seq<Write>)
    requires fetches != [] && fetches[0].Page? && !Loses(fetches[0].messages) && NotAhead(tail, fetches[1..])
    ensures NotAhead(PageWrites(handle, offset, fetches[0].messages) + tail, fetches)
  {
    var ms := fetches[0].messages;
    WholePage(handle, offset, ms);
    RowsOfAppend(PageWrites(handle, offset, ms), tail);
    RowsFrom(ms, Reach(ms));
    assert MergedRows(ms) == PageRows(ms);
    AfterFirstPage(offset, fetches, Saves(tail));
  }

  lemma NothingSaved(ws: seq<Write>, fetches: seq<Fetch>)
    requires Saves(ws) == 0
    ensures NotAhead(ws, fetches)
  {
    assert fetches[..0] == [];
  }

  lemma {:induction false} BehindUnlessLost(handle: Option<string>, offset: string, fetches: seq<Fetch>, k: nat)
    requires k <= |Writes(handle, offset, fetches)| && !LosesReached(fetches)
    ensures NotAhead(Writes(handle, offset, fetches)[..k], fetches)
    decreases fetches
  {
    if fetches == [] || k == 0 {
      NothingSaved(Writes(handle, offset, fetches)[..k], fetches);
    } else if fetches[0].FetchFailed? {
      FailedCut(handle, offset, fetches, k);
    } else {
      var h, o, ms := Coalesce(fetches[0].handle, handle), NextOffset(offset, fetches[0]), fetches[0].messages;
      var page := PageWrites(h, o, ms);
      CutWrites(handle, offset, fetches, k);
      if k < |page| {
        PartPage(h, o, ms, k);
        NothingSaved(page[..k], fetches);
      } else {
        var tail := Rest(handle, offset, fetches)[..k - |page|];
        if Last(fetches[0]) {
          NothingSaved(tail, fetches[1..]);
        } else {
          BehindUnlessLost(h, o, fetches[1..], k - |page|);
        }
        BehindAfterPage(h, o, fetches, tail);
      }
    }
  }

  lemma {:induction false} AheadWhenLost(handle: Option<string>, offset: string, fetches: seq<Fetch>)
    requires LosesReached(fetches)
    ensures var ws := Writes(handle, offset, fetches);
      Saves(ws) <= |fetches| && |RowsOf(ws)| < |AllRows(fetches[..Saves(ws)])|
    decreases fetches
  {
    var ms := fetches[0].messages;
    PullRows(handle, offset, fetches);
    RowsFrom(ms, Reach(ms));
    if Last(fetches[0]) {
      AfterFirstPage(offset, fetches, 0);
      assert fetches[1..][..0] == [];
    } else {
      var rest := Rest(handle, offset, fetches);
      assert !Loses(ms);
      AheadWhenLost(Coalesce(fetches[0].handle, handle), NextOffset(offset, fetches[0]), fetches[1..]);
      AfterFirstPage(offset, fetches, Saves(rest));
    }
  }

  /** However a pull is cut off, no page is passed by the saved cursor before its
      rows are merged, if and only if no page that the pull reaches holds a message
      that throws with a row in it or after it. */
  lemma CursorNeverAheadIff(handle: Option<string>, offset: string, fetches: seq<Fetch>)
    ensures (forall k {:trigger Writes(handle, offset, fetches)[..k]} ::
               0 <= k <= |Writes(handle, offset, fetches)| ==> NotAhead(Writes(handle, offset, fetches)[..k], fetches))
            <==> !LosesReached(fetches)
  {
    var ws := Writes(handle, offset, fetches);
    if LosesReached(fetches) {
      AheadWhenLost(handle, offset, fetches);
      assert ws[..|ws|] == ws;
    } else {
      forall k | 0 <= k <= |ws| ensures NotAhead(ws[..k], fetches) { BehindUnlessLost(handle, offset, fetches, k); }
    }
  }

  /** A page whose first message has the operation 5 and whose second carries a row:
      the page's offset is saved and the row is not merged. */
  lemma MalformedOperationPasses(handle: Option<string>, offset: string, next: string, row: Row)
    ensures var ms := [Message(false, NotText, None, true), Message(false, Other, Some(row), true)];
      var fetches := [Page(None, Some(next), ms, false)];
      && Writes(handle, offset, fetches) == [SaveCursor(handle, next, true)]
      && AllRows(fetches) == [row] && !NotAhead(Writes(handle, offset, fetches), fetches)
  {
    MalformedPasses(handle, offset, Page(None, Some(next), [Message(false, NotText, None, true),
                                                            Message(false, Other, Some(row), true)], false), row);
  }

  lemma MalformedPasses(handle: Option<string>, offset: string, p: Fetch, row: Row)
    requires p.Page? && |p.messages| == 2 && Throws(p.messages[0]) && !Carries(p.messages[0])
    requires Carries(p.messages[1]) && p.messages[1].value == Some(row) && p.handle == None && p.offset.Some?
    ensures Writes(handle, offset, [p]) == [SaveCursor(handle, p.offset.value, true)]
    ensures AllRows([p]) == [row] && !NotAhead(Writes(handle, offset, [p]), [p])
  {
    MalformedPageRows(p.messages[0], p.messages[1]);
    assert p.messages == [p.messages[0], p.messages[1]];
    MalformedWrites(handle, offset, p);
    assert [p][1..] == [] && AllRows([p]) == PageRows(p.messages) + AllRows([]);
    RowsOfSave([], handle, p.offset.value, true);
    assert [] + [SaveCursor(handle, p.offset.value, true)] == Writes(handle, offset, [p]);
    assert [p][..1] == [p];
  }

  lemma MalformedPageRows(bad: Message, good: Message)
    requires !Carries(bad) && Carries(good)
    ensures PageRows([bad, good]) == [good.value.value]
  {
    assert [bad, good][..1] == [bad] && [bad][..0] == [];
    assert PageRows([bad]) == PageRows([]) == [];
    assert PageRows([bad, good]) == PageRows([bad]) + [good.value.value];
  }

  lemma MalformedWrites(handle: Option<string>, offset: string, p: Fetch)
    requires p.Page? && p.messages != [] && Throws(p.messages[0]) && p.handle == None && p.offset.Some?
    ensures Writes(handle, offset, [p]) == [SaveCursor(handle, p.offset.value, true)]
  {
    var ms := p.messages;
    assert Reach(ms) == 0 && ms[..0] == [] && PageRows(ms[..0]) == [] && AsMerges(PageRows(ms[..0])) == [];
    WritesPage(handle, offset, [p]);
    assert PageWrites(handle, p.offset.value, ms) == [] + [SaveCursor(handle, p.offset.value, true)];
  }

  // ----- a pull that is cut off and made again -----

  /** The tables after some writes are the delivery of the rows among them. */
  lemma {:induction false} WritesDeliver(p: Persistent, ws: seq<Write>, now: Time)
    ensures PerformAll(p, ws, now).db == Deliver(p.db, At(RowsOf(ws), now))
  {
    if ws != [] {
      var init, last := ws[..|ws| - 1], ws[|ws| - 1];
      WritesDeliver(p, init, now);
      var a := At(RowsOf(ws), now);
      if last.Merge? {
        assert a[..|a| - 1] == At(RowsOf(init), now);
      } else {
        assert RowsOf(ws) == RowsOf(init);
      }
    }
  }

  lemma {:induction false} DeliverAppend(db: Replica, a: seq<Arrival>, b: seq<Arrival>)
    ensures Deliver(db, a + b) == Deliver(Deliver(db, a), b)
  {
    if b == [] {
      assert a + b == a;
    } else {
      assert (a + b)[..|a + b| - 1] == a + b[..|b| - 1];
      DeliverAppend(db, a, b[..|b| - 1]);
    }
  }

  /** Each arrival of `a` has its row among those of `b`. */
  ghost predicate Covered(a: seq<Arrival>, b: seq<Arrival>) {
    forall x {:trigger x in a} :: x in a ==> Explicit(x.row) && exists y :: y in b && y.row == x.row
  }

  lemma DeliveredAlike(db: Replica, a: seq<Arrival>, b: seq<Arrival>)
    requires Covered(a, b) && Covered(b, a)
    ensures TimelineOf(Deliver(db, a)) == TimelineOf(Deliver(db, b))
  {
    DeliveriesConverge(db, a, b);
  }

  lemma CoveredBy(rows: seq<Row>, now: Time, b: seq<Arrival>)
    requires forall row :: row in rows ==> Explicit(row) && exists y: Arrival :: y in b && y.row == row
    ensures Covered(At(rows, now), b)
  {
  }

  lemma CoveredBoth(a: seq<Arrival>, b: seq<Arrival>, c: seq<Arrival>)
    requires Covered(a, c) && Covered(b, c)
    ensures Covered(a + b, c)
  {
  }

  /** Some rows and then others, against rows that are both together. */
  lemma RowsTogether(db: Replica, a: seq<Row>, b: seq<Row>, c: seq<Row>, first: Time, second: Time, third: Time)
    requires forall row :: row in c <==> row in a || row in b
    requires forall row :: row in c ==> Explicit(row)
    ensures TimelineOf(Deliver(Deliver(db, At(a, first)), At(b, second))) == TimelineOf(Deliver(db, At(c, third)))
  {
    var x, y, z := At(a, first), At(b, second), At(c, third);
    DeliverAppend(db, x, y);
    forall row | row in a ensures Explicit(row) && exists v: Arrival :: v in z && v.row == row {
      var _ := Arrives(c, third, row);
    }
    forall row | row in b ensures Explicit(row) && exists v: Arrival :: v in z && v.row == row {
      var _ := Arrives(c, third, row);
    }
    CoveredBy(a, first, z);
    CoveredBy(b, second, z);
    CoveredBoth(x, y, z);
    forall row | row in c ensures exists v: Arrival :: v in x + y && v.row == row {
      if row in a {
        var v := Arrives(a, first, row);
        assert v in x + y;
      } else {
        var v := Arrives(b, second, row);
        assert v in x + y;
      }
    }
    CoveredBy(c, third, x + y);
    DeliveredAlike(db, x + y, z);
  }

  // ----- a pull from place to place -----

  datatype Place = Place(handle: Option<string>, offset: string)

  /** What a pull finds at each place: the rows it merges, where it goes next,
      whether it saves an error, and whether it stops there. */
  datatype Trip = Trip(rows: Place -> seq<Row>, next: Place -> Place, fails: Place -> bool, stops: Place -> bool)

  function PlaceWrites(t: Trip, q: Place): seq<Write> {
    AsMerges(t.rows(q)) + [SaveCursor(t.next(q).handle, t.next(q).offset, t.fails(q))]
  }

  /** The writes of a pull of at most `n` pages. */
  function TripWrites(t: Trip, q: Place, n: nat): seq<Write>
    decreases n
  {
    if n == 0 then []
    else PlaceWrites(t, q) + if t.stops(q) then [] else TripWrites(t, t.next(q), n - 1)
  }

  function TripRows(t: Trip, q: Place, n: nat): seq<Row>
    decreases n
  {
    if n == 0 then []
    else t.rows(q) + if t.stops(q) then [] else TripRows(t, t.next(q), n - 1)
  }

  /** The cursor that such a pull leaves. */
  function FinalCursor(t: Trip, q: Place, n: nat): Cursor
    requires n > 0
    decreases n
  {
    if t.stops(q) || n == 1 then Cursor(t.next(q).handle, t.next(q).offset, t.fails(q))
    else FinalCursor(t, t.next(q), n - 1)
  }

  /** No step of the pull forgets a handle. */
  ghost predicate KeepsHandles(t: Trip) {
    forall q :: t.next(q).handle == None ==> q.handle == None
  }

  /** Where the stored cursor stands. */
  function Start(p: Persistent): Place {
    Place(LoadCursor(p.cursor).handle, LoadCursor(p.cursor).offset)
  }

  lemma {:induction false} MergesKeepCursor(p: Persistent, rows: seq<Row>, n: nat, now: Time)
    requires n <= |rows|
    ensures PerformAll(p, AsMerges(rows)[..n], now).cursor == p.cursor
  {
    if n > 0 {
      assert AsMerges(rows)[..n][..n - 1] == AsMerges(rows)[..n - 1];
      MergesKeepCursor(p, rows, n - 1, now);
    }
  }

  /** Part of what is written at a place leaves the cursor there. */
  lemma PartCursor(t: Trip, p: Persistent, q: Place, k: nat, now: Time)
    requires k < |PlaceWrites(t, q)|
    ensures PerformAll(p, PlaceWrites(t, q)[..k], now).cursor == p.cursor
  {
    assert PlaceWrites(t, q)[..k] == AsMerges(t.rows(q))[..k];
    MergesKeepCursor(p, t.rows(q), k, now);
  }

  lemma PartRows(t: Trip, q: Place, k: nat)
    requires k <= |t.rows(q)|
    ensures Saves(PlaceWrites(t, q)[..k]) == 0 && RowsOf(PlaceWrites(t, q)[..k]) == [] + t.rows(q)[..k]
  {
    assert PlaceWrites(t, q)[..k] == AsMerges(t.rows(q))[..k];
    RowsOfMerges(t.rows(q), k);
  }

  /** All of it moves the cursor on. */
  lemma PlaceCursor(t: Trip, p: Persistent, q: Place, now: Time)
    requires KeepsHandles(t) && Start(p) == q
    ensures PerformAll(p, PlaceWrites(t, q), now).cursor == Some(Cursor(t.next(q).handle, t.next(q).offset, t.fails(q)))
  {
    var rows := t.rows(q);
    assert AsMerges(rows)[..|rows|] == AsMerges(rows);
    MergesKeepCursor(p, rows, |rows|, now);
    PerformOne(p, AsMerges(rows), SaveCursor(t.next(q).handle, t.next(q).offset, t.fails(q)), now);
  }

  lemma {:induction false} WholeTrip(t: Trip, p: Persistent, q: Place, n: nat, now: Time)
    requires KeepsHandles(t) && Start(p) == q && n > 0
    ensures PerformAll(p, TripWrites(t, q, n), now).cursor == Some(FinalCursor(t, q, n))
    decreases n
  {
    hide Perform, PerformAll;
    var ws, next := PlaceWrites(t, q), PerformAll(p, PlaceWrites(t, q), now);
    PlaceCursor(t, p, q, now);
    if t.stops(q) || n == 1 {
      assert TripWrites(t, q, n) == ws + [] == ws;
    } else {
      assert Start(next) == t.next(q);
      WholeTrip(t, next, t.next(q), n - 1, now);
      CursorLater(p, ws, TripWrites(t, t.next(q), n - 1), now);
    }
  }

  lemma PlaceRows(t: Trip, q: Place)
    ensures Saves(PlaceWrites(t, q)) == 1 && RowsOf(PlaceWrites(t, q)) == t.rows(q)
  {
    var rows := t.rows(q);
    assert AsMerges(rows)[..|rows|] == AsMerges(rows) && rows[..|rows|] == rows;
    RowsOfMerges(rows, |rows|);
    RowsOfSave(AsMerges(rows), t.next(q).handle, t.next(q).offset, t.fails(q));
  }

  lemma RowsOfParts(all: seq<Write>, ws: seq<Write>, rest: seq<Write>, a: seq<Row>, b: seq<Row>)
    requires all == ws + rest && RowsOf(ws) == a && RowsOf(rest) == b
    ensures RowsOf(all) == a + b
  {
    RowsOfAppend(ws, rest);
  }

  lemma TripStep(t: Trip, q: Place, n: nat)
    requires n > 0
    ensures TripWrites(t, q, n) == PlaceWrites(t, q) + if t.stops(q) then [] else TripWrites(t, t.next(q), n - 1)
    ensures TripRows(t, q, n) == t.rows(q) + if t.stops(q) then [] else TripRows(t, t.next(q), n - 1)
  {
    hide PlaceWrites;
  }

  lemma EmptyTrip(t: Trip, q: Place)
    ensures RowsOf(TripWrites(t, q, 0)) == TripRows(t, q, 0) && RowsOf([]) == []
  {
  }

  lemma {:induction false} RowsOfTrip(t: Trip, q: Place, n: nat)
    ensures RowsOf(TripWrites(t, q, n)) == TripRows(t, q, n)
    decreases n
  {
    hide RowsOf, PlaceWrites, TripWrites, TripRows;
    EmptyTrip(t, q);
    if n > 0 {
      TripStep(t, q, n);
      PlaceRows(t, q);
      if t.stops(q) {
        RowsOfParts(TripWrites(t, q, n), PlaceWrites(t, q), [], t.rows(q), []);
      } else {
        var rest := TripWrites(t, t.next(q), n - 1);
        RowsOfTrip(t, t.next(q), n - 1);
        RowsOfParts(TripWrites(t, q, n), PlaceWrites(t, q), rest, t.rows(q), TripRows(t, t.next(q), n - 1));
      }
    }
  }

  /** Where a pull from `q` stands after `k` writes: the place of its stored cursor,
      the pages saved, their rows, and the rows merged since. */
  datatype Crash = Crash(place: Place, saved: nat, before: seq<Row>, part: seq<Row>)

  function CrashAfter(t: Trip, q: Place, k: nat): Crash
    decreases k
  {
    if k <= |t.rows(q)| then Crash(q, 0, [], t.rows(q)[..k])
    else
      var c := CrashAfter(t, t.next(q), k - |t.rows(q)| - 1);
      Crash(c.place, c.saved + 1, t.rows(q) + c.before, c.part)
  }

  lemma WritesAt(t: Trip, q: Place, n: nat, k: nat)
    requires k < |TripWrites(t, q, n)|
    ensures n > 0 && |PlaceWrites(t, q)| == |t.rows(q)| + 1
    ensures k <= |t.rows(q)| ==> TripWrites(t, q, n)[..k] == PlaceWrites(t, q)[..k]
    ensures k > |t.rows(q)| ==>
      && !t.stops(q) && k - |t.rows(q)| - 1 < |TripWrites(t, t.next(q), n - 1)|
      && TripWrites(t, q, n)[..k] == PlaceWrites(t, q) + TripWrites(t, t.next(q), n - 1)[..k - |t.rows(q)| - 1]
  {
  }

  /** A pull that goes on for `m` pages from where the crash left the cursor ends
      where a pull of the saved pages and `m` more ends. */
  lemma {:induction false} CrashFinal(t: Trip, q: Place, n: nat, k: nat, m: nat)
    requires m > 0 && k < |TripWrites(t, q, n)|
    ensures var c := CrashAfter(t, q, k); FinalCursor(t, q, c.saved + m) == FinalCursor(t, c.place, m)
    decreases n
  {
    WritesAt(t, q, n, k);
    if k > |t.rows(q)| {
      var c := CrashAfter(t, t.next(q), k - |t.rows(q)| - 1);
      CrashFinal(t, t.next(q), n - 1, k - |t.rows(q)| - 1, m);
      assert FinalCursor(t, q, c.saved + 1 + m) == FinalCursor(t, t.next(q), c.saved + m);
    }
  }

  /** It merges the rows after those of the saved pages, and among them again those
      that were merged since the last save. */
  lemma {:induction false} CrashOnward(t: Trip, q: Place, n: nat, k: nat, m: nat)
    requires m > 0 && k < |TripWrites(t, q, n)|
    ensures var c := CrashAfter(t, q, k);
      TripRows(t, q, c.saved + m) == c.before + TripRows(t, c.place, m) && c.part <= TripRows(t, c.place, m)
    decreases n
  {
    hide TripWrites, TripRows, PlaceWrites;
    WritesAt(t, q, n, k);
    if k <= |t.rows(q)| {
      TripStep(t, q, m);
      assert [] + TripRows(t, q, m) == TripRows(t, q, m);
    } else {
      var c := CrashAfter(t, t.next(q), k - |t.rows(q)| - 1);
      CrashOnward(t, t.next(q), n - 1, k - |t.rows(q)| - 1, m);
      TripStep(t, q, c.saved + 1 + m);
      Associative(t.rows(q), c.before, TripRows(t, c.place, m));
    }
  }

  lemma {:induction false} CrashRows(t: Trip, q: Place, n: nat, k: nat)
    requires k < |TripWrites(t, q, n)|
    ensures var c, done := CrashAfter(t, q, k), TripWrites(t, q, n)[..k];
      RowsOf(done) == c.before + c.part && Saves(done) == c.saved
    decreases n
  {
    hide RowsOf, Saves, TripWrites;
    WritesAt(t, q, n, k);
    if k <= |t.rows(q)| {
      PartRows(t, q, k);
    } else {
      var tail := TripWrites(t, t.next(q), n - 1)[..k - |t.rows(q)| - 1];
      CrashRows(t, t.next(q), n - 1, k - |t.rows(q)| - 1);
      PlaceRows(t, q);
      RowsOfAppend(PlaceWrites(t, q), tail);
      var c := CrashAfter(t, t.next(q), k - |t.rows(q)| - 1);
      Associative(t.rows(q), c.before, c.part);
    }
  }

  lemma {:induction false} CrashCursor(t: Trip, p: Persistent, q: Place, n: nat, k: nat, now: Time)
    requires KeepsHandles(t) && Start(p) == q && k < |TripWrites(t, q, n)|
    ensures Start(PerformAll(p, TripWrites(t, q, n)[..k], now)) == CrashAfter(t, q, k).place
    decreases n
  {
    hide Perform, PerformAll, TripWrites;
    WritesAt(t, q, n, k);
    if k <= |t.rows(q)| {
      PartCursor(t, p, q, k, now);
    } else {
      var tail := TripWrites(t, t.next(q), n - 1)[..k - |t.rows(q)| - 1];
      var next := PerformAll(p, PlaceWrites(t, q), now);
      PlaceCursor(t, p, q, now);
      CrashCursor(t, next, t.next(q), n - 1, k - |t.rows(q)| - 1, now);
      CursorLater(p, PlaceWrites(t, q), tail, now);
    }
  }

  lemma CursorLater(p: Persistent, ws: seq<Write>, rest: seq<Write>, now: Time)
    ensures PerformAll(p, ws + rest, now).cursor == PerformAll(PerformAll(p, ws, now), rest, now).cursor
  {
    PerformAppend(p, ws, rest, now);
  }

  lemma SameMembers<T(!new)>(before: seq<T>, part: seq<T>, rest: seq<T>)
    requires part <= rest
    ensures forall row :: row in before + rest <==> row in before + part || row in rest
  {
    forall row | row in part ensures row in rest {}
  }

  /** Every row says when its node was first seen. */
  ghost predicate AllExplicitRows(rows: seq<Row>) {
    rows == [] || (Explicit(rows[|rows| - 1]) && AllExplicitRows(rows[..|rows| - 1]))
  }

  lemma {:induction false} ExplicitMember(rows: seq<Row>, row: Row)
    requires AllExplicitRows(rows) && row in rows
    ensures Explicit(row)
  {
    if row != rows[|rows| - 1] { ExplicitMember(rows[..|rows| - 1], row); }
  }

  lemma {:induction false} ExplicitAppend(a: seq<Row>, b: seq<Row>)
    requires AllExplicitRows(a) && AllExplicitRows(b)
    ensures AllExplicitRows(a + b)
  {
    if b == [] {
      assert a + b == a;
    } else {
      assert (a + b)[..|a + b| - 1] == a + b[..|b| - 1];
      ExplicitAppend(a, b[..|b| - 1]);
    }
  }

  lemma DeliveredTogether(p: Persistent, a: seq<Write>, b: seq<Write>, c: seq<Write>, first: Time, second: Time,
      third: Time)
    requires forall row :: row in RowsOf(c) <==> row in RowsOf(a) || row in RowsOf(b)
    requires forall row :: row in RowsOf(c) ==> Explicit(row)
    ensures TimelineOf(PerformAll(PerformAll(p, a, first), b, second).db) == TimelineOf(PerformAll(p, c, third).db)
  {
    WritesDeliver(p, a, first);
    WritesDeliver(PerformAll(p, a, first), b, second);
    WritesDeliver(p, c, third);
    RowsTogether(p.db, RowsOf(a), RowsOf(b), RowsOf(c), first, second, third);
  }

  lemma ResumedWrites(p: Persistent, done: seq<Write>, rest: seq<Write>, all: seq<Write>,
                      before: seq<Row>, part: seq<Row>, first: Time, second: Time, third: Time)
    requires RowsOf(done) == before + part && part <= RowsOf(rest) && RowsOf(all) == before + RowsOf(rest)
    requires AllExplicitRows(RowsOf(all))
    ensures TimelineOf(PerformAll(PerformAll(p, done, first), rest, second).db)
      == TimelineOf(PerformAll(p, all, third).db)
  {
    SameMembers(before, part, RowsOf(rest));
    forall row | row in RowsOf(all) ensures Explicit(row) { ExplicitMember(RowsOf(all), row); }
    DeliveredTogether(p, done, rest, all, first, second, third);
  }

  /** A pull of at most `n` pages from the stored cursor. */
  function PullOn(t: Trip, p: Persistent, n: nat, now: Time): Persistent {
    PerformAll(p, TripWrites(t, Start(p), n), now)
  }

  /** Such a pull when it crashes after `k` writes, and the pages it has saved. */
  function CrashOn(t: Trip, p: Persistent, n: nat, k: nat, now: Time): Persistent
    requires k < |TripWrites(t, Start(p), n)|
  {
    PerformAll(p, TripWrites(t, Start(p), n)[..k], now)
  }

  function SavedPages(t: Trip, p: Persistent, k: nat): nat {
    CrashAfter(t, Start(p), k).saved
  }

  /** What two replicas should agree on: the timeline and the cursor. */
  function Outcome(p: Persistent): (Timeline, Option<Cursor>) {
    (TimelineOf(p.db), p.cursor)
  }

  /** The pull comes to a place that stops it within `n` pages. */
  predicate Ends(t: Trip, q: Place, n: nat)
    decreases n
  {
    n > 0 && (t.stops(q) || Ends(t, t.next(q), n - 1))
  }

  lemma {:induction false} EndedTrip(t: Trip, q: Place, n: nat, m: nat)
    requires Ends(t, q, n) && n <= m
    ensures TripWrites(t, q, m) == TripWrites(t, q, n)
    decreases n
  {
    if !t.stops(q) { EndedTrip(t, t.next(q), n - 1, m - 1); }
  }

  ghost predicate ExplicitRows(t: Trip) {
    forall q :: AllExplicitRows(t.rows(q))
  }

  lemma {:induction false} TripExplicit(t: Trip, q: Place, n: nat)
    requires ExplicitRows(t)
    ensures AllExplicitRows(TripRows(t, q, n))
    decreases n
  {
    if n > 0 {
      var rest := if t.stops(q) then [] else TripRows(t, t.next(q), n - 1);
      if !t.stops(q) { TripExplicit(t, t.next(q), n - 1); }
      ExplicitAppend(t.rows(q), rest);
    }
  }

  /** A pull of at most `n` pages that crashes after any number of its writes but
      not all, and is resumed from the stored cursor for at most `m` pages, leaves
      the timeline and the cursor of one pull, never cut off, of at most as many
      pages as were saved before the crash and `m` more. */
  lemma ResumedTripConverges(t: Trip, p: Persistent, n: nat, k: nat, m: nat, first: Time, second: Time, third: Time)
    requires KeepsHandles(t) && ExplicitRows(t) && m > 0 && k < |TripWrites(t, Start(p), n)|
    ensures Outcome(PullOn(t, CrashOn(t, p, n, k, first), m, second))
         == Outcome(PullOn(t, p, SavedPages(t, p, k) + m, third))
  {
    ResumedCursor(t, p, n, k, m, first, second, third);
    ResumedTimeline(t, p, n, k, m, first, second, third);
  }

  lemma ResumedCursor(t: Trip, p: Persistent, n: nat, k: nat, m: nat, first: Time, second: Time, third: Time)
    requires KeepsHandles(t) && m > 0 && k < |TripWrites(t, Start(p), n)|
    ensures PullOn(t, CrashOn(t, p, n, k, first), m, second).cursor
         == PullOn(t, p, SavedPages(t, p, k) + m, third).cursor
  {
    hide Perform, PerformAll, RowsOf, Saves, TripRows, TripWrites, TimelineOf, AllExplicitRows, FinalCursor;
    var q := Start(p);
    CrashCursor(t, p, q, n, k, first);
    CrashFinal(t, q, n, k, m);
    WholeTrip(t, CrashOn(t, p, n, k, first), CrashAfter(t, q, k).place, m, second);
    WholeTrip(t, p, q, CrashAfter(t, q, k).saved + m, third);
  }

  lemma ResumedTimeline(t: Trip, p: Persistent, n: nat, k: nat, m: nat, first: Time, second: Time, third: Time)
    requires KeepsHandles(t) && ExplicitRows(t) && m > 0 && k < |TripWrites(t, Start(p), n)|
    ensures TimelineOf(PullOn(t, CrashOn(t, p, n, k, first), m, second).db)
         == TimelineOf(PullOn(t, p, SavedPages(t, p, k) + m, third).db)
  {
    hide Perform, PerformAll, RowsOf, Saves, TripRows, TripWrites, TimelineOf, AllExplicitRows, FinalCursor;
    var q, c := Start(p), CrashAfter(t, Start(p), k);
    CrashCursor(t, p, q, n, k, first);
    CrashRows(t, q, n, k);
    CrashOnward(t, q, n, k, m);
    RowsOfTrip(t, c.place, m);
    RowsOfTrip(t, q, c.saved + m);
    TripExplicit(t, q, c.saved + m);
    ResumedWrites(p, TripWrites(t, q, n)[..k], TripWrites(t, c.place, m), TripWrites(t, q, c.saved + m),
                  c.before, c.part, first, second, third);
  }

  /** In particular, when a pull ends within the pages it may ask for, a crash
      anywhere in it and a resumed pull leave what the uncut pull leaves. */
  lemma ResumedTripIsUncut(t: Trip, p: Persistent, n: nat, k: nat, first: Time, second: Time, third: Time)
    requires KeepsHandles(t) && ExplicitRows(t) && Ends(t, Start(p), n) && k < |TripWrites(t, Start(p), n)|
    ensures Outcome(PullOn(t, CrashOn(t, p, n, k, first), n, second)) == Outcome(PullOn(t, p, n, third))
  {
    hide TripWrites, CrashAfter, PullOn, CrashOn, SavedPages, Outcome;
    ResumedTripConverges(t, p, n, k, n, first, second, third);
    EndedPull(t, p, n, SavedPages(t, p, k) + n, third);
  }

  lemma EndedPull(t: Trip, p: Persistent, n: nat, m: nat, now: Time)
    requires Ends(t, Start(p), n) && n <= m
    ensures PullOn(t, p, m, now) == PullOn(t, p, n, now)
  {
    EndedTrip(t, Start(p), n, m);
  }

  // ----- a hub that answers by handle and offset -----

  type Hub = Place -> Fetch

  /** Where a pull goes from a place with this answer. */
  function NextPlace(q: Place, f: Fetch): Place {
    if f.FetchFailed? then q else Place(Coalesce(f.handle, q.handle), NextOffset(q.offset, f))
  }

  function TripOf(hub: Hub): Trip {
    Trip(q => if hub(q).FetchFailed? then [] else MergedRows(hub(q).messages),
         q => NextPlace(q, hub(q)),
         q => hub(q).FetchFailed? || Aborts(hub(q)),
         q => hub(q).FetchFailed? || Last(hub(q)))
  }

  /** The answers to `n` requests of a pull that starts at a place. */
  function Answers(hub: Hub, q: Place, n: nat): (fetches: seq<Fetch>)
    ensures |fetches| == n
    decreases n
  {
    if n == 0 then [] else [hub(q)] + Answers(hub, NextPlace(q, hub(q)), n - 1)
  }

  lemma PlaceAnswered(hub: Hub, q: Place)
    ensures PlaceWrites(TripOf(hub), q) ==
      if hub(q).FetchFailed? then [SaveCursor(q.handle, q.offset, true)]
      else PageWrites(NextPlace(q, hub(q)).handle, NextPlace(q, hub(q)).offset, hub(q).messages)
  {
    assert AsMerges([]) == [] && [] + [SaveCursor(q.handle, q.offset, true)] == [SaveCursor(q.handle, q.offset, true)];
  }

  /** What `PullShapeTable` performs when the hub answers its requests. */
  lemma {:induction false} PullAnswered(hub: Hub, q: Place, n: nat)
    ensures Writes(q.handle, q.offset, Answers(hub, q, n)) == TripWrites(TripOf(hub), q, n)
    decreases n
  {
    if n > 0 {
      var fetches, next := Answers(hub, q, n), NextPlace(q, hub(q));
      assert fetches[0] == hub(q) && fetches[1..] == Answers(hub, next, n - 1);
      PlaceAnswered(hub, q);
      if hub(q).Page? {
        WritesPage(q.handle, q.offset, fetches);
        PullAnswered(hub, next, n - 1);
      }
    }
  }

  /** Every page of the hub says when its nodes were first seen. */
  ghost predicate AllExplicitHub(hub: Hub) {
    forall q :: hub(q).Page? ==> forall row :: row in PageRows(hub(q).messages) ==> Explicit(row)
  }

  lemma {:induction false} ExplicitPage(rows: seq<Row>)
    requires forall row :: row in rows ==> Explicit(row)
    ensures AllExplicitRows(rows)
  {
    if rows != [] { ExplicitPage(rows[..|rows| - 1]); }
  }

  lemma HubTrip(hub: Hub)
    requires AllExplicitHub(hub)
    ensures KeepsHandles(TripOf(hub)) && ExplicitRows(TripOf(hub))
  {
    forall q ensures AllExplicitRows(TripOf(hub).rows(q)) {
      if hub(q).Page? {
        RowsFrom(hub(q).messages, Reach(hub(q).messages));
        ExplicitPage(MergedRows(hub(q).messages));
      }
    }
  }

  /** What `PullShapeTable` stores when the hub answers its `n` requests, and what
      it has stored when it crashes after `k` writes. */
  function HubWrites(hub: Hub, p: Persistent, n: nat): seq<Write> {
    Writes(LoadCursor(p.cursor).handle, LoadCursor(p.cursor).offset, Answers(hub, Start(p), n))
  }

  function HubPull(hub: Hub, p: Persistent, n: nat, now: Time): Persistent {
    PerformAll(p, HubWrites(hub, p, n), now)
  }

  function HubCrash(hub: Hub, p: Persistent, n: nat, k: nat, now: Time): Persistent
    requires k < |HubWrites(hub, p, n)|
  {
    PerformAll(p, HubWrites(hub, p, n)[..k], now)
  }

  lemma HubPullIsTrip(hub: Hub, p: Persistent, n: nat, now: Time)
    ensures HubWrites(hub, p, n) == TripWrites(TripOf(hub), Start(p), n)
    ensures HubPull(hub, p, n, now) == PullOn(TripOf(hub), p, n, now)
  {
    PullAnswered(hub, Start(p), n);
  }

  lemma HubCrashIsTrip(hub: Hub, p: Persistent, n: nat, k: nat, now: Time)
    requires k < |HubWrites(hub, p, n)|
    ensures k < |TripWrites(TripOf(hub), Start(p), n)|
    ensures HubCrash(hub, p, n, k, now) == CrashOn(TripOf(hub), p, n, k, now)
  {
    HubPullIsTrip(hub, p, n, now);
  }

  /** A pull from a hub that answers every request by its handle and offset, ends
      within the `n` pages it may ask for (forty), crashes before its last write
      and is resumed from the stored cursor, leaves the timeline and the cursor of
      the pull that is not cut off, at whatever local times. */
  lemma ResumedPullIsUncut(hub: Hub, p: Persistent, n: nat, k: nat, first: Time, second: Time, third: Time)
    requires AllExplicitHub(hub) && Ends(TripOf(hub), Start(p), n) && k < |HubWrites(hub, p, n)|
    ensures Outcome(HubPull(hub, HubCrash(hub, p, n, k, first), n, second)) == Outcome(HubPull(hub, p, n, third))
  {
    hide TripWrites, HubWrites, HubPull, HubCrash, PullOn, CrashOn, SavedPages, Outcome, PerformAll;
    HubTrip(hub);
    HubCrashIsTrip(hub, p, n, k, first);
    HubPullIsTrip(hub, HubCrash(hub, p, n, k, first), n, second);
    HubPullIsTrip(hub, p, n, third);
    ResumedTripIsUncut(TripOf(hub), p, n, k, first, second, third);
  }

  /** `SavedPages` counts the saves among the writes made before the crash. */
  lemma SavedPagesAreSaves(hub: Hub, p: Persistent, n: nat, k: nat)
    requires k < |HubWrites(hub, p, n)|
    ensures SavedPages(TripOf(hub), p, k) == Saves(HubWrites(hub, p, n)[..k])
  {
    PullAnswered(hub, Start(p), n);
    CrashRows(TripOf(hub), Start(p), n, k);
  }

  /** Without that bound: at most `m` more pages after the crash do what the pages
      whose offset was saved before it and `m` more do in one pull. */
  lemma ResumedPullConverges(hub: Hub, p: Persistent, n: nat, k: nat, m: nat, first: Time, second: Time, third: Time)
    requires AllExplicitHub(hub) && m > 0 && k < |HubWrites(hub, p, n)|
    ensures var crashed, saved := HubCrash(hub, p, n, k, first), Saves(HubWrites(hub, p, n)[..k]);
      Outcome(HubPull(hub, crashed, m, second)) == Outcome(HubPull(hub, p, saved + m, third))
  {
    hide TripWrites, HubWrites, HubPull, HubCrash, PullOn, CrashOn, SavedPages, Saves, Outcome, PerformAll;
    HubTrip(hub);
    HubCrashIsTrip(hub, p, n, k, first);
    HubPullIsTrip(hub, HubCrash(hub, p, n, k, first), m, second);
    HubPullIsTrip(hub, p, SavedPages(TripOf(hub), p, k) + m, third);
    ResumedTripConverges(TripOf(hub), p, n, k, m, first, second, third);
    SavedPagesAreSaves(hub, p, n, k);
  }

  // ----- a pull page by page -----

  /** One more message: it is merged if it is neither a control message nor a delete,
      has a row and merges; it is counted as a delete skipped, as merged or as an error,
      and control messages and messages without a row are not counted. */
  lemma MessageTreated(c: Counts, ms: seq<Message>, m: Message)
    ensures PageRows(ms + [m]) ==
      PageRows(ms) + if !m.control && m.operation != Delete && m.value.Some? && m.applies then [m.value.value] else []
    ensures var was, after := CountAll(c, ms), CountAll(c, ms + [m]);
      var hasRow := !m.control && m.operation != Delete && m.value.Some?;
      && after.pages == was.pages
      && after.skippedDeletes == was.skippedDeletes + (if !m.control && m.operation == Delete then 1 else 0)
      && after.applied == was.applied + (if hasRow && m.applies then 1 else 0)
      && after.errors == was.errors + (if hasRow && !m.applies then 1 else 0)
  {
    assert (ms + [m])[..|ms|] == ms;
  }

  /** The answer ends the pull: a failure, a message that throws, an up-to-date page, or
      one without an offset. */
  predicate EndsPull(f: Fetch) {
    || f.FetchFailed?
    || f.upToDate || f.offset == None
    || exists i :: 0 <= i < |f.messages| && !f.messages[i].control && f.messages[i].operation == NotText
  }

  /** A pull of one page from the stored cursor, or from the beginning. The rows before
      the first message that throws are merged; the cursor gets the page's handle and
      offset, or keeps what it had of them, and tells whether something failed. */
  lemma OnePage(p: Persistent, f: Fetch, now: Time)
    ensures var t := Pulled(p, [f], now);
      var handle := if p.cursor.Some? then p.cursor.value.handle else None;
      var offset := if p.cursor.Some? then p.cursor.value.offset else "-1";
      if f.FetchFailed? then t == Persistent(p.db, Some(Cursor(handle, offset, true)))
      else
        var n := Reach(f.messages);
        && t.db == Deliver(p.db, At(PageRows(f.messages[..n]), now))
        && t.cursor == Some(Cursor(if f.handle.Some? then f.handle else handle,
                                   if f.offset.Some? then f.offset.value else offset, n < |f.messages|))
  {
    var start := LoadCursor(p.cursor);
    if f.FetchFailed? {
      FailedPull(p, start.handle, start.offset, [f], 0, now);
      assert [f][0..] == [f];
    } else {
      var h, o := Coalesce(f.handle, start.handle), NextOffset(start.offset, f);
      PullStep(p, start.handle, start.offset, [f], 0, now);
      assert [f][0..] == [f] && [f][1..] == [];
      PageStored(p, h, o, f.messages, now);
    }
  }

  lemma PageStored(p: Persistent, handle: Option<string>, offset: string, ms: seq<Message>, now: Time)
    ensures var rows := PageRows(ms[..Reach(ms)]);
      PerformAll(p, PageWrites(handle, offset, ms), now) ==
        Persistent(Deliver(p.db, At(rows, now)), Some(Saved(p.cursor, handle, offset, Reach(ms) < |ms|)))
  {
    var rows := PageRows(ms[..Reach(ms)]);
    PerformOne(p, AsMerges(rows), SaveCursor(handle, offset, Reach(ms) < |ms|), now);
    MergesDeliver(p, rows, now);
  }

  lemma {:induction false} MergesDeliver(p: Persistent, rows: seq<Row>, now: Time)
    ensures PerformAll(p, AsMerges(rows), now) == p.(db := Deliver(p.db, At(rows, now)))
  {
    if rows != [] {
      var init, last := rows[..|rows| - 1], rows[|rows| - 1];
      assert rows == init + [last];
      MergesDeliver(p, init, now);
      PerformMerge(p, init, last, now);
      assert At(rows, now)[..|rows| - 1] == At(init, now);
    }
  }

  /** A longer pull is its first page, and then a pull of the others from the cursor that
      this page left, unless it ended the pull. */
  lemma PullSplits(p: Persistent, f: Fetch, rest: seq<Fetch>, now: Time)
    ensures Pulled(p, [f] + rest, now) ==
      if EndsPull(f) then Pulled(p, [f], now) else Pulled(Pulled(p, [f], now), rest, now)
  {
    var start := LoadCursor(p.cursor);
    var all := [f] + rest;
    assert all[0..] == all && all[1..] == rest && [f][0..] == [f] && [f][1..] == [];
    if f.FetchFailed? {
      FailedPull(p, start.handle, start.offset, all, 0, now);
      FailedPull(p, start.handle, start.offset, [f], 0, now);
    } else {
      PullStep(p, start.handle, start.offset, all, 0, now);
      PullStep(p, start.handle, start.offset, [f], 0, now);
      OnePage(p, f, now);
      ThrowsIff(f.messages);
    }
  }

  lemma ThrowsIff(ms: seq<Message>)
    ensures Reach(ms) < |ms| <==> exists i :: 0 <= i < |ms| && !ms[i].control && ms[i].operation == NotText
  {
    if Reach(ms) < |ms| { assert Throws(ms[Reach(ms)]); }
    forall i | 0 <= i < |ms| && !ms[i].control && ms[i].operation == NotText ensures Reach(ms) < |ms| {
      assert Throws(ms[i]);
    }
  }

  /** The counters of a pull likewise: each page counts, a failed fetch and a page that
      throws are one error each. */
  lemma CountsSplit(c: Counts, f: Fetch, rest: seq<Fetch>)
    ensures CountPull(c, []) == c
    ensures CountPull(c, [f] + rest) ==
      if f.FetchFailed? then c.(errors := c.errors + 1)
      else
        var n := Reach(f.messages);
        var examined := CountAll(Counts(c.pages + 1, c.applied, c.skippedDeletes, c.errors), f.messages[..n]);
        var counted := if n < |f.messages| then examined.(errors := examined.errors + 1) else examined;
        if EndsPull(f) then counted else CountPull(counted, rest)
  {
    assert ([f] + rest)[1..] == rest;
    if f.Page? { ThrowsIff(f.messages); }
  }
}
