/** The `/emails` listing (`get_emails`, backend/app.py): the stored rows,
    newest first and optionally only the actionable ones, are cut to a
    window of five times the limit; the first row of each conversation
    thread is kept, up to the limit, and rendered with its summary split
    back into lines. The database query is the sequence `rows` in the order
    the query returns them. */
module Listing {
  import opened Wrappers
  import opened Text
  import opened Assistant
  import opened Poller

  const BodyLimit: nat := 2000
  const WindowFactor: nat := 5

  /** One entry of the JSON list the route returns. */
  datatype EmailView = EmailView(
    msgId: string, threadId: Option<string>, subject: string, sender: string, snippet: string, body: string,
    internalDate: int, isUnread: bool, isImportant: bool, replyNeeded: bool,
    importanceScore: real, replyScore: real, actionable: bool,
    assistantMessage: string, assistantSummary: seq<string>, assistantReply: string)

  /** `e.thread_id or e.msg_id` */
  function ThreadKey(e: EmailRecord): string {
    if e.threadId.Some? && e.threadId.value != [] then e.threadId.value else e.msgId
  }

  function ViewKey(v: EmailView): string {
    if v.threadId.Some? && v.threadId.value != [] then v.threadId.value else v.msgId
  }

  /** A row as the route renders it. */
  function View(e: EmailRecord): (v: EmailView)
    ensures ViewKey(v) == ThreadKey(e) && v.msgId == e.msgId && v.actionable == e.isImportant
    ensures |v.body| <= BodyLimit && v.body == Take(e.body, BodyLimit)
    ensures forall k | 0 <= k < |v.assistantSummary| :: v.assistantSummary[k] != [] && IsStripped(v.assistantSummary[k])
  {
    EmailView(e.msgId, e.threadId, e.subject, e.sender, e.snippet, Take(e.body, BodyLimit), e.internalDate,
              e.isUnread, e.isImportant, e.replyNeeded, e.importanceScore, e.replyScore, e.isImportant,
              e.assistantMessage, StrippedNonEmpty(SplitLines(e.assistantSummary)), e.assistantReply)
  }

  function Views(rows: seq<EmailRecord>): (r: seq<EmailView>)
    ensures |r| == |rows| && forall k | 0 <= k < |r| :: r[k] == View(rows[k])
  {
    if rows == [] then [] else [View(rows[0])] + Views(rows[1..])
  }

  /** The rows that are actionable, in order. */
  function Important(rows: seq<EmailRecord>): (r: seq<EmailRecord>)
    ensures |r| <= |rows|
    ensures forall k | 0 <= k < |r| :: r[k].isImportant
  {
    if rows == [] then []
    else (if rows[0].isImportant then [rows[0]] else []) + Important(rows[1..])
  }

  /** The filter keeps exactly the actionable rows. */
  lemma {:induction false} ImportantMembers(rows: seq<EmailRecord>)
    ensures forall e :: e in Important(rows) <==> e in rows && e.isImportant
    decreases |rows|
  {
    if rows != [] {
      ImportantMembers(rows[1..]);
      assert rows == [rows[0]] + rows[1..];
    }
  }

  /** The query after `filter(is_important)` when only actionable rows are
      asked for. */
  function Selected(rows: seq<EmailRecord>, actionableOnly: bool): seq<EmailRecord> {
    if actionableOnly then Important(rows) else rows
  }

  function Keys(rows: seq<EmailRecord>): set<string> {
    set r | r in rows :: ThreadKey(r)
  }

  /** The rows, in order, that open a thread: a row whose thread already
      has a row earlier on is dropped. */
  function FirstOfEachThread(rows: seq<EmailRecord>): seq<EmailRecord>
    decreases |rows|
  {
    if rows == [] then []
    else
      var kept := FirstOfEachThread(rows[..|rows| - 1]);
      var last := rows[|rows| - 1];
      if ThreadKey(last) in Keys(kept) then kept else kept + [last]
  }

  /** The rows `get_emails` returns: the first row of each thread in the
      window, up to the limit. */
  function Kept(rows: seq<EmailRecord>, limit: int, actionableOnly: bool): (r: seq<EmailRecord>)
    ensures limit <= 0 ==> r == []
    ensures |r| <= if limit > 0 then limit else 0
  {
    if limit <= 0 then []
    else Prefix(FirstOfEachThread(Prefix(Selected(rows, actionableOnly), (if limit > 1 then limit else 1) * WindowFactor)), limit)
  }

  /** The response of `get_emails`. */
  function Listed(rows: seq<EmailRecord>, limit: int, actionableOnly: bool): seq<EmailView> {
    Views(Kept(rows, limit, actionableOnly))
  }

  /** `get_emails`: the window is read from the query, then walked. */
  method GetEmails(rows: seq<EmailRecord>, limit: int, actionableOnly: bool) returns (results: seq<EmailView>)
    ensures results == Listed(rows, limit, actionableOnly)
  {
    if limit <= 0 {
      return [];
    }
    var fetchLimit := (if limit > 1 then limit else 1) * WindowFactor;
    var emails := Prefix(Selected(rows, actionableOnly), fetchLimit);
    results := FirstThreads(emails, limit);
  }

  /** The loop of `get_emails` over the window: a row whose thread was seen
      is skipped, and the walk stops once the limit is reached. */
  method FirstThreads(emails: seq<EmailRecord>, limit: nat) returns (results: seq<EmailView>)
    requires limit > 0
    ensures results == Views(Prefix(FirstOfEachThread(emails), limit))
  {
    results := [];
    var seenThreads: set<string> := {};
    ghost var kept: seq<EmailRecord> := [];
    var i := 0;
    while i < |emails|
      invariant 0 <= i <= |emails|
      invariant kept == FirstOfEachThread(emails[..i])
      invariant seenThreads == Keys(kept)
      invariant results == Views(kept)
      invariant |results| < limit
    {
      var e := emails[i];
      FirstStep(emails, i);
      if ThreadKey(e) in seenThreads {
        i := i + 1;
        continue;
      }
      KeysSnoc(kept, e);
      ViewsSnoc(kept, e);
      seenThreads := seenThreads + {ThreadKey(e)};
      results := results + [View(e)];
      kept := kept + [e];
      i := i + 1;
      if |results| >= limit {
        FirstPrefix(emails, i);
        PrefixOfExtension(kept, FirstOfEachThread(emails), limit);
        break;
      }
    }
    if |results| < limit {
      assert emails[..i] == emails;
    }
  }

  // ---------------------------------------------------------------- lemmas

  lemma PrefixOfExtension<T>(a: seq<T>, b: seq<T>, n: nat)
    requires a <= b && |a| == n
    ensures Prefix(b, n) == a
  {
  }

  lemma FirstStep(rows: seq<EmailRecord>, i: nat)
    requires i < |rows|
    ensures var kept := FirstOfEachThread(rows[..i]);
            FirstOfEachThread(rows[..i + 1]) == if ThreadKey(rows[i]) in Keys(kept) then kept else kept + [rows[i]]
  {
    assert rows[..i + 1][..i] == rows[..i];
  }

  lemma ViewsSnoc(rows: seq<EmailRecord>, e: EmailRecord)
    ensures Views(rows + [e]) == Views(rows) + [View(e)]
  {
  }

  /** Dropping rows from the end drops kept rows from the end. */
  lemma {:induction false} FirstPrefix(rows: seq<EmailRecord>, i: nat)
    requires i <= |rows|
    ensures FirstOfEachThread(rows[..i]) <= FirstOfEachThread(rows)
    decreases |rows|
  {
    if i < |rows| {
      var init := rows[..|rows| - 1];
      assert init[..i] == rows[..i];
      FirstPrefix(init, i);
    } else {
      assert rows[..i] == rows;
    }
  }

  predicate DistinctKeys(rows: seq<EmailRecord>) {
    forall i, j | 0 <= i < j < |rows| :: ThreadKey(rows[i]) != ThreadKey(rows[j])
  }

  /** No earlier row shares row `j`'s thread. */
  predicate OpensThread(rows: seq<EmailRecord>, j: int)
    requires 0 <= j < |rows|
  {
    forall i | 0 <= i < j :: ThreadKey(rows[i]) != ThreadKey(rows[j])
  }

  lemma KeysSnoc(rows: seq<EmailRecord>, e: EmailRecord)
    ensures Keys(rows + [e]) == Keys(rows) + {ThreadKey(e)}
  {
    assert forall x | x in rows + [e] :: x in rows || x == e;
    assert e in rows + [e];
    assert forall x | x in rows :: x in rows + [e];
  }

  /** The kept rows have one row per thread, and every thread of the input
      is represented. */
  lemma {:induction false} KeptKeys(rows: seq<EmailRecord>)
    ensures DistinctKeys(FirstOfEachThread(rows))
    ensures Keys(FirstOfEachThread(rows)) == Keys(rows)
    decreases |rows|
  {
    if rows == [] {
      assert Keys(rows) == {};
    } else {
      var init := rows[..|rows| - 1];
      var last := rows[|rows| - 1];
      var kept := FirstOfEachThread(init);
      KeptKeys(init);
      assert rows == init + [last];
      KeysSnoc(init, last);
      if ThreadKey(last) !in Keys(kept) {
        KeysSnoc(kept, last);
        forall i | 0 <= i < |kept| ensures ThreadKey(kept[i]) != ThreadKey(last) {
          assert kept[i] in kept;
        }
      }
    }
  }

  /** A row opens its thread exactly when no earlier row has its key. */
  lemma OpensIffNew(rows: seq<EmailRecord>, j: int)
    requires 0 <= j < |rows|
    ensures OpensThread(rows, j) <==> ThreadKey(rows[j]) !in Keys(rows[..j])
  {
    if !OpensThread(rows, j) {
      var i :| 0 <= i < j && ThreadKey(rows[i]) == ThreadKey(rows[j]);
      assert rows[..j][i] == rows[i];
    } else {
      forall x | x in rows[..j] ensures ThreadKey(x) != ThreadKey(rows[j]) {
        var i :| 0 <= i < j && rows[..j][i] == x;
      }
    }
  }

  /** `x` is a row of `rows` that opens its thread. */
  predicate HasOpener(rows: seq<EmailRecord>, x: EmailRecord) {
    exists j | 0 <= j < |rows| :: rows[j] == x && OpensThread(rows, j)
  }

  predicate FromOpeners(rows: seq<EmailRecord>, kept: seq<EmailRecord>) {
    forall k | 0 <= k < |kept| :: HasOpener(rows, kept[k])
  }

  lemma {:induction false} KeptOpens(rows: seq<EmailRecord>)
    ensures FromOpeners(rows, FirstOfEachThread(rows))
    decreases |rows|
  {
    if rows == [] {
      assert FirstOfEachThread(rows) == [];
    } else {
      var init := rows[..|rows| - 1];
      var last := rows[|rows| - 1];
      var kept := FirstOfEachThread(init);
      KeptOpens(init);
      var out := FirstOfEachThread(rows);
      assert out == kept || out == kept + [last];
      forall k | 0 <= k < |out|
        ensures HasOpener(rows, out[k])
      {
        if k < |kept| {
          assert HasOpener(init, kept[k]);
          var j :| 0 <= j < |init| && init[j] == kept[k] && OpensThread(init, j);
          assert out[k] == kept[k];
          assert rows[j] == init[j];
          assert OpensThread(rows, j);
          assert rows[j] == out[k] && OpensThread(rows, j);
          assert HasOpener(rows, out[k]);
        } else {
          KeptKeys(init);
          OpensIffNew(rows, |rows| - 1);
          assert rows[..|rows| - 1] == init;
          assert ThreadKey(last) !in Keys(kept);
          assert out == kept + [last];
          assert rows[|rows| - 1] == out[k];
          assert OpensThread(rows, |rows| - 1);
          assert HasOpener(rows, out[k]);
        }
      }
      assert FromOpeners(rows, out);
    }
  }

  /** Every row that opens its thread is kept. */
  lemma {:induction false} OpensKept(rows: seq<EmailRecord>)
    ensures forall j | 0 <= j < |rows| && OpensThread(rows, j) :: rows[j] in FirstOfEachThread(rows)
    decreases |rows|
  {
    if rows != [] {
      var init := rows[..|rows| - 1];
      var last := rows[|rows| - 1];
      OpensKept(init);
      forall j | 0 <= j < |rows| && OpensThread(rows, j) ensures rows[j] in FirstOfEachThread(rows) {
        if j < |rows| - 1 {
          assert OpensThread(init, j);
          assert init[j] in FirstOfEachThread(init);
        } else {
          KeptKeys(init);
          OpensIffNew(rows, j);
        }
      }
    }
  }

  /** Rows ordered newest first, as the query orders them. */
  predicate NewestFirst(rows: seq<EmailRecord>) {
    forall i, j | 0 <= i < j < |rows| :: rows[i].internalDate >= rows[j].internalDate
  }

  lemma {:induction false} ImportantNewestFirst(rows: seq<EmailRecord>)
    requires NewestFirst(rows)
    ensures NewestFirst(Important(rows))
    decreases |rows|
  {
    if rows != [] {
      var tail := Important(rows[1..]);
      ImportantNewestFirst(rows[1..]);
      if rows[0].isImportant {
        assert Important(rows) == [rows[0]] + tail;
        ImportantMembers(rows[1..]);
        forall j | 0 <= j < |tail| ensures rows[0].internalDate >= tail[j].internalDate {
          assert tail[j] in tail;
          var i :| 0 <= i < |rows[1..]| && rows[1..][i] == tail[j];
          assert rows[i + 1] == tail[j];
        }
      } else {
        assert Important(rows) == tail;
      }
    }
  }

  /** Under the query's ordering each kept row is the newest of its thread. */
  lemma KeptIsNewest(rows: seq<EmailRecord>)
    requires NewestFirst(rows)
    ensures forall k, j | 0 <= k < |FirstOfEachThread(rows)| && 0 <= j < |rows|
                          && ThreadKey(rows[j]) == ThreadKey(FirstOfEachThread(rows)[k]) ::
              FirstOfEachThread(rows)[k].internalDate >= rows[j].internalDate
  {
    KeptOpens(rows);
    var kept := FirstOfEachThread(rows);
    forall k, j | 0 <= k < |kept| && 0 <= j < |rows| && ThreadKey(rows[j]) == ThreadKey(kept[k])
      ensures kept[k].internalDate >= rows[j].internalDate
    {
      assert HasOpener(rows, kept[k]);
      var j0 :| 0 <= j0 < |rows| && rows[j0] == kept[k] && OpensThread(rows, j0);
    }
  }

  /** The window the listing reads for a positive limit. */
  function Window(rows: seq<EmailRecord>, limit: int, actionableOnly: bool): (w: seq<EmailRecord>)
    requires limit > 0
    ensures FirstOfEachThread(w) == FirstOfEachThread(Prefix(Selected(rows, actionableOnly), (if limit > 1 then limit else 1) * WindowFactor))
    ensures Kept(rows, limit, actionableOnly) == Prefix(FirstOfEachThread(w), limit)
  {
    Prefix(Selected(rows, actionableOnly), limit * WindowFactor)
  }

  /** Rows of one thread keep only the first. */
  lemma {:induction false} SingleThread(rows: seq<EmailRecord>)
    requires rows != [] && forall k | 0 <= k < |rows| :: ThreadKey(rows[k]) == ThreadKey(rows[0])
    ensures FirstOfEachThread(rows) == [rows[0]]
    decreases |rows|
  {
    var init := rows[..|rows| - 1];
    if init == [] {
      assert rows == [rows[0]];
    } else {
      assert forall k | 0 <= k < |init| :: init[k] == rows[k];
      SingleThread(init);
      assert ThreadKey(rows[0]) in Keys([rows[0]]);
    }
  }

  /** The window may hide threads: when its `5 * limit` newest rows all
      belong to one thread, the listing shows that thread alone, whatever
      other threads older rows belong to. */
  lemma WindowHidesThreads(rows: seq<EmailRecord>, limit: int)
    requires limit > 1 && |rows| >= limit * WindowFactor
    requires forall k | 0 <= k < limit * WindowFactor :: ThreadKey(rows[k]) == ThreadKey(rows[0])
    ensures |Listed(rows, limit, false)| == 1 < limit
  {
    var w := Window(rows, limit, false);
    assert forall k | 0 <= k < |w| :: w[k] == rows[k];
    SingleThread(w);
  }

  /** The listing shows one entry per thread. */
  lemma ListedDistinct(rows: seq<EmailRecord>, limit: int, actionableOnly: bool)
    requires limit > 0
    ensures var r := Listed(rows, limit, actionableOnly);
            forall i, j | 0 <= i < j < |r| :: ViewKey(r[i]) != ViewKey(r[j])
  {
    KeptKeys(Window(rows, limit, actionableOnly));
  }

  /** Every entry renders a stored row, an actionable one when only
      actionable rows were asked for. */
  lemma ListedFromRows(rows: seq<EmailRecord>, limit: int, actionableOnly: bool)
    requires limit > 0
    ensures var r := Listed(rows, limit, actionableOnly);
            forall k | 0 <= k < |r| :: exists e | e in rows :: r[k] == View(e) && (actionableOnly ==> e.isImportant)
  {
    var window := Window(rows, limit, actionableOnly);
    var kept := FirstOfEachThread(window);
    var r := Listed(rows, limit, actionableOnly);
    KeptOpens(window);
    ImportantMembers(rows);
    forall k | 0 <= k < |r| ensures exists e | e in rows :: r[k] == View(e) && (actionableOnly ==> e.isImportant) {
      assert HasOpener(window, kept[k]);
      var j :| 0 <= j < |window| && window[j] == kept[k] && OpensThread(window, j);
      assert window[j] in Selected(rows, actionableOnly);
    }
  }

  /** The listing is empty only when no row qualifies. */
  lemma ListedNonEmpty(rows: seq<EmailRecord>, limit: int, actionableOnly: bool)
    requires limit > 0 && Selected(rows, actionableOnly) != []
    ensures Listed(rows, limit, actionableOnly) != []
  {
    var window := Window(rows, limit, actionableOnly);
    assert window[0] in window;
    KeptKeys(window);
    assert ThreadKey(window[0]) in Keys(window);
  }

  /** With rows newest first, as the query orders them, each entry is the
      newest row of its thread in the window. */
  lemma ListedNewest(rows: seq<EmailRecord>, limit: int, actionableOnly: bool)
    requires limit > 0 && NewestFirst(rows)
    ensures var window := Window(rows, limit, actionableOnly);
            var r := Listed(rows, limit, actionableOnly);
            forall k, j | 0 <= k < |r| && 0 <= j < |window| && ViewKey(r[k]) == ThreadKey(window[j]) ::
              r[k].internalDate >= window[j].internalDate
  {
    var window := Window(rows, limit, actionableOnly);
    var kept := FirstOfEachThread(window);
    var r := Listed(rows, limit, actionableOnly);
    if actionableOnly {
      ImportantNewestFirst(rows);
    }
    assert NewestFirst(window);
    KeptIsNewest(window);
    forall k, j | 0 <= k < |r| && 0 <= j < |window| && ViewKey(r[k]) == ThreadKey(window[j])
      ensures r[k].internalDate >= window[j].internalDate
    {
      assert r[k] == View(kept[k]);
    }
  }

  /** A summary the poll cycle stored is read back as the items it was
      built from, when those have no line breaks inside. */
  lemma SummaryRoundTrip(e: EmailRecord, items: seq<string>)
    requires forall k | 0 <= k < |items| :: NoLineBreak(items[k])
    requires e.assistantSummary == JoinLines(StrippedNonEmpty(items))
    ensures View(e).assistantSummary == StrippedNonEmpty(items)
  {
    var clean := StrippedNonEmpty(items);
    NoLineBreakKept(items);
    SplitJoin(clean);
    StrippedNonEmptyKeeps(clean);
  }

  lemma {:induction false} NoLineBreakKept(items: seq<string>)
    requires forall k | 0 <= k < |items| :: NoLineBreak(items[k])
    ensures forall k | 0 <= k < |StrippedNonEmpty(items)| :: NoLineBreak(StrippedNonEmpty(items)[k])
  {
    if items != [] {
      StripNoLineBreak(items[0]);
      NoLineBreakKept(items[1..]);
    }
  }

  lemma StripNoLineBreak(s: string)
    requires NoLineBreak(s)
    ensures NoLineBreak(Strip(s))
  {
    var t := s[Leading(s, IsSpace)..];
    assert forall i | 0 <= i < |t| :: t[i] == s[Leading(s, IsSpace) + i];
    var u := t[..|t| - Trailing(t, IsSpace)];
    assert forall i | 0 <= i < |u| :: u[i] == t[i];
  }

  function Row(id: string, thread: string, date: int): EmailRecord {
    EmailRecord(id, Some(thread), "", "", "", "", date, true, true, false, 0.0, 0.0, "", "", "")
  }

  /** Two messages of one thread and one of another, newest first: the
      listing shows the newer message of the first thread and the other
      thread's message. */
  lemma ThreadExample()
    ensures Listed([Row("m2", "thread-1", 200), Row("m3", "thread-2", 150), Row("m1", "thread-1", 100)], 10, true)
            == [View(Row("m2", "thread-1", 200)), View(Row("m3", "thread-2", 150))]
  {
    var m1, m2, m3 := Row("m1", "thread-1", 100), Row("m2", "thread-1", 200), Row("m3", "thread-2", 150);
    var rows := [m2, m3, m1];
    assert Important([m1]) == [m1];
    assert [m3, m1][1..] == [m1];
    assert rows[1..] == [m3, m1];
    assert Important(rows) == rows;
    assert Prefix(rows, 50) == rows;
    assert rows[..0] == [];
    assert rows[..1] == [m2];
    assert rows[..2] == [m2, m3];
    assert [m2][..0] == [];
    assert [m2, m3][..1] == [m2];
    assert FirstOfEachThread([m2]) == [m2];
    assert Keys([m2]) == {"thread-1"};
    assert FirstOfEachThread([m2, m3]) == [m2, m3];
    assert Keys([m2, m3]) == {"thread-1", "thread-2"} by {
      KeysSnoc([m2], m3);
      assert [m2] + [m3] == [m2, m3];
    }
    assert FirstOfEachThread(rows) == [m2, m3];
    assert Prefix([m2, m3], 10) == [m2, m3];
    assert [m3][1..] == [];
    assert Views([m2, m3]) == [View(m2), View(m3)];
  }
}
