/** The post-processing in `craft_assistant_message` (backend/triage.py):
    the generated reply is parsed; on failure a fixed notification and the
    snippet stand in; otherwise the notification is defaulted and cut to 280
    characters, the summary is split into at most three items and the reply
    draft is stripped. */
module Assistant {
  import opened Wrappers
  import opened Text
  import opened Values
  import opened ResponseParser

  /** The fields `extract_payload` (backend/gmail_client.py) always fills. */
  datatype Payload = Payload(sender: string, subject: string, snippet: string, body: string)

  datatype Guidance = Guidance(notification: string, summary: seq<string>, replyDraft: string)

  const NotificationLimit: nat := 280
  const SummaryLimit: nat := 3
  const FallbackSummaryLimit: nat := 180

  /** The notification used when the reply cannot be parsed. */
  function FallbackNotification(sender: string, subject: string): string {
    "You have an actionable email from " + sender + " about '" + subject + "'."
  }

  /** The notification used when the parsed reply has none. */
  function DefaultNotification(sender: string): (r: string)
    ensures r != []
  {
    "You have an actionable email from " + sender + "."
  }

  /** The characters `item.strip(" -*•\t")` removes. */
  predicate IsBulletChar(c: char) {
    c == ' ' || c == '-' || c == '*' || c == '\U{2022}' || c == '\t'
  }

  /** The number of lines that are not blank. */
  function NonBlankCount(lines: seq<string>): (n: nat)
    ensures n <= |lines|
  {
    if lines == [] then 0 else (if Strip(lines[0]) != [] then 1 else 0) + NonBlankCount(lines[1..])
  }

  /** Empty, or neither starting nor ending with a bullet character. */
  predicate Unmarked(item: string) {
    item == [] || (!IsBulletChar(item[0]) && !IsBulletChar(item[|item| - 1]))
  }

  /** `item.strip(" -*•\t")` */
  function Unbulleted(line: string): (r: string)
    ensures |r| <= |line|
    ensures Unmarked(r)
  {
    StripBy(line, IsBulletChar)
  }

  /** `[item.strip(" -*•\t") for item in lines if item.strip()]`: one item
      per non-blank line. */
  function BulletItems(lines: seq<string>): (r: seq<string>)
    ensures |r| == NonBlankCount(lines) && |r| <= |lines|
    ensures forall k | 0 <= k < |r| :: Unmarked(r[k])
  {
    if lines == [] then [] else LineItem(lines[0]) + BulletItems(lines[1..])
  }

  /** The item one line contributes: none for a blank line. */
  function LineItem(line: string): (r: seq<string>)
    ensures |r| == (if Strip(line) != [] then 1 else 0)
    ensures forall k | 0 <= k < |r| :: Unmarked(r[k])
  {
    if Strip(line) != [] then [Unbulleted(line)] else []
  }

  /** `[str(item) for item in items]` */
  function Rendered(items: seq<Value>): (r: seq<string>)
    ensures |r| == |items| && forall k | 0 <= k < |r| :: r[k] == ToStr(items[k])
  {
    if items == [] then [] else [ToStr(items[0])] + Rendered(items[1..])
  }

  /** The summary items before the cap: a string is split into lines with
      bullet marks removed; a list gives its items rendered and stripped.
      Iterating any other value raises (`None`). */
  function SummaryItems(v: Value): (r: Option<seq<string>>)
    ensures v.VStr? ==> r == Some(BulletItems(SplitLines(v.s)))
    ensures v.VList? ==> r == Some(StrippedNonEmpty(Rendered(v.items)))
    ensures r.Some? <==> v.VStr? || v.VList?
  {
    match v
    case VStr(s) => Some(BulletItems(SplitLines(s)))
    case VList(items) => Some(StrippedNonEmpty(Rendered(items)))
    case _ => None
  }

  /** `[fallback.strip()] if fallback.strip() else []`, where the fallback
      is the snippet or, when there is none, the first 180 characters of the
      body. */
  function FallbackSummary(p: Payload): (r: seq<string>)
    ensures |r| <= 1 && forall k | 0 <= k < |r| :: r[k] != [] && IsStripped(r[k])
    ensures p.snippet != [] ==> (r == [] <==> Strip(p.snippet) == []) && (r != [] ==> r == [Strip(p.snippet)])
    ensures p.snippet == [] ==>
              var head := Take(p.body, FallbackSummaryLimit);
              |head| == (if |p.body| <= FallbackSummaryLimit then |p.body| else FallbackSummaryLimit) && head == p.body[..|head|]
              && (r == [] <==> Strip(head) == []) && (r != [] ==> r == [Strip(head)])
  {
    var text := if p.snippet != [] then p.snippet else Take(p.body, FallbackSummaryLimit);
    if Strip(text) != [] then [Strip(text)] else []
  }

  /** `craft_assistant_message` after the model call: `replyText` is the
      stripped text of the reply. `None` stands for the exception the source
      raises when the summary is neither a string nor a list. */
  function CraftAssistantMessage(p: Payload, replyText: string,
                                 loads: string -> Option<Value>, literal: string -> Option<Value>): (g: Option<Guidance>)
    ensures SafeLoadJson(replyText, loads, literal).Err? ==>
              g == Some(Guidance(FallbackNotification(p.sender, p.subject), FallbackSummary(p), ""))
    ensures SafeLoadJson(replyText, loads, literal).Ok? ==>
              var data := SafeLoadJson(replyText, loads, literal).value;
              && (g.None? <==> SummaryItems(Get(data, "summary", VList([]))).None?)
              && (g.Some? ==>
                    var given := Strip(ToStr(Get(data, "notification", VStr(""))));
                    var source := if given == [] then DefaultNotification(p.sender) else given;
                    && g.value.notification != [] && |g.value.notification| <= NotificationLimit
                    && |g.value.notification| == (if |source| <= NotificationLimit then |source| else NotificationLimit)
                    && g.value.notification == source[..|g.value.notification|]
                    && g.value.summary == Prefix(SummaryItems(Get(data, "summary", VList([]))).value, SummaryLimit)
                    && g.value.replyDraft == Strip(ToStr(Get(data, "reply_draft", VStr("")))))
    ensures g.Some? ==> |g.value.summary| <= SummaryLimit && IsStripped(g.value.replyDraft)
  {
    match SafeLoadJson(replyText, loads, literal)
    case Err(_) =>
      Some(Guidance(FallbackNotification(p.sender, p.subject), FallbackSummary(p), ""))
    case Ok(data) =>
      var given := Strip(ToStr(Get(data, "notification", VStr(""))));
      var notification := Take(if given == [] then DefaultNotification(p.sender) else given, NotificationLimit);
      match SummaryItems(Get(data, "summary", VList([])))
      case None => None
      case Some(items) =>
        Some(Guidance(notification, Prefix(items, SummaryLimit), Strip(ToStr(Get(data, "reply_draft", VStr(""))))))
  }

  /** `items[:n]` */
  function Prefix<T>(items: seq<T>, n: nat): (r: seq<T>)
    ensures |r| <= n && |r| <= |items| && r == items[..|r|]
    ensures |items| <= n ==> r == items
    ensures |items| >= n ==> |r| == n
  {
    if |items| <= n then items else items[..n]
  }

  // ---------------------------------------------------------------- lemmas

  /** A notification the model wrote is kept, stripped, when it fits. */
  lemma NotificationKept(p: Payload, replyText: string, loads: string -> Option<Value>,
                         literal: string -> Option<Value>, note: string)
    requires SafeLoadJson(replyText, loads, literal).Ok?
    requires Get(SafeLoadJson(replyText, loads, literal).value, "notification", VStr("")) == VStr(note)
    requires Strip(note) != [] && |Strip(note)| <= NotificationLimit
    requires CraftAssistantMessage(p, replyText, loads, literal).Some?
    ensures CraftAssistantMessage(p, replyText, loads, literal).value.notification == Strip(note)
  {
  }

  /** A list summary of stripped, non-empty strings is kept in order, up to
      the cap. */
  lemma {:induction false} ListSummaryKept(items: seq<string>)
    requires forall k | 0 <= k < |items| :: items[k] != [] && IsStripped(items[k])
    ensures SummaryItems(VList(Strs(items))) == Some(items)
  {
    assert Rendered(Strs(items)) == items;
    StrippedNonEmptyKeeps(items);
  }

  function Strs(items: seq<string>): (r: seq<Value>)
    ensures |r| == |items| && forall k | 0 <= k < |r| :: r[k] == VStr(items[k])
  {
    if items == [] then [] else [VStr(items[0])] + Strs(items[1..])
  }

  /** Bullet-free items joined by line feeds and read back as a text summary
      give the items back. */
  lemma {:induction false} TextSummaryRoundTrip(items: seq<string>)
    requires forall k | 0 <= k < |items| ::
               items[k] != [] && NoLineBreak(items[k]) && IsStripped(items[k])
               && !IsBulletChar(items[k][0]) && !IsBulletChar(items[k][|items[k]| - 1])
    ensures SummaryItems(VStr(JoinLines(items))) == Some(items)
  {
    SplitJoin(items);
    BulletItemsKeep(items);
  }

  lemma {:induction false} BulletItemsKeep(items: seq<string>)
    requires forall k | 0 <= k < |items| ::
               items[k] != [] && IsStripped(items[k])
               && !IsBulletChar(items[k][0]) && !IsBulletChar(items[k][|items[k]| - 1])
    ensures BulletItems(items) == items
  {
    if items != [] {
      StripOfStripped(items[0]);
      assert StripBy(items[0], IsBulletChar) == items[0] by {
        assert Leading(items[0], IsBulletChar) == 0;
        assert Trailing(items[0], IsBulletChar) == 0;
      }
      BulletItemsKeep(items[1..]);
    }
  }

  /** `"- " + x` for every item `x`: the items as a bulleted list. */
  function Marked(items: seq<string>): (r: seq<string>)
    ensures |r| == |items| && forall k | 0 <= k < |r| :: r[k] == "- " + items[k]
  {
    if items == [] then [] else ["- " + items[0]] + Marked(items[1..])
  }

  /** The bullet mark of `"- " + x` is removed, leaving `x`. */
  lemma MarkRemoved(x: string)
    requires x != [] && !IsBulletChar(x[0]) && !IsBulletChar(x[|x| - 1])
    ensures Strip("- " + x) != [] && StripBy("- " + x, IsBulletChar) == x
  {
    var line := "- " + x;
    assert Leading(line, IsSpace) == 0;
    assert Leading(line, IsBulletChar) == 2 by {
      assert line[1..] == " " + x && line[2..] == x;
    }
    assert line[2..] == x;
    assert Trailing(x, IsBulletChar) == 0;
  }

  /** Marked lines lose their marks: `- x` becomes `x`, line by line. */
  lemma {:induction false} BulletItemsUnmark(items: seq<string>)
    requires forall k | 0 <= k < |items| ::
               items[k] != [] && !IsBulletChar(items[k][0]) && !IsBulletChar(items[k][|items[k]| - 1])
    ensures BulletItems(Marked(items)) == items
  {
    if items != [] {
      MarkRemoved(items[0]);
      assert Marked(items)[1..] == Marked(items[1..]);
      BulletItemsUnmark(items[1..]);
    }
  }

  /** A bulleted text summary gives its items without the marks. */
  lemma MarkedSummaryUnmarked(items: seq<string>)
    requires forall k | 0 <= k < |items| ::
               items[k] != [] && NoLineBreak(items[k])
               && !IsBulletChar(items[k][0]) && !IsBulletChar(items[k][|items[k]| - 1])
    ensures SummaryItems(VStr(JoinLines(Marked(items)))) == Some(items)
  {
    forall k | 0 <= k < |items| ensures NoLineBreak(Marked(items)[k]) {
      var line := Marked(items)[k];
      forall i | 0 <= i < |line| ensures !IsLineBreak(line[i]) {
        if i >= 2 { assert line[i] == items[k][i - 2]; }
      }
    }
    SplitJoin(Marked(items));
    BulletItemsUnmark(items);
  }

  /** The summary text `- Call Bob` gives the item `Call Bob`. */
  lemma CallBobExample()
    ensures SummaryItems(VStr("- Call Bob")) == Some(["Call Bob"])
  {
    var items := ["Call Bob"];
    assert "- " + items[0] == "- Call Bob";
    assert |Marked(items)| == 1 && Marked(items)[0] == "- Call Bob";
    assert Marked(items) == ["- Call Bob"];
    assert JoinLines(Marked(items)) == "- Call Bob";
    MarkedSummaryUnmarked(items);
  }

  /** A line holding only a bullet mark passes the `item.strip()` filter
      but turns into an empty summary item. */
  lemma BulletOnlyLineExample()
    ensures SummaryItems(VStr("-")) == Some([""])
  {
    var line := "-";
    SplitLinesSingle(line);
    assert Strip(line) == line by {
      StripOfStripped(line);
    }
    assert StripBy(line, IsBulletChar) == "" by {
      assert Leading(line, IsBulletChar) == 1 by {
        assert line[1..] == [];
      }
    }
    var lines: seq<string> := [line];
    assert lines[1..] == [];
    assert BulletItems(lines) == [""];
  }

  /** The fallback notification is not cut to 280 characters: a long
      subject makes it longer. */
  lemma FallbackNotificationUncapped(p: Payload)
    requires |p.subject| > NotificationLimit
    ensures |FallbackNotification(p.sender, p.subject)| > NotificationLimit
  {
  }
}
