/** The poll orchestrator `run_poll_cycle` (backend/app.py), run one cycle at
    a time: list the recent messages, skip those already stored, fetch,
    filter promotions, classify, derive the stored flags, request guidance
    for actionable messages, store the record and publish an event. The mail
    provider, the classifier and the guidance writer are parameters; the
    database is the `store` sequence. */
module Poller {
  import opened Wrappers
  import opened Text
  import opened Values
  import opened Signals
  import opened Classifier
  import opened Assistant
  import opened Notify

  const PromotionLabelHints: seq<string> :=
    ["CATEGORY_PROMOTIONS", "^SMARTLABEL_PROMO", "SMARTLABEL_PROMO", "PROMOTIONS", "PROMOTION", "PROMO", "ADVERT"]

  /** A score below this forces its flag off. */
  const FlagFloor: real := 0.45

  const ClassificationFailed: string := "Classification failed"

  // -------------------------------------------------------------- messages

  /** An entry of the provider's listing: `m.get("id")`. */
  datatype MessageRef = MessageRef(id: Option<string>)

  /** What the poll cycle reads of a fetched message. */
  datatype FullMessage = FullMessage(threadId: Option<string>, internalDate: int, labelIds: seq<string>, payload: Payload)

  /** A row of the `emails` table as the poll cycle writes it. */
  datatype EmailRecord = EmailRecord(
    msgId: string, threadId: Option<string>, subject: string, sender: string, snippet: string, body: string,
    internalDate: int, isUnread: bool, isImportant: bool, replyNeeded: bool,
    importanceScore: real, replyScore: real,
    assistantMessage: string, assistantSummary: string, assistantReply: string)

  /** The outside services one cycle uses: the provider's `get_message`
      (`None` where it raises), `classify` (`None` where it raises),
      `craft_assistant_message` (`None` where it raises), and the two
      thresholds read from the environment. */
  datatype Services = Services(
    fetch: string -> Option<FullMessage>,
    classify: string -> Option<map<string, Value>>,
    craft: Payload -> Option<Guidance>,
    importanceThreshold: real, replyThreshold: real)

  datatype CycleStatus = Busy | NeedsAuth | Failed(error: string) | NoMessages | Processed(processed: nat)

  // ------------------------------------------------------------ promotions

  predicate PromoLabel(lbl: string) {
    ContainsAny(Upper(lbl), PromotionLabelHints)
  }

  /** `_is_promotional_message`: some label, upper-cased, contains one of
      the promotion hints. */
  predicate IsPromotional(labels: seq<string>) {
    exists k | 0 <= k < |labels| :: PromoLabel(labels[k])
  }

  lemma HintHasPromo(hint: string, at: nat)
    requires at + 5 <= |hint| && hint[at..at + 5] == "PROMO"
    ensures Contains(hint, "PROMO")
  {
    assert MatchAt(hint, "PROMO", at);
  }

  /** Every hint but `ADVERT` contains `PROMO`, so a label is promotional
      exactly when it contains `PROMO` or `ADVERT`. */
  lemma PromoLabelIffPromoOrAdvert(lbl: string)
    ensures PromoLabel(lbl) <==> Contains(Upper(lbl), "PROMO") || Contains(Upper(lbl), "ADVERT")
  {
    var u := Upper(lbl);
    var h := PromotionLabelHints;
    if PromoLabel(lbl) {
      var k :| 0 <= k < |h| && Contains(u, h[k]);
      if k == 0 { HintHasPromo(h[0], 9); ContainsTransitive(u, h[0], "PROMO"); }
      else if k == 1 { HintHasPromo(h[1], 12); ContainsTransitive(u, h[1], "PROMO"); }
      else if k == 2 { HintHasPromo(h[2], 11); ContainsTransitive(u, h[2], "PROMO"); }
      else if k == 3 { HintHasPromo(h[3], 0); ContainsTransitive(u, h[3], "PROMO"); }
      else if k == 4 { HintHasPromo(h[4], 0); ContainsTransitive(u, h[4], "PROMO"); }
    }
    if Contains(u, "PROMO") {
      assert h[5] == "PROMO";
    }
    if Contains(u, "ADVERT") {
      assert h[6] == "ADVERT";
    }
  }

  /** Extra labels never make a promotional message ordinary. */
  lemma PromotionalMonotone(labels: seq<string>, more: seq<string>)
    requires IsPromotional(labels)
    ensures IsPromotional(labels + more) && IsPromotional(more + labels)
  {
    var k :| 0 <= k < |labels| && PromoLabel(labels[k]);
    assert (labels + more)[k] == labels[k];
    assert (more + labels)[|more| + k] == labels[k];
  }

  function Uppers(labels: seq<string>): (r: seq<string>)
    ensures |r| == |labels| && forall k | 0 <= k < |r| :: r[k] == Upper(labels[k])
  {
    if labels == [] then [] else [Upper(labels[0])] + Uppers(labels[1..])
  }

  // --------------------------------------------------------- stored flags

  /** `float(result.get(key, 0))`, 0.0 where it raises, clamped to [0, 1];
      the same as the classifier's own clamp. */
  function ScoreOf(result: map<string, Value>, key: string): (r: real)
    ensures r == ClampScore(Get(result, key, VInt(0)))
  {
    var x := match ToFloat(Get(result, key, VInt(0))) case Some(f) => f case None => 0.0;
    Max(0.0, Min(1.0, x))
  }

  /** The importance flag before it is folded into `actionable`. */
  predicate ImportanceFlag(result: map<string, Value>, threshold: real) {
    (Truthy(Get(result, "importance", VNone)) || ScoreOf(result, "importance_score") >= threshold)
    && ScoreOf(result, "importance_score") >= FlagFloor
  }

  datatype Flags = Flags(importanceScore: real, replyScore: real, replyFlag: bool, actionable: bool)

  /** What the poll cycle stores for a classification: scores clamped, a
      flag set by the classifier or by a score at its threshold and forced
      off below 0.45, `actionable` from the classifier or from both flags,
      and the importance score lifted to the reply score when actionable. */
  function StoredFlags(result: map<string, Value>, importanceThreshold: real, replyThreshold: real): (f: Flags)
    ensures 0.0 <= f.importanceScore <= 1.0 && 0.0 <= f.replyScore <= 1.0
    ensures f.replyScore == ClampScore(Get(result, "reply_needed_score", VInt(0)))
    ensures f.replyScore < FlagFloor ==> !f.replyFlag
    ensures ScoreOf(result, "importance_score") < FlagFloor ==> !ImportanceFlag(result, importanceThreshold)
    ensures f.replyFlag <==> (Truthy(Get(result, "reply_needed", VNone)) || f.replyScore >= replyThreshold)
                             && f.replyScore >= FlagFloor
    ensures f.actionable <==> Truthy(Get(result, "actionable", VNone)) || (ImportanceFlag(result, importanceThreshold) && f.replyFlag)
    ensures f.actionable ==> f.importanceScore >= f.replyScore
    ensures !f.actionable ==> f.importanceScore == ScoreOf(result, "importance_score")
    ensures ScoreOf(result, "importance_score") <= f.importanceScore
  {
    var importanceScore := ScoreOf(result, "importance_score");
    var replyScore := ScoreOf(result, "reply_needed_score");
    var replyFlag := (Truthy(Get(result, "reply_needed", VNone)) || replyScore >= replyThreshold) && replyScore >= FlagFloor;
    var actionable := Truthy(Get(result, "actionable", VNone)) || (ImportanceFlag(result, importanceThreshold) && replyFlag);
    Flags(if actionable && importanceScore < replyScore then replyScore else importanceScore, replyScore, replyFlag, actionable)
  }

  /** The flag derivation as the loop body writes it. */
  method DeriveFlags(result: map<string, Value>, importanceThreshold: real, replyThreshold: real) returns (f: Flags)
    ensures f == StoredFlags(result, importanceThreshold, replyThreshold)
  {
    var importanceScore: real, replyScore: real;
    match ToFloat(Get(result, "importance_score", VInt(0))) {
      case Some(x) => importanceScore := x;
      case None => importanceScore := 0.0;
    }
    match ToFloat(Get(result, "reply_needed_score", VInt(0))) {
      case Some(x) => replyScore := x;
      case None => replyScore := 0.0;
    }
    importanceScore := Max(0.0, Min(1.0, importanceScore));
    replyScore := Max(0.0, Min(1.0, replyScore));

    var importanceFlag := Truthy(Get(result, "importance", VNone)) || importanceScore >= importanceThreshold;
    var replyFlag := Truthy(Get(result, "reply_needed", VNone)) || replyScore >= replyThreshold;
    if importanceScore < FlagFloor {
      importanceFlag := false;
    }
    if replyScore < FlagFloor {
      replyFlag := false;
    }
    var actionable := Truthy(Get(result, "actionable", VNone)) || (importanceFlag && replyFlag);
    if actionable && importanceScore < replyScore {
      importanceScore := replyScore;
    }
    f := Flags(importanceScore, replyScore, replyFlag, actionable);
  }

  /** With the default thresholds, a verdict of `classify` is stored as it
      was given: actionable exactly when a reply is needed, the reply flag
      and score unchanged, and the importance score raised to the reply
      score when that is higher. */
  lemma StoredFlagsOfVerdict(result: map<string, Value>)
    requires WellFormedVerdict(result)
    requires Agrees(Judgement(Imp(result), IScore(result))) && Agrees(Judgement(Rep(result), RScore(result)))
    requires Act(result) == Rep(result) && (Rep(result) ==> Imp(result))
    ensures StoredFlags(result, Threshold, Threshold).actionable == Rep(result)
    ensures StoredFlags(result, Threshold, Threshold).replyFlag == Rep(result)
    ensures StoredFlags(result, Threshold, Threshold).replyScore == RScore(result)
    ensures StoredFlags(result, Threshold, Threshold).importanceScore
            == if Rep(result) then Max(IScore(result), RScore(result)) else IScore(result)
  {
  }

  // ------------------------------------------------------- one message

  /** What one message contributes to a cycle: the record stored (if any),
      the events published, the ids fetched and the ids guidance was
      requested for. */
  datatype Outcome = Outcome(record: Option<EmailRecord>, events: seq<Event>, fetched: seq<string>, crafted: seq<string>)

  const Skipped: Outcome := Outcome(None, [], [], [])

  /** The guidance the cycle uses: the empty one where crafting raised. */
  function GuidanceOrEmpty(g: Option<Guidance>): Guidance {
    if g.Some? then g.value else Guidance("", [], "")
  }

  function RecordOf(id: string, full: FullMessage, f: Flags, g: Guidance): EmailRecord {
    var p := full.payload;
    EmailRecord(id, full.threadId, p.subject, p.sender, p.snippet, p.body, full.internalDate,
                "UNREAD" in Uppers(full.labelIds), f.actionable, f.replyFlag, f.importanceScore, f.replyScore,
                if f.actionable then Strip(g.notification) else "",
                if f.actionable then JoinLines(StrippedNonEmpty(g.summary)) else "",
                if f.actionable then Strip(g.replyDraft) else "")
  }

  function AlertOf(r: EmailRecord, g: Guidance): Event {
    ImportantEmail(r.msgId, r.subject, r.sender, r.replyNeeded, r.importanceScore, r.replyScore, r.snippet,
                   r.isImportant, r.assistantMessage, g.summary, r.assistantReply)
  }

  /** The body of the loop over the listing, for one message, given the ids
      known so far. */
  function Ingest(m: MessageRef, known: set<string>, sv: Services): (o: Outcome)
    ensures m.id.None? || m.id.value == [] || m.id.value in known ==> o == Skipped
    ensures o.record.Some? ==> m.id == Some(o.record.value.msgId) && o.record.value.msgId != []
                               && o.record.value.msgId !in known
    ensures o.crafted == (if o.record.Some? && o.record.value.isImportant then [o.record.value.msgId] else [])
    ensures o.record.Some? && !o.record.value.isImportant ==>
              o.events == [] && o.record.value.assistantMessage == []
              && o.record.value.assistantSummary == [] && o.record.value.assistantReply == []
    ensures o.record.Some? && o.record.value.isImportant ==>
              |o.events| == 1 && o.events[0].ImportantEmail? && o.events[0].msgId == o.record.value.msgId
    ensures o.record.None? ==> o.events == [] || o.events == [Error(ClassificationFailed)]
  {
    match m.id
    case None => Skipped
    case Some(id) =>
      if id == [] || id in known then Skipped
      else
        match sv.fetch(id)
        case None => Outcome(None, [], [id], [])
        case Some(full) =>
          if IsPromotional(full.labelIds) then Outcome(None, [], [id], [])
          else
            var p := full.payload;
            match sv.classify(EmailText(p.sender, p.subject, p.body))
            case None => Outcome(None, [Error(ClassificationFailed)], [id], [])
            case Some(result) => Stored(id, full, StoredFlags(result, sv.importanceThreshold, sv.replyThreshold), sv)
  }

  /** A classified message is stored; when actionable, guidance is requested
      and an alert published. */
  function Stored(id: string, full: FullMessage, f: Flags, sv: Services): Outcome {
    if f.actionable then
      var g := GuidanceOrEmpty(sv.craft(full.payload));
      var r := RecordOf(id, full, f, g);
      Outcome(Some(r), [AlertOf(r, g)], [id], [id])
    else
      Outcome(Some(RecordOf(id, full, f, Guidance("", [], ""))), [], [id], [])
  }

  function RecordSeq(o: Outcome): seq<EmailRecord> {
    if o.record.Some? then [o.record.value] else []
  }

  // ------------------------------------------------------------ one cycle

  datatype CycleState = CycleState(known: set<string>, records: seq<EmailRecord>, events: seq<Event>,
                                   fetched: seq<string>, crafted: seq<string>)

  function Apply(st: CycleState, o: Outcome): CycleState {
    CycleState(if o.record.Some? then st.known + {o.record.value.msgId} else st.known,
               st.records + RecordSeq(o), st.events + o.events, st.fetched + o.fetched, st.crafted + o.crafted)
  }

  /** The loop over the listing, message by message. */
  function Fold(msgs: seq<MessageRef>, st: CycleState, sv: Services): CycleState
    decreases |msgs|
  {
    if msgs == [] then st else Fold(msgs[1..], Apply(st, Ingest(msgs[0], st.known, sv)), sv)
  }

  lemma FoldStep(msgs: seq<MessageRef>, i: nat, st: CycleState, sv: Services)
    requires i < |msgs|
    ensures Fold(msgs[i..], st, sv) == Fold(msgs[i + 1..], Apply(st, Ingest(msgs[i], st.known, sv)), sv)
  {
    assert msgs[i..][1..] == msgs[i + 1..];
  }

  lemma Assoc<T>(a: seq<T>, b: seq<T>, c: seq<T>)
    ensures a + b + c == a + (b + c)
  {
  }

  function Start(known: set<string>): CycleState {
    CycleState(known, [], [], [], [])
  }

  /** One cycle that was not busy: its status and what it did. */
  function Cycle(authOk: bool, listing: Result<seq<MessageRef>, string>, known: set<string>, sv: Services): (CycleStatus, CycleState) {
    if !authOk then (NeedsAuth, Start(known).(events := [AuthRequired]))
    else
      match listing
      case Err(msg) => (Failed(msg), Start(known).(events := [Error(msg)]))
      case Ok(msgs) =>
        if msgs == [] then (NoMessages, Start(known))
        else
          var st := Fold(msgs, Start(known), sv);
          (Processed(|st.records|), st)
  }

  function StoredIds(store: seq<EmailRecord>): set<string> {
    set r | r in store :: r.msgId
  }

  // --------------------------------------------------- cycle invariants

  predicate DistinctIds(records: seq<EmailRecord>) {
    forall i, j | 0 <= i < j < |records| :: records[i].msgId != records[j].msgId
  }

  /** The ids of the actionable records, in order. */
  function ActionableIds(records: seq<EmailRecord>): seq<string>
    decreases |records|
  {
    if records == [] then []
    else
      var last := records[|records| - 1];
      ActionableIds(records[..|records| - 1]) + (if last.isImportant then [last.msgId] else [])
  }

  /** The ids the `important_email` events name, in order. */
  function AlertIds(events: seq<Event>): seq<string>
    decreases |events|
  {
    if events == [] then []
    else
      var last := events[|events| - 1];
      AlertIds(events[..|events| - 1]) + (if last.ImportantEmail? then [last.msgId] else [])
  }

  /** What holds of a cycle that started with `known0`: the known set is the
      starting set plus the stored ids; stored ids are non-empty, new and
      distinct; guidance was requested, and an alert published, exactly for
      the actionable records, in order; and records that are not actionable
      carry no guidance. */
  predicate CycleInv(known0: set<string>, st: CycleState) {
    && st.known == known0 + StoredIds(st.records)
    && DistinctIds(st.records)
    && (forall k | 0 <= k < |st.records| :: st.records[k].msgId != [] && st.records[k].msgId !in known0)
    && st.crafted == ActionableIds(st.records)
    && AlertIds(st.events) == ActionableIds(st.records)
    && (forall k | 0 <= k < |st.records| :: !st.records[k].isImportant ==>
          st.records[k].assistantMessage == [] && st.records[k].assistantSummary == [] && st.records[k].assistantReply == [])
  }

  lemma ActionableIdsSnoc(records: seq<EmailRecord>, r: EmailRecord)
    ensures ActionableIds(records + [r]) == ActionableIds(records) + (if r.isImportant then [r.msgId] else [])
  {
    assert (records + [r])[..|records|] == records;
  }

  lemma {:induction false} AlertIdsAppend(events: seq<Event>, more: seq<Event>)
    ensures AlertIds(events + more) == AlertIds(events) + AlertIds(more)
    decreases |more|
  {
    if more == [] {
      assert events + more == events;
    } else {
      var init := more[..|more| - 1];
      AlertIdsAppend(events, init);
      assert (events + more)[..|events + more| - 1] == events + init;
      assert more[..|more| - 1] == init;
    }
  }

  lemma StoredIdsSnoc(records: seq<EmailRecord>, r: EmailRecord)
    ensures StoredIds(records + [r]) == StoredIds(records) + {r.msgId}
  {
    assert forall x | x in records + [r] :: x in records || x == r;
    assert r in records + [r];
    assert forall x | x in records :: x in records + [r];
  }

  lemma AlertIdsOfOne(e: Event)
    ensures AlertIds([e]) == (if e.ImportantEmail? then [e.msgId] else [])
  {
    assert [e][..0] == [];
  }

  /** What the cycle invariant needs of one message's outcome. */
  predicate Orderly(o: Outcome, known: set<string>) {
    && (o.record.Some? ==> o.record.value.msgId != [] && o.record.value.msgId !in known)
    && o.crafted == (if o.record.Some? && o.record.value.isImportant then [o.record.value.msgId] else [])
    && AlertIds(o.events) == o.crafted
    && (o.record.Some? && !o.record.value.isImportant ==>
          o.record.value.assistantMessage == [] && o.record.value.assistantSummary == []
          && o.record.value.assistantReply == [])
  }

  lemma IngestOrderly(m: MessageRef, known: set<string>, sv: Services)
    ensures Orderly(Ingest(m, known, sv), known)
  {
    var o := Ingest(m, known, sv);
    if o.events != [] {
      assert o.events == [o.events[0]];
      AlertIdsOfOne(o.events[0]);
    } else {
      assert AlertIds(o.events) == [];
    }
  }

  lemma ApplyKeepsIds(known0: set<string>, st: CycleState, o: Outcome)
    requires CycleInv(known0, st) && Orderly(o, st.known)
    ensures var next := Apply(st, o);
            && next.known == known0 + StoredIds(next.records)
            && DistinctIds(next.records)
            && (forall k | 0 <= k < |next.records| :: next.records[k].msgId != [] && next.records[k].msgId !in known0)
  {
    var next := Apply(st, o);
    if o.record.Some? {
      var r := o.record.value;
      StoredIdsSnoc(st.records, r);
      assert next.records == st.records + [r];
      forall i | 0 <= i < |st.records| ensures st.records[i].msgId != r.msgId {
        assert st.records[i] in st.records;
      }
    } else {
      assert next.records == st.records;
    }
  }

  lemma ApplyKeepsGuidance(known0: set<string>, st: CycleState, o: Outcome)
    requires CycleInv(known0, st) && Orderly(o, st.known)
    ensures var next := Apply(st, o);
            && next.crafted == ActionableIds(next.records)
            && AlertIds(next.events) == ActionableIds(next.records)
            && (forall k | 0 <= k < |next.records| :: !next.records[k].isImportant ==>
                  next.records[k].assistantMessage == [] && next.records[k].assistantSummary == []
                  && next.records[k].assistantReply == [])
  {
    var next := Apply(st, o);
    AlertIdsAppend(st.events, o.events);
    if o.record.Some? {
      ActionableIdsSnoc(st.records, o.record.value);
      assert next.records == st.records + [o.record.value];
    } else {
      assert next.records == st.records;
    }
  }

  /** One message keeps the cycle invariant. */
  lemma IngestKeepsInv(known0: set<string>, st: CycleState, m: MessageRef, sv: Services)
    requires CycleInv(known0, st)
    ensures CycleInv(known0, Apply(st, Ingest(m, st.known, sv)))
  {
    var o := Ingest(m, st.known, sv);
    IngestOrderly(m, st.known, sv);
    ApplyKeepsIds(known0, st, o);
    ApplyKeepsGuidance(known0, st, o);
  }

  lemma {:induction false} FoldKeepsInv(known0: set<string>, msgs: seq<MessageRef>, st: CycleState, sv: Services)
    requires CycleInv(known0, st)
    ensures CycleInv(known0, Fold(msgs, st, sv))
    ensures st.records <= Fold(msgs, st, sv).records
    decreases |msgs|
  {
    if msgs != [] {
      IngestKeepsInv(known0, st, msgs[0], sv);
      FoldKeepsInv(known0, msgs[1..], Apply(st, Ingest(msgs[0], st.known, sv)), sv);
    }
  }

  /** Every cycle keeps the invariant: the processed count is the number of
      records inserted; each stored id was neither known nor empty, and a
      listing that repeats an id stores it at most once; the known set only
      grows, by exactly the stored ids; guidance and `important_email`
      events come exactly for the actionable records. */
  lemma CycleFacts(authOk: bool, listing: Result<seq<MessageRef>, string>, known: set<string>, sv: Services)
    ensures CycleInv(known, Cycle(authOk, listing, known, sv).1)
    ensures known <= Cycle(authOk, listing, known, sv).1.known
    ensures Cycle(authOk, listing, known, sv).0.Processed? ==>
              Cycle(authOk, listing, known, sv).0.processed == |Cycle(authOk, listing, known, sv).1.records|
  {
    assert StoredIds([]) == {};
    assert CycleInv(known, Start(known));
    assert AlertIds([AuthRequired]) == [] by {
      AlertIdsOfOne(AuthRequired);
    }
    if authOk && listing.Ok? && listing.value != [] {
      FoldKeepsInv(known, listing.value, Start(known), sv);
    } else if authOk && listing.Err? {
      AlertIdsOfOne(Error(listing.error));
    }
  }

  // ------------------------------------------------------- the service

  /** The orchestrator's state: the store, the single-flight guard (the
      `poll_lock`), the subscriber hub, and, as ghost logs, the provider
      calls and the guidance requests made so far. */
  class PollService {
    var running: bool
    var store: seq<EmailRecord>
    ghost var listCalls: nat
    ghost var fetchLog: seq<string>
    ghost var craftLog: seq<string>
    const hub: Hub

    constructor(h: Hub, rows: seq<EmailRecord>)
      ensures hub == h && store == rows && !running
      ensures listCalls == 0 && fetchLog == [] && craftLog == []
    {
      hub := h;
      store := rows;
      running := false;
      listCalls := 0;
      fetchLog := [];
      craftLog := [];
    }

    /** One message of the loop: skip it, or fetch, classify, store and
        publish it, as `Ingest` says. */
    method IngestOne(m: MessageRef, known: set<string>, sv: Services) returns (added: bool)
      modifies this, hub.subscribers
      ensures var o := Ingest(m, known, sv);
              && added == o.record.Some?
              && store == old(store) + RecordSeq(o)
              && fetchLog == old(fetchLog) + o.fetched
              && craftLog == old(craftLog) + o.crafted
              && (forall q | q in hub.subscribers :: q.items == old(q.items) + o.events)
      ensures running == old(running) && listCalls == old(listCalls)
    {
      added := false;
      if m.id.None? {
        return;
      }
      var msgId := m.id.value;
      if msgId == [] || msgId in known {
        return;
      }
      fetchLog := fetchLog + [msgId];
      var fetched := sv.fetch(msgId);
      if fetched.None? {
        return;
      }
      var full := fetched.value;
      if IsPromotional(full.labelIds) {
        return;
      }
      var payload := full.payload;
      var emailText := EmailText(payload.sender, payload.subject, payload.body);
      var classified := sv.classify(emailText);
      if classified.None? {
        hub.NotifyAll(Error(ClassificationFailed));
        return;
      }
      var f := DeriveFlags(classified.value, sv.importanceThreshold, sv.replyThreshold);
      StoreClassified(msgId, full, f, sv);
      added := true;
    }

    /** Storing a classified message, requesting guidance and publishing the
        alert when it is actionable. */
    method StoreClassified(msgId: string, full: FullMessage, f: Flags, sv: Services)
      modifies this, hub.subscribers
      ensures var o := Stored(msgId, full, f, sv);
              && store == old(store) + RecordSeq(o)
              && fetchLog == old(fetchLog) && craftLog == old(craftLog) + o.crafted
              && (forall q | q in hub.subscribers :: q.items == old(q.items) + o.events)
      ensures running == old(running) && listCalls == old(listCalls)
    {
      var payload := full.payload;
      var isUnread := "UNREAD" in Uppers(full.labelIds);
      var assistantMessage, assistantSummaryText, assistantReply := "", "", "";
      var guidance := Guidance("", [], "");
      if f.actionable {
        craftLog := craftLog + [msgId];
        guidance := GuidanceOrEmpty(sv.craft(payload));
        assistantMessage := Strip(guidance.notification);
        assistantSummaryText := JoinLines(StrippedNonEmpty(guidance.summary));
        assistantReply := Strip(guidance.replyDraft);
      }
      var e := EmailRecord(msgId, full.threadId, payload.subject, payload.sender, payload.snippet, payload.body,
                           full.internalDate, isUnread, f.actionable, f.replyFlag, f.importanceScore, f.replyScore,
                           assistantMessage, assistantSummaryText, assistantReply);
      assert e == RecordOf(msgId, full, f, guidance);
      store := store + [e];
      if f.actionable {
        hub.NotifyAll(ImportantEmail(e.msgId, e.subject, e.sender, e.replyNeeded, e.importanceScore, e.replyScore,
                                     e.snippet, f.actionable, assistantMessage, guidance.summary, assistantReply));
      }
    }

    /** The loop over a non-empty listing, from the ids `known0`: it does
        what `Fold` says and counts the records stored. */
    method ProcessListing(msgs: seq<MessageRef>, known0: set<string>, sv: Services) returns (processed: nat)
      modifies this, hub.subscribers
      ensures var st := Fold(msgs, Start(known0), sv);
              && processed == |st.records|
              && store == old(store) + st.records
              && fetchLog == old(fetchLog) + st.fetched
              && craftLog == old(craftLog) + st.crafted
              && forall q | q in hub.subscribers :: q.items == old(q.items) + st.events
      ensures running == old(running) && listCalls == old(listCalls)
    {
      var known := known0;
      processed := 0;
      ghost var init := Start(known0);
      ghost var cur := init;
      for i := 0 to |msgs|
        invariant Fold(msgs[i..], cur, sv) == Fold(msgs, init, sv)
        invariant known == cur.known && processed == |cur.records|
        invariant store == old(store) + cur.records
        invariant fetchLog == old(fetchLog) + cur.fetched
        invariant craftLog == old(craftLog) + cur.crafted
        invariant forall q | q in hub.subscribers :: q.items == old(q.items) + cur.events
        invariant running == old(running) && listCalls == old(listCalls)
      {
        var m := msgs[i];
        FoldStep(msgs, i, cur, sv);
        ghost var o := Ingest(m, known, sv);
        ghost var prev := cur;
        var added := IngestOne(m, known, sv);
        if added {
          known := known + {m.id.value};
          processed := processed + 1;
        }
        cur := Apply(cur, o);
        Assoc(old(store), prev.records, RecordSeq(o));
        Assoc(old(fetchLog), prev.fetched, o.fetched);
        Assoc(old(craftLog), prev.crafted, o.crafted);
        forall q | q in hub.subscribers ensures q.items == old(q.items) + cur.events {
          Assoc(old(q.items), prev.events, o.events);
        }
      }
      assert msgs[|msgs|..] == [];
    }

    /** `run_poll_cycle`. While a cycle runs, another returns `Busy` and
        touches nothing, the provider included. Otherwise the cycle does what
        `Cycle` says, starting from the ids already stored, and releases the
        guard. */
    method RunPollCycle(authOk: bool, listing: Result<seq<MessageRef>, string>, sv: Services)
      returns (status: CycleStatus)
      modifies this, hub.subscribers
      ensures old(running) ==>
                && status == Busy && running && store == old(store)
                && listCalls == old(listCalls) && fetchLog == old(fetchLog) && craftLog == old(craftLog)
                && forall q | q in hub.subscribers :: q.items == old(q.items)
      ensures !old(running) ==>
                var (s, st) := Cycle(authOk, listing, StoredIds(old(store)), sv);
                && status == s && !running
                && store == old(store) + st.records
                && fetchLog == old(fetchLog) + st.fetched
                && craftLog == old(craftLog) + st.crafted
                && listCalls == old(listCalls) + (if authOk then 1 else 0)
                && forall q | q in hub.subscribers :: q.items == old(q.items) + st.events
    {
      if running {
        return Busy;
      }
      running := true;
      if !authOk {
        hub.NotifyAll(AuthRequired);
        running := false;
        return NeedsAuth;
      }
      listCalls := listCalls + 1;
      if listing.Err? {
        hub.NotifyAll(Error(listing.error));
        running := false;
        return Failed(listing.error);
      }
      var msgs := listing.value;
      if msgs == [] {
        running := false;
        return NoMessages;
      }
      var processed := ProcessListing(msgs, StoredIds(store), sv);
      running := false;
      return Processed(processed);
    }
  }
}
