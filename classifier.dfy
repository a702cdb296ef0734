/** The classifier's decision logic (backend/triage.py): the heuristic
    fallback `_default_classification`, and the reconciliation in `classify`
    that turns the model's asserted flags and scores into the final verdict
    through an ordered cascade of overrides. The generated text is an input;
    the JSON decoder and the literal evaluator are parameters, as in
    `ResponseParser`. */
module Classifier {
  import opened Wrappers
  import opened Text
  import opened Values
  import opened Owner
  import opened Signals
  import opened ResponseParser

  /** A score at or above this makes its flag true. */
  const Threshold: real := 0.6
  /** Marketing and revoked reply scores are capped here. */
  const Cap: real := 0.3
  /** A name mention promotes a reply score at least this high. */
  const NameFloor: real := 0.35
  /** The reply score a name mention promotes to, at least. */
  const NameScore: real := 0.7
  /** A no-reply sender keeps the reply flag from this score up. */
  const NoReplyKeep: real := 0.95
  /** The share of the reply score a name promotion gives importance. */
  const ImportanceShare: real := 0.9
  const RationaleLimit: nat := 500

  const EmptyResponseRationale: string := "Model response was empty."

  function Max(a: real, b: real): real { if a >= b then a else b }

  function Min(a: real, b: real): real { if a <= b then a else b }

  /** The keys `classify` writes. */
  const VerdictKeys: set<string> :=
    {"importance", "reply_needed", "importance_score", "reply_needed_score", "actionable", "rationale"}

  /** A dictionary holding the verdict keys with the types `classify` gives
      them. */
  predicate WellFormedVerdict(d: map<string, Value>) {
    && "importance" in d && d["importance"].VBool?
    && "reply_needed" in d && d["reply_needed"].VBool?
    && "importance_score" in d && d["importance_score"].VFloat?
    && "reply_needed_score" in d && d["reply_needed_score"].VFloat?
    && "actionable" in d && d["actionable"].VBool?
    && "rationale" in d && d["rationale"].VStr?
  }

  function Imp(d: map<string, Value>): bool
    requires WellFormedVerdict(d)
  {
    d["importance"].b
  }

  function Rep(d: map<string, Value>): bool
    requires WellFormedVerdict(d)
  {
    d["reply_needed"].b
  }

  function IScore(d: map<string, Value>): real
    requires WellFormedVerdict(d)
  {
    d["importance_score"].r
  }

  function RScore(d: map<string, Value>): real
    requires WellFormedVerdict(d)
  {
    d["reply_needed_score"].r
  }

  function Act(d: map<string, Value>): bool
    requires WellFormedVerdict(d)
  {
    d["actionable"].b
  }

  function Rationale(d: map<string, Value>): string
    requires WellFormedVerdict(d)
  {
    d["rationale"].s
  }

  /** `_looks_like_marketing(t) or _has_list_unsubscribe(t)` */
  predicate Marketing(emailText: string) {
    LooksLikeMarketing(emailText) || HasListUnsubscribe(emailText)
  }

  // ------------------------------------------------ _default_classification

  /** `_default_classification`: a reply cue (never present in marketing)
      makes both flags true with score 0.75; otherwise a name mention outside
      marketing makes the message important with score 0.35; otherwise both
      flags are false with score 0.1. */
  function DefaultClassification(emailText: string, rationale: string, ctx: OwnerContext): (d: map<string, Value>)
    ensures d.Keys == VerdictKeys && WellFormedVerdict(d)
    ensures Rationale(d) == rationale && Act(d) == Imp(d) && IScore(d) == RScore(d)
    ensures Marketing(emailText) ==> !Imp(d) && !Rep(d) && IScore(d) == 0.1
    ensures !Marketing(emailText) && HasReplyCue(emailText) ==> Imp(d) && Rep(d) && IScore(d) == 0.75
    ensures !Marketing(emailText) && !HasReplyCue(emailText) && MentionsUserName(emailText, ctx) ==>
              Imp(d) && !Rep(d) && IScore(d) == NameFloor
    ensures !Marketing(emailText) && !HasReplyCue(emailText) && !MentionsUserName(emailText, ctx) ==>
              !Imp(d) && !Rep(d) && IScore(d) == 0.1
  {
    var marketing := Marketing(emailText);
    var cue := HasReplyCue(emailText);
    var named := MentionsUserName(emailText, ctx) && !marketing;
    var base := if cue && !marketing then 0.75 else 0.1;
    var score := if named then (if cue then Max(Max(base, 0.55), 0.75) else Max(base, NameFloor)) else base;
    var importance := (cue && !marketing) || named;
    var replyNeeded := (cue && !marketing) || (named && cue);
    map["importance" := VBool(importance), "reply_needed" := VBool(replyNeeded),
        "importance_score" := VFloat(score), "reply_needed_score" := VFloat(score),
        "rationale" := VStr(rationale), "actionable" := VBool(importance)]
  }

  // ---------------------------------------------------------- reconciliation

  /** A flag and its score. */
  datatype Judgement = Judgement(flag: bool, score: real)

  /** The asserted flag and its clamped score brought into agreement at the
      threshold: a true flag lifts its score to the threshold, and a score at
      the threshold sets its flag. */
  function Normalized(flag: Value, score: Value): (p: Judgement)
    ensures 0.0 <= p.score <= 1.0 && ClampScore(score) <= p.score
    ensures p.flag <==> p.score >= Threshold
    ensures !CoerceBool(flag) ==> p.score == ClampScore(score)
    ensures CoerceBool(flag) ==> p.score == Max(ClampScore(score), Threshold)
  {
    var s := ClampScore(score);
    if CoerceBool(flag) then Judgement(true, Max(s, Threshold)) else Judgement(s >= Threshold, s)
  }

  function AssertedImportance(data: map<string, Value>): Judgement {
    Normalized(Get(data, "importance", VNone), Get(data, "importance_score", VNone))
  }

  function AssertedReply(data: map<string, Value>): Judgement {
    Normalized(Get(data, "reply_needed", VNone), Get(data, "reply_needed_score", VNone))
  }

  /** A judgement whose flag agrees with its score at the threshold. */
  predicate Agrees(j: Judgement) {
    0.0 <= j.score <= 1.0 && (j.flag <==> j.score >= Threshold)
  }

  /** The no-reply override fires: a reply asserted for a no-reply sender
      with a score below 0.95. */
  predicate Revokes(reply: Judgement, noReply: bool) {
    reply.flag && noReply && reply.score < NoReplyKeep
  }

  /** The name-mention promotion fires: the owner is named and the reply
      score, after the no-reply override, is at least 0.35. */
  predicate Promotes(reply: Judgement, noReply: bool, named: bool) {
    !Revokes(reply, noReply) && named && reply.score >= NameFloor
  }

  /** The override cascade of `classify` on the normalized judgements, in the
      source's order: marketing, then the no-reply sender, then a reply
      lifting importance, then a name mention. */
  method Cascade(importance0: Judgement, reply0: Judgement, marketing: bool, noReply: bool, named: bool)
    returns (importance: Judgement, reply: Judgement)
    requires Agrees(importance0) && Agrees(reply0)
    ensures Agrees(importance) && Agrees(reply)
    ensures reply.flag ==> importance.flag && importance.score >= ImportanceShare * reply.score
    ensures marketing ==>
              !importance.flag && !reply.flag
              && importance.score == Min(importance0.score, Cap) && reply.score == Min(reply0.score, Cap)
    ensures !marketing ==>
              && reply.flag == ((reply0.flag && !Revokes(reply0, noReply)) || Promotes(reply0, noReply, named))
              && importance.flag == (importance0.flag || reply.flag)
              && importance0.score <= importance.score <= Max(importance0.score, reply.score)
    ensures !marketing && Revokes(reply0, noReply) ==> !reply.flag && reply.score == Min(reply0.score, Cap)
    ensures !marketing && Promotes(reply0, noReply, named) ==> reply.flag && reply.score == Max(reply0.score, NameScore)
    ensures !marketing && !Revokes(reply0, noReply) && !Promotes(reply0, noReply, named) ==> reply.score == reply0.score
  {
    var importanceFlag, importanceScore := importance0.flag, importance0.score;
    var replyNeeded, replyScore := reply0.flag, reply0.score;
    if marketing {
      importanceFlag := false;
      replyNeeded := false;
      importanceScore := Min(importanceScore, Cap);
      replyScore := Min(replyScore, Cap);
    } else {
      if replyNeeded && noReply && replyScore < NoReplyKeep {
        replyNeeded := false;
        replyScore := Min(replyScore, Cap);
      }
      if replyNeeded && importanceScore < replyScore {
        importanceFlag := true;
        importanceScore := Max(importanceScore, replyScore);
      }
      if named && replyScore >= NameFloor {
        replyNeeded := true;
        replyScore := Max(replyScore, NameScore);
        if importanceScore < replyScore {
          importanceFlag := true;
          importanceScore := Max(importanceScore, replyScore * ImportanceShare);
        }
      }
    }
    importance := Judgement(importanceFlag, importanceScore);
    reply := Judgement(replyNeeded, replyScore);
  }

  /** The reconciliation in `classify`: the asserted flags and scores are
      normalized, the cascade is applied, and the verdict is written over the
      model's dictionary, whose other keys are kept. */
  method Reconcile(data: map<string, Value>, emailText: string, ctx: OwnerContext) returns (r: map<string, Value>)
    ensures WellFormedVerdict(r)
    ensures r.Keys == data.Keys + VerdictKeys
    ensures forall k | k in data && k !in VerdictKeys :: r[k] == data[k]
    ensures Agrees(Judgement(Imp(r), IScore(r))) && Agrees(Judgement(Rep(r), RScore(r)))
    ensures Act(r) == (Imp(r) && Rep(r)) && (Rep(r) ==> Imp(r))
    ensures Rep(r) ==> IScore(r) >= ImportanceShare * RScore(r)
    ensures Rationale(r) == Take(ToStr(Get(data, "rationale", VStr(""))), RationaleLimit)
    ensures Marketing(emailText) ==> !Imp(r) && !Rep(r) && IScore(r) <= Cap && RScore(r) <= Cap
    ensures !Marketing(emailText) ==>
              var reply0 := AssertedReply(data);
              var noReply := IsNoReplySender(emailText);
              && Rep(r) == ((reply0.flag && !Revokes(reply0, noReply)) || Promotes(reply0, noReply, MentionsUserName(emailText, ctx)))
              && Imp(r) == (AssertedImportance(data).flag || Rep(r))
              && (Revokes(reply0, noReply) ==> RScore(r) <= Cap)
              && (Promotes(reply0, noReply, MentionsUserName(emailText, ctx)) ==> RScore(r) >= NameScore)
  {
    var importance0 := AssertedImportance(data);
    var reply0 := AssertedReply(data);
    var marketing := Marketing(emailText);
    var noReply := IsNoReplySender(emailText);
    var named := MentionsUserName(emailText, ctx);
    var importance, reply := Cascade(importance0, reply0, marketing, noReply, named);
    r := WithVerdict(data, importance, reply, Take(ToStr(Get(data, "rationale", VStr(""))), RationaleLimit));
  }

  /** The model's dictionary with the verdict written over it: both flags,
      both scores, `actionable` as the conjunction of the flags, and the
      rationale; every other key keeps its value. */
  function WithVerdict(data: map<string, Value>, importance: Judgement, reply: Judgement, rationale: string)
    : (r: map<string, Value>)
    ensures WellFormedVerdict(r)
    ensures r.Keys == data.Keys + VerdictKeys
    ensures forall k | k in data && k !in VerdictKeys :: r[k] == data[k]
    ensures Imp(r) == importance.flag && Rep(r) == reply.flag
    ensures IScore(r) == importance.score && RScore(r) == reply.score
    ensures Act(r) == (importance.flag && reply.flag) && Rationale(r) == rationale
  {
    data["importance" := VBool(importance.flag)]["reply_needed" := VBool(reply.flag)]
        ["importance_score" := VFloat(importance.score)]["reply_needed_score" := VFloat(reply.score)]
        ["actionable" := VBool(importance.flag && reply.flag)]["rationale" := VStr(rationale)]
  }

  /** The heuristic path of `classify`: the fallback classification,
      reconciled. A reply cue makes it actionable unless the sender is a
      no-reply address (whose reply is revoked below the name-mention floor);
      without a cue, a name mention makes it actionable. */
  method HeuristicVerdict(emailText: string, rationale: string, ctx: OwnerContext) returns (r: map<string, Value>)
    ensures WellFormedVerdict(r) && r.Keys == VerdictKeys
    ensures Agrees(Judgement(Imp(r), IScore(r))) && Agrees(Judgement(Rep(r), RScore(r)))
    ensures Act(r) == Rep(r) && (Rep(r) ==> Imp(r))
    ensures Rationale(r) == Take(rationale, RationaleLimit)
    ensures Marketing(emailText) ==> !Imp(r) && !Rep(r) && IScore(r) <= Cap && RScore(r) <= Cap
    ensures Act(r) <==> !Marketing(emailText)
                        && if HasReplyCue(emailText) then !IsNoReplySender(emailText)
                           else MentionsUserName(emailText, ctx)
  {
    var data := DefaultClassification(emailText, rationale, ctx);
    assert Get(data, "rationale", VStr("")) == VStr(rationale);
    r := Reconcile(data, emailText, ctx);
  }

  /** `classify` after the model call: `modelText` is the stripped text of
      the reply. An empty reply, or one the parser rejects, falls back to the
      heuristic classification; anything else is the model's own dictionary;
      either is then reconciled. */
  method Classify(emailText: string, modelText: string, ctx: OwnerContext,
                  loads: string -> Option<Value>, literal: string -> Option<Value>)
    returns (r: map<string, Value>)
    ensures WellFormedVerdict(r)
    ensures Agrees(Judgement(Imp(r), IScore(r))) && Agrees(Judgement(Rep(r), RScore(r)))
    ensures |Rationale(r)| <= RationaleLimit
    ensures Act(r) == Rep(r) && (Rep(r) ==> Imp(r))
    ensures Marketing(emailText) ==> !Imp(r) && !Rep(r) && IScore(r) <= Cap && RScore(r) <= Cap
    ensures modelText == [] ==> Rationale(r) == EmptyResponseRationale
    ensures modelText != [] && SafeLoadJson(modelText, loads, literal).Err? ==>
              Rationale(r) == Take(modelText, RationaleLimit)
    ensures modelText != [] && SafeLoadJson(modelText, loads, literal).Ok? ==>
              var data := SafeLoadJson(modelText, loads, literal).value;
              && r.Keys == data.Keys + VerdictKeys
              && (forall k | k in data && k !in VerdictKeys :: r[k] == data[k])
              && Rationale(r) == Take(ToStr(Get(data, "rationale", VStr(""))), RationaleLimit)
    ensures modelText != [] && SafeLoadJson(modelText, loads, literal).Ok? && !Marketing(emailText) ==>
              var data := SafeLoadJson(modelText, loads, literal).value;
              var reply0 := AssertedReply(data);
              var noReply := IsNoReplySender(emailText);
              && Rep(r) == ((reply0.flag && !Revokes(reply0, noReply)) || Promotes(reply0, noReply, MentionsUserName(emailText, ctx)))
              && Imp(r) == (AssertedImportance(data).flag || Rep(r))
    ensures modelText == [] || SafeLoadJson(modelText, loads, literal).Err? ==>
              (Act(r) <==> !Marketing(emailText)
                           && if HasReplyCue(emailText) then !IsNoReplySender(emailText)
                              else MentionsUserName(emailText, ctx))
  {
    if modelText == [] {
      r := HeuristicVerdict(emailText, EmptyResponseRationale, ctx);
      assert Take(EmptyResponseRationale, RationaleLimit) == EmptyResponseRationale;
    } else {
      var parsed := SafeLoadJson(modelText, loads, literal);
      match parsed
      case Ok(m) =>
        r := Reconcile(m, emailText, ctx);
      case Err(_) =>
        r := HeuristicVerdict(emailText, Take(modelText, RationaleLimit), ctx);
    }
  }
}
