/** The heuristic detectors of the triage engine (backend/triage.py): header
    extraction, marketing and round-up detection, no-reply and
    list-unsubscribe markers, and the reply cue. Every cue list is the
    source's own, in its order. */
module Signals {
  import opened Text

  // ------------------------------------------------------------ cue lists

  const MarketingCues: seq<string> := ["unsubscribe", "view this email in your browser", "view in browser", "special offer", "limited time", "sale", "deal", "% off", "discount", "coupon", "promo code", "book now", "rent a car", "loyalty", "rewards", "exclusive offer", "upgrade now", "act now", "shop now", "learn more", "manage your preferences", "update your preferences", "manage preferences", "manage subscription", "view this message online", "view online", "privacy policy", "no longer wish to receive", "newsletter", "digest", "webinar", "flash sale"]

  const SenderCues: seq<string> := ["newsletter", "no-reply", "noreply", "updates", "offers", "promotions", "marketing", "sales", "mailer", "notification", "@info", "@news", "@email.", "@mail.", "@mailer", "@campaign", "@notify", "@marketing", "@promo", "@deals", "@updates.", "@messaging", "@communication"]

  const RoundupCues: seq<string> := ["newsletter", "digest", "roundup", "summary", "highlights", "top stories", "top picks", "in case you missed"]

  const RoundupPeriods: seq<string> := ["daily", "weekly", "monthly", "weekend"]

  const RoundupKinds: seq<string> := ["digest", "newsletter", "roundup", "summary", "update"]

  const PercentWords: seq<string> := ["off", "discount", "savings"]

  const NoReplyTags: seq<string> := ["no-reply", "noreply", "do-not-reply", "donotreply"]

  const ExplicitPhrases: seq<string> := ["please respond", "please reply", "please confirm", "please let me know", "let me know", "do let me know", "kindly let me know", "need your response", "awaiting your response", "awaiting your reply", "awaiting your confirmation", "pls advise", "please advise", "rsvp", "let us know", "looking forward to your response", "looking forward to hearing from you", "appreciate your quick response", "appreciate your response", "any update", "any updates", "status update", "status on", "follow up on", "following up on", "follow up with", "follow-up on"]

  const MarketingRhetorical: seq<string> := ["can you believe", "would you like", "would you love", "can you handle", "are you ready", "ready for", "will you join us", "would you join us", "can we tempt you", "can we interest you", "could we interest you", "are you excited"]

  const MarketingKeywords: seq<string> := ["deal", "deals", "sale", "discount", "offer", "offers", "promo", "promotion", "upgrade", "flash sale"]

  /** Keywords that keep a question with a marketing keyword in play. */
  const BusinessKeywords: seq<string> := ["schedule", "meeting", "contract", "invoice", "quote"]

  /** The whole words of `\byou\b`, `\byour\b`, `\bwe\b` and `\bi\b`. */
  const Pronouns: seq<string> := ["you", "your", "we", "i"]

  const FollowupKeywords: seq<string> := ["available", "availability", "able", "schedule", "calendar", "time", "date", "deadline", "status", "update", "updates", "follow up", "follow-up", "next step", "next steps", "confirm", "confirmation", "details", "question for", "feedback", "thoughts", "join", "joining", "attend", "attendance", "free", "coming", "call", "call me", "chat", "discuss", "discussion", "meet", "meeting", "sync", "touch base", "connect", "share", "send", "send me", "provide", "deliver", "deliverable", "document", "documents", "doc", "deck", "slide", "slides", "report", "notes", "plan", "proposal", "quote", "invoice", "contract", "signature", "sign", "approve", "approval", "review", "take a look", "look over", "input", "decision", "answer", "help", "support", "issue", "problem", "reschedule", "make it"]

  /** The alternatives of `\b(what|when|where|who|how|which|why)\b`. */
  const QuestionWords: seq<string> := ["what", "when", "where", "who", "how", "which", "why"]

  const SchedulingPhrases: seq<string> := ["can we meet", "could we meet", "shall we meet", "should we meet", "can we talk", "could we talk", "should we talk", "can we discuss", "could we discuss", "should we discuss", "can we connect", "could we connect", "should we connect"]

  // -------------------------------------------------------------- headers

  /** `line.split(":", 1)[1].strip()` for a line that holds a colon. */
  function AfterColon(line: string): string {
    var k := IndexOf(line, ':');
    if k < |line| then Strip(line[k + 1..]) else ""
  }

  /** The value of the first line whose lower-cased form starts with `key`. */
  function HeaderIn(lines: seq<string>, key: string): string {
    if lines == [] then ""
    else if StartsWith(Lower(lines[0]), key) then AfterColon(lines[0])
    else HeaderIn(lines[1..], key)
  }

  /** `_extract_sender_line` */
  function ExtractSenderLine(emailText: string): string {
    HeaderIn(SplitLines(emailText), "from:")
  }

  /** `_extract_subject_line` */
  function ExtractSubjectLine(emailText: string): string {
    HeaderIn(SplitLines(emailText), "subject:")
  }

  /** The text the orchestrator hands to the classifier (backend/app.py). */
  function EmailText(sender: string, subject: string, body: string): string {
    "From: " + sender + [LF] + ("Subject: " + subject + [LF] + ([LF] + body))
  }

  lemma StripAfterSpace(c: char, s: string)
    requires IsSpace(c)
    ensures Strip([c] + s) == Strip(s)
  {
    assert ([c] + s)[1..] == s;
    assert Leading([c] + s, IsSpace) == 1 + Leading(s, IsSpace);
    assert ([c] + s)[1 + Leading(s, IsSpace)..] == s[Leading(s, IsSpace)..];
  }

  lemma AfterHeaderKey(key: string, value: string)
    requires key == "From:" || key == "Subject:"
    ensures AfterColon(key + " " + value) == Strip(value)
  {
    var line := key + " " + value;
    assert IndexOf(line, ':') == |key| - 1 by {
      assert line[|key| - 1] == ':';
      assert forall j | 0 <= j < |key| - 1 :: line[j] == key[j] && key[j] != ':';
    }
    assert line[|key|..] == [' '] + value;
    StripAfterSpace(' ', value);
  }

  lemma HeaderLineNoBreak(key: string, value: string)
    requires NoLineBreak(key) && NoLineBreak(value)
    ensures NoLineBreak(key + value)
  {
    var line := key + value;
    forall i | 0 <= i < |line| ensures !IsLineBreak(line[i]) {
      if i >= |key| { assert line[i] == value[i - |key|]; } else { assert line[i] == key[i]; }
    }
  }

  /** The lines of the orchestrator's email text: the sender line, the
      subject line, then the lines of the body. */
  lemma EmailTextLines(sender: string, subject: string, body: string)
    requires NoLineBreak(sender) && NoLineBreak(subject)
    ensures SplitLines(EmailText(sender, subject, body))
            == ["From: " + sender, "Subject: " + subject] + SplitLines([LF] + body)
  {
    var fromLine := "From: " + sender;
    var subjectLine := "Subject: " + subject;
    var rest := [LF] + body;
    HeaderLineNoBreak("From: ", sender);
    HeaderLineNoBreak("Subject: ", subject);
    SplitLinesHead(fromLine, subjectLine + [LF] + rest);
    SplitLinesHead(subjectLine, rest);
  }

  lemma HeaderInFirst(l0: string, more: seq<string>, key: string)
    requires StartsWith(Lower(l0), key)
    ensures HeaderIn([l0] + more, key) == AfterColon(l0)
  {
    assert ([l0] + more)[0] == l0;
  }

  lemma HeaderInSecond(l0: string, l1: string, more: seq<string>, key: string)
    requires !StartsWith(Lower(l0), key) && StartsWith(Lower(l1), key)
    ensures HeaderIn([l0, l1] + more, key) == AfterColon(l1)
  {
    var lines := [l0, l1] + more;
    assert lines[0] == l0 && lines[1..] == [l1] + more && lines[1..][0] == l1;
  }

  lemma HeaderKeyFacts(sender: string, subject: string)
    ensures StartsWith(Lower("From: " + sender), "from:")
    ensures !StartsWith(Lower("From: " + sender), "subject:")
    ensures StartsWith(Lower("Subject: " + subject), "subject:")
  {
    var fromLine := "From: " + sender;
    assert fromLine[..5] == "From:";
    LowerSlice(fromLine, 0, 5);
    assert Lower(fromLine)[0] == 'f';
    var subjectLine := "Subject: " + subject;
    assert subjectLine[..8] == "Subject:";
    LowerSlice(subjectLine, 0, 8);
  }

  lemma SenderLineFound(sender: string, subject: string, body: string)
    requires NoLineBreak(sender) && NoLineBreak(subject)
    ensures ExtractSenderLine(EmailText(sender, subject, body)) == AfterColon("From: " + sender)
  {
    var fromLine := "From: " + sender;
    var more := ["Subject: " + subject] + SplitLines([LF] + body);
    EmailTextLines(sender, subject, body);
    assert SplitLines(EmailText(sender, subject, body)) == [fromLine] + more;
    HeaderKeyFacts(sender, subject);
    HeaderInFirst(fromLine, more, "from:");
  }

  lemma SubjectLineFound(sender: string, subject: string, body: string)
    requires NoLineBreak(sender) && NoLineBreak(subject)
    ensures ExtractSubjectLine(EmailText(sender, subject, body)) == AfterColon("Subject: " + subject)
  {
    EmailTextLines(sender, subject, body);
    HeaderKeyFacts(sender, subject);
    HeaderInSecond("From: " + sender, "Subject: " + subject, SplitLines([LF] + body), "subject:");
  }

  /** `_extract_sender_line` recovers the sender from the text the
      orchestrator builds, provided sender and subject hold no line break. */
  lemma SenderRoundTrip(sender: string, subject: string, body: string)
    requires NoLineBreak(sender) && NoLineBreak(subject)
    ensures ExtractSenderLine(EmailText(sender, subject, body)) == Strip(sender)
  {
    SenderLineFound(sender, subject, body);
    assert "From: " + sender == "From:" + " " + sender;
    AfterHeaderKey("From:", sender);
  }

  /** `_extract_subject_line` recovers the subject in the same way. */
  lemma SubjectRoundTrip(sender: string, subject: string, body: string)
    requires NoLineBreak(sender) && NoLineBreak(subject)
    ensures ExtractSubjectLine(EmailText(sender, subject, body)) == Strip(subject)
  {
    SubjectLineFound(sender, subject, body);
    assert "Subject: " + subject == "Subject:" + " " + subject;
    AfterHeaderKey("Subject:", subject);
  }

  // ------------------------------------------------------------- round-ups

  /** `\b(daily|...)\s+(digest|...)\b` matches at `i`, with alternatives
      `a` and `b`. */
  predicate RoundupAt(s: string, i: nat, a: nat, b: nat)
    requires a < |RoundupPeriods| && b < |RoundupKinds|
  {
    Boundary(s, i) && MatchAt(s, RoundupPeriods[a], i)
    && var j := i + |RoundupPeriods[a]|;
       var k := SpaceRunEnd(s, j);
       k > j && MatchAt(s, RoundupKinds[b], k) && Boundary(s, k + |RoundupKinds[b]|)
  }

  predicate HasRoundupPhrase(s: string) {
    exists i: nat, a: nat, b: nat | i <= |s| && a < |RoundupPeriods| && b < |RoundupKinds| :: RoundupAt(s, i, a, b)
  }

  predicate DigitsAt(s: string, i: nat, n: nat) {
    i + n <= |s| && forall j | i <= j < i + n :: IsDigit(s[j])
  }

  /** `\b\d{1,3}%\s*(off|discount|savings)\b` matches at `i`, with `n`
      digits and alternative `w`. */
  predicate PercentAt(s: string, i: nat, n: nat, w: nat)
    requires w < |PercentWords|
  {
    Boundary(s, i) && 1 <= n <= 3 && DigitsAt(s, i, n) && i + n < |s| && s[i + n] == '%'
    && var k := SpaceRunEnd(s, i + n + 1);
       MatchAt(s, PercentWords[w], k) && Boundary(s, k + |PercentWords[w]|)
  }

  predicate HasPercentOff(s: string) {
    exists i: nat, n: nat, w: nat | i <= |s| && n <= 3 && w < |PercentWords| :: PercentAt(s, i, n, w)
  }

  /** `_is_roundup_subject` */
  predicate IsRoundupSubject(subject: string) {
    subject != [] &&
    var lowered := Lower(subject);
    HasRoundupPhrase(lowered) || ContainsAny(lowered, RoundupCues) || HasPercentOff(lowered)
    || Contains(lowered, "flash sale")
  }

  // --------------------------------------------------------- the detectors

  /** `_looks_like_marketing`: a marketing cue anywhere, a round-up subject,
      or a bulk-mail marker in the sender. */
  predicate LooksLikeMarketing(emailText: string) {
    ContainsAny(Lower(emailText), MarketingCues)
    || IsRoundupSubject(ExtractSubjectLine(emailText))
    || ContainsAny(Lower(ExtractSenderLine(emailText)), SenderCues)
  }

  /** `_is_no_reply_sender` */
  predicate IsNoReplySender(emailText: string) {
    ContainsAny(Lower(emailText), NoReplyTags)
  }

  /** `_has_list_unsubscribe` */
  predicate HasListUnsubscribe(emailText: string) {
    Contains(Lower(emailText), "list-unsubscribe")
  }

  /** How one lower-cased, stripped question line is judged, in the source's
      order: rhetorical marketing questions are passed over, explicit and
      scheduling phrases are cues, a marketing keyword without a business
      keyword passes the line over, and otherwise a pronoun together with a
      follow-up keyword or a question word is a cue. */
  predicate LineAccepts(line: string) {
    if ContainsAny(line, MarketingRhetorical) then false
    else if ContainsAny(line, ExplicitPhrases) then true
    else if ContainsAny(line, SchedulingPhrases) then true
    else if ContainsAny(line, MarketingKeywords) && !ContainsAny(line, BusinessKeywords) then false
    else ContainsAnyWord(line, Pronouns)
         && (ContainsAny(line, FollowupKeywords) || ContainsAnyWord(line, QuestionWords))
  }

  predicate QuestionLineAccepted(lines: seq<string>, k: nat)
    requires k < |lines|
  {
    Contains(lines[k], "?") && LineAccepts(Strip(Lower(lines[k])))
  }

  /** An explicit request phrase anywhere in the lower-cased text. */
  predicate ExplicitRequest(emailText: string) {
    ContainsAny(Lower(emailText), ExplicitPhrases)
  }

  /** Some line holding `?` is accepted by `LineAccepts`. */
  predicate QuestionCue(emailText: string) {
    var lines := SplitLines(emailText);
    exists k | 0 <= k < |lines| :: QuestionLineAccepted(lines, k)
  }

  /** `_has_reply_cue`: never for marketing; otherwise an explicit request
      anywhere, or an accepted question line. */
  function HasReplyCue(emailText: string): (r: bool)
    ensures LooksLikeMarketing(emailText) ==> !r
    ensures r <==> !LooksLikeMarketing(emailText) && (ExplicitRequest(emailText) || QuestionCue(emailText))
  {
    if LooksLikeMarketing(emailText) then false
    else if ExplicitRequest(emailText) then true
    else QuestionCue(emailText)
  }

  // ---------------------------------------------------------------- lemmas

  /** The list-unsubscribe marker is itself a marketing cue, so the
      `_looks_like_marketing(...) or _has_list_unsubscribe(...)` test of the
      classifier is the marketing test alone. */
  lemma ListUnsubscribeIsMarketing(emailText: string)
    requires HasListUnsubscribe(emailText)
    ensures LooksLikeMarketing(emailText)
  {
    assert MatchAt("list-unsubscribe", "unsubscribe", 5);
    ContainsTransitive(Lower(emailText), "list-unsubscribe", "unsubscribe");
    assert Contains(Lower(emailText), MarketingCues[0]);
  }

  /** Outside marketing, an explicit request phrase anywhere is a cue. */
  lemma ExplicitRequestIsCue(emailText: string, k: nat)
    requires !LooksLikeMarketing(emailText)
    requires k < |ExplicitPhrases| && Contains(Lower(emailText), ExplicitPhrases[k])
    ensures HasReplyCue(emailText)
  {
  }

  /** An explicit phrase on a question line is already an explicit phrase of
      the whole text, so the per-line explicit test never decides. */
  lemma {:induction false} LineExplicitSeenFirst(emailText: string, k: nat, p: nat)
    requires k < |SplitLines(emailText)| && p < |ExplicitPhrases|
    requires Contains(Strip(Lower(SplitLines(emailText)[k])), ExplicitPhrases[p])
    ensures ContainsAny(Lower(emailText), ExplicitPhrases)
  {
    var line := SplitLines(emailText)[k];
    StripContained(Lower(line));
    ContainsTransitive(Lower(line), Strip(Lower(line)), ExplicitPhrases[p]);
    ContainsLower(emailText, line);
    ContainsTransitive(Lower(emailText), Lower(line), ExplicitPhrases[p]);
    assert Contains(Lower(emailText), ExplicitPhrases[p]);
  }

  /** The marketing example of the test suite: the word "sale" makes the
      question "Are you ready for a huge sale?" no reply cue. */
  lemma HugeSaleIsNoCue()
    ensures !HasReplyCue("Subject: Weekend Deals\n\nAre you ready for a huge sale?\nDon't miss out!")
  {
    var t := "Subject: Weekend Deals\n\nAre you ready for a huge sale?\nDon't miss out!";
    assert t[49..53] == "sale";
    LowerSlice(t, 49, 53);
    assert Lower("sale") == "sale";
    assert MatchAt(Lower(t), MarketingCues[5], 49);
  }

  // ------------------------------------------------ round-up wording

  /** A round-up phrase holds one of the period words. */
  lemma RoundupNeedsPeriod(s: string)
    requires HasRoundupPhrase(s)
    ensures ContainsAny(s, RoundupPeriods)
  {
    var i: nat, a: nat, b: nat :| i <= |s| && a < |RoundupPeriods| && b < |RoundupKinds| && RoundupAt(s, i, a, b);
    assert Contains(s, RoundupPeriods[a]);
  }

  /** A percent-off phrase holds a `%`. */
  lemma PercentNeedsSign(s: string)
    requires HasPercentOff(s)
    ensures '%' in s
  {
    var i: nat, n: nat, w: nat :| i <= |s| && n <= 3 && w < |PercentWords| && PercentAt(s, i, n, w);
    assert s[i + n] == '%';
  }

  /** `_is_roundup_subject` lower-cases first, so the letter case of the
      subject does not matter. */
  lemma RoundupIgnoresCase(subject: string)
    ensures IsRoundupSubject(Lower(subject)) == IsRoundupSubject(subject)
  {
    LowerIdempotent(subject);
  }

  /** A sender address carrying a no-reply tag, in any letter case, marks
      the orchestrator's email text as from a no-reply sender, whatever its
      subject and body. */
  lemma NoReplyAddressDetected(sender: string, subject: string, body: string)
    requires ContainsAny(Lower(sender), NoReplyTags)
    ensures IsNoReplySender(EmailText(sender, subject, body))
  {
    var t := EmailText(sender, subject, body);
    var k :| 0 <= k < |NoReplyTags| && Contains(Lower(sender), NoReplyTags[k]);
    assert t[6..6 + |sender|] == sender;
    assert MatchAt(t, sender, 6);
    ContainsLower(t, sender);
    ContainsTransitive(Lower(t), Lower(sender), NoReplyTags[k]);
  }

  /** The no-reply test ignores letter case. */
  lemma NoReplyIgnoresCase(emailText: string)
    ensures IsNoReplySender(Lower(emailText)) == IsNoReplySender(emailText)
  {
    LowerIdempotent(emailText);
  }

  /** A round-up subject marks the orchestrator's email text as marketing,
      whatever its body and sender. */
  lemma RoundupSubjectIsMarketing(sender: string, subject: string, body: string)
    requires NoLineBreak(sender) && NoLineBreak(subject)
    requires IsRoundupSubject(Strip(subject))
    ensures LooksLikeMarketing(EmailText(sender, subject, body))
  {
    SubjectRoundTrip(sender, subject, body);
  }
}
