# inbox-buddy triage core, modelled in Dafny

inbox-buddy polls a Gmail inbox, asks a language model whether each new
message is important and needs a reply, stores the verdict, pushes an event
to every browser subscribed to the server-sent-event stream, and serves the
stored messages as a list of threads. This project models the core of its
backend:

- the triage engine of `backend/triage.py`:
  - the owner context (`_get_owner_context`, `_mentions_user_name`);
  - the text detectors (`_looks_like_marketing`, `_is_roundup_subject`,
    `_has_reply_cue`, `_is_no_reply_sender`, `_has_list_unsubscribe`, the
    header extractors);
  - the defensive reply parser (`_strip_code_fence`,
    `_escape_unescaped_newlines`, `_find_json_block`, `_safe_load_json`);
  - the heuristic fallback `_default_classification`;
  - the override cascade of `classify`;
  - the post-processing of `craft_assistant_message`;
- the orchestration in `backend/app.py`:
  - `run_poll_cycle`, its flag derivation and the per-message skip rules;
  - the `notify_all` fan-out to the subscriber queues;
  - the `get_emails` thread listing.

Each Dafny module follows one part of the program:

| file | module | models |
|---|---|---|
| values.dfy | `Wrappers`, `Values` | Option/Result; the Python values a parsed reply holds, `float()`, `bool()`, `str()`, `_clamp_score`, `_coerce_bool` |
| text.dfy | `Text` | `lower`/`upper`, `strip`, `in`, `splitlines`, `"\n".join`, word boundaries |
| owner.dfy | `Owner` | `_get_owner_context` and `_mentions_user_name` |
| signals.dfy | `Signals` | the marketing, no-reply, unsubscribe and reply-cue detectors, the header extractors, and the email text the orchestrator builds |
| cue_examples.dfy | `CueExamples` | concrete emails of the test suite judged by the reply-cue detector, and concrete subjects judged by the round-up detector; that a cue is absent is shown by pairs of neighbouring characters the example avoids and every cue holds |
| escaper.dfy | `Escaper` | `_escape_unescaped_newlines` as a state machine, and as the source's loop |
| jsonblock.dfy | `JsonBlock` | `_find_json_block` as a specification, and as the source's loop |
| parser.dfy | `ResponseParser` | `_strip_code_fence`, the quote normalisation, the `true`/`false`/`null` rewrite, `_safe_load_json` (as written and corrected) |
| classifier.dfy | `Classifier` | `_default_classification` and the reconciliation of `classify` |
| guidance.dfy | `Assistant` | `craft_assistant_message` after the model call |
| hub.dfy | `Notify` | the subscriber set and `notify_all`, as classes |
| poller.dfy | `Poller` | `_is_promotional_message`, the flag derivation and `run_poll_cycle`, as a specification fold and as a class whose methods change the store and the queues |
| listing.dfy | `Listing` | `get_emails`, as a specification and as the source's loop |

Functions that the source computes by changing state step by step are
imperative methods: the escaper, the block finder, the flag derivation, the
poll cycle, the listing loop, `notify_all` and the override cascade. Five of
them are proved equal to a specification function:
`EscapeUnescapedNewlines` to `Escape`, `FindJsonBlock` to `Block`,
`DeriveFlags` to `StoredFlags`, `GetEmails` and `FirstThreads` to `Listed`,
and `ProcessListing` and `RunPollCycle` to `Fold` and `Cycle`. The others
state their results directly in their contracts. The properties the
program promises are proved about those functions:
- the verdict invariants;
- the poll-cycle invariant;
- round trips;
- thread de-duplication;
- the order in which the parser tries its strategies.

The language model, the Gmail API, the JSON decoder and Python's literal
evaluator are not modelled; they are parameters. `loads(s)` is `None`
where `json.loads(s)` raises. `literal(s)` is `None` where
`ast.literal_eval(s)` raises. The poll cycle's `Services` hold:
- three services, each `None` where the source's call raises: `fetch`, for
  `get_message`; `classify`; `craft`, for `craft_assistant_message`;
- the two thresholds read from the environment, which are plain numbers.

The
store is a sequence of records, and the subscriber queues are sequences of
the events put into them.

## Model

| member | source | states |
|---|---|---|
| Values.ClampScore | backend/triage.py:194-199 | the result lies in [0, 1]; it is 0 when `float()` fails or is negative, 1 above one, and the value itself inside [0, 1] |
| Values.ClampScoreIdempotent | backend/triage.py:194-199 | clamping an already clamped score leaves it unchanged |
| Values.ClampScoreExamples | backend/triage.py:194-199 | -1 clamps to 0, 2 to 1, `None` and a list to 0, and 0.42 stays 0.42 |
| Values.CoerceBool | backend/triage.py:202-209 | booleans pass through; numbers are true iff non-zero; strings are true iff stripped and lower-cased they are `true`, `1` or `yes`; anything else is false |
| Text.Take | backend/triage.py:814 | the slice `s[:n]`: a prefix of `s` of exactly `n` characters, or all of `s` when it is shorter |
| Text.SplitJoin | backend/app.py:379 | summary items without line breaks, joined with line feeds as the poller stores them, split back by `splitlines` as the listing reads them, give the items back |
| Owner.SplitOn | backend/triage.py:20 | at least one piece; no piece contains the separator; the pieces joined with the separator give the text back |
| Owner.SplitJoinOn | backend/triage.py:20 | pieces none of which holds the separator, joined with it, split back into the same pieces |
| Owner.NameParts | backend/triage.py:34 | every part is non-empty and consists only of `[a-z0-9@]`; the parts concatenated are exactly the text's `[a-z0-9@]` characters, in order |
| Owner.NamePartsSeparated | backend/triage.py:34 | a character outside `[a-z0-9@]` separates: the parts of `a + c + b` are the parts of `a` followed by the parts of `b` |
| Owner.NamePartsJoin | backend/triage.py:34 | non-empty runs of `[a-z0-9@]` joined by another character split back into exactly those runs |
| Owner.NamePartsOfPart | backend/triage.py:34 | a non-empty run of name characters splits into just itself |
| Owner.Phrases | backend/triage.py:35-38 | every phrase pattern has more than one part |
| Owner.BuildOwnerContext | backend/triage.py:17-44 | the display names are the stripped owner name (when non-empty) followed by the stripped non-empty aliases; every phrase has more than one part |
| Owner.PartsAreTokens | backend/triage.py:39-42 | every part of every display name is a single-word token of the context |
| Owner.MentionsUserName | backend/triage.py:298-310 | with no phrase and no token nothing is mentioned; a token occurring as a whole word of the lower-cased text is a mention |
| Owner.PartMentioned | backend/triage.py:298-310 | any part of any configured name, occurring as a whole word, is a mention |
| Owner.NoOwnerNoMention | backend/triage.py:300-301 | without an owner name or aliases, nothing is ever mentioned |
| Owner.SingleWordName | backend/triage.py:17-44 | for an owner name that is a single word, a mention happens exactly when that word occurs as a whole word in the lower-cased text |
| Owner.SingleWordContext | backend/triage.py:30-44 | such a name gives one display name, no phrase pattern and exactly itself as token |
| Owner.SingleWordDisplayNames | backend/triage.py:18-25 | such a name with no aliases is the only display name |
| Owner.PhraseStartsWithToken | backend/triage.py:36-44 | a match of `\bpart1\s+part2...\b` whose first part ends in a letter or digit is a whole-word match of that first part |
| Owner.PhraseImpliesToken | backend/triage.py:30-44 | every phrase's first part is a token, so such a phrase match is a token match |
| Owner.TokensDecide | backend/triage.py:298-310 | when no phrase's first part ends in `@`, the owner is mentioned exactly when some token occurs as a whole word: the phrase patterns never decide |
| Owner.MentionIgnoresCase | backend/triage.py:303 | lower-casing the text first does not change whether the owner is mentioned |
| Signals.ExtractSenderLine | backend/triage.py:212-216 | definition, no contract: the first line that, lower-cased, starts with `from:`, taken after its first colon and stripped, or empty; `Signals.SenderRoundTrip` is its partner |
| Signals.ExtractSubjectLine | backend/triage.py:219-223 | definition, no contract: the same for `subject:`; `Signals.SubjectRoundTrip` is its partner |
| Signals.AfterHeaderKey | backend/triage.py:215 | the value after the first colon of `From: v` or `Subject: v` is `v` stripped |
| Signals.EmailTextLines | backend/app.py:319-323 | the email text the orchestrator builds splits into the sender line, the subject line, then the lines after the blank line |
| Signals.SenderLineFound | backend/triage.py:212-216 | `_extract_sender_line` of that text finds the `From:` line |
| Signals.SubjectLineFound | backend/triage.py:219-223 | `_extract_subject_line` of that text finds the `Subject:` line, passing over the sender line |
| Signals.SenderRoundTrip | backend/triage.py:212-216 | the sender is recovered, stripped, from the text built at backend/app.py:319-323, when sender and subject hold no line break |
| Signals.SubjectRoundTrip | backend/triage.py:219-223 | the subject is recovered the same way |
| Signals.LooksLikeMarketing | backend/triage.py:226-295 | definition, no contract: a marketing cue in the lower-cased text, a round-up subject, or a bulk-mail cue in the lower-cased sender line |
| Signals.RoundupAt | backend/triage.py:317 | definition, no contract: `\b(daily\|weekly\|monthly\|weekend)\s+(digest\|newsletter\|roundup\|summary\|update)\b` matches at a position, with given alternatives |
| Signals.PercentAt | backend/triage.py:331 | definition, no contract: `\b\d{1,3}%\s*(off\|discount\|savings)\b` matches at a position, with a given digit count and word |
| Signals.IsRoundupSubject | backend/triage.py:313-335 | definition, no contract: a non-empty subject whose lower-cased form holds the round-up phrase, a round-up cue, the percent-off phrase or `flash sale` |
| Signals.RoundupNeedsPeriod | backend/triage.py:317 | a round-up phrase match holds one of the period words |
| Signals.PercentNeedsSign | backend/triage.py:331 | a percent-off match holds a `%` |
| Signals.RoundupIgnoresCase | backend/triage.py:316 | a subject and its lower-cased form are judged alike |
| Signals.RoundupSubjectIsMarketing | backend/triage.py:265-267 | a round-up subject makes the email text the orchestrator builds marketing, whatever the sender and body, when sender and subject hold no line break |
| Signals.IsNoReplySender | backend/triage.py:338-340 | definition, no contract: the lower-cased text holds `no-reply`, `noreply`, `do-not-reply` or `donotreply`; `Signals.NoReplyAddressDetected` is about it |
| Signals.NoReplyAddressDetected | backend/triage.py:338-340 | a sender address holding a no-reply tag, in any letter case, makes the email text orchestrated by backend/app.py:319-323 a no-reply text, whatever its subject and body |
| Signals.NoReplyIgnoresCase | backend/triage.py:338-340 | the no-reply test judges a text and its lower-cased form alike |
| Signals.HasListUnsubscribe | backend/triage.py:343-344 | definition, no contract: the lower-cased text holds `list-unsubscribe`; `Signals.ListUnsubscribeIsMarketing` is its partner |
| Signals.HasReplyCue | backend/triage.py:347-529 | never a cue for marketing; otherwise a cue exactly when an explicit phrase occurs anywhere or some line holding `?` is accepted by the per-line rules |
| Signals.ListUnsubscribeIsMarketing | backend/triage.py:343-344 | a `list-unsubscribe` marker already makes the text marketing (it contains the `unsubscribe` cue), so the extra test in `classify` and `_default_classification` never changes the outcome |
| Signals.ExplicitRequestIsCue | backend/triage.py:381-382 | outside marketing, any explicit request phrase anywhere in the text is a reply cue |
| Signals.LineExplicitSeenFirst | backend/triage.py:515-516 | an explicit phrase on a question line is already an explicit phrase of the whole text, so the per-line explicit test never decides the outcome |
| Signals.HugeSaleIsNoCue | backend/tests/test_triage.py:44-47 | the test suite's marketing question "Are you ready for a huge sale?" is no reply cue |
| CueExamples.AvailableForSyncIsCue | backend/tests/test_triage.py:50-53 | the test suite's direct request "Are you available for a quick sync tomorrow at 3?" is a reply cue |
| CueExamples.UpgradeQuestionIsNoCue | backend/tests/test_triage.py:56-61 | the test suite's rhetorical "Would you like to upgrade your plan and save 20% today?" is no reply cue |
| CueExamples.WeeklyDigestIsRoundup | backend/triage.py:317 | `weekly  digest`, with two spaces, is a round-up subject |
| CueExamples.PercentOffIsRoundup | backend/triage.py:331 | `save 20% off today` is a round-up subject |
| Escaper.Step | backend/triage.py:588-627 | definition, no contract: what one character emits and how it moves the four flags of the loop |
| Escaper.Escape | backend/triage.py:575-629 | definition, no contract: the state machine run over the text from the start state; the lemmas below are about it |
| Escaper.EscapeUnescapedNewlines | backend/triage.py:575-629 | the source's loop, with its four flags, computes the state machine `Escape` |
| Escaper.EscapeOutputIsClean | backend/triage.py:575-629 | the output holds no carriage return except directly after a backslash, and no bare line feed inside a quoted string |
| Escaper.EscapeIsClean | backend/triage.py:575-629 | the escaped text is clean |
| Escaper.CleanIsFixed | backend/triage.py:575-629 | a clean text passes through unchanged |
| Escaper.EscapeIdempotent | backend/triage.py:575-629 | escaping twice is escaping once |
| Escaper.CleanTextUnchanged | backend/triage.py:575-629 | a clean text is its own escape |
| Escaper.NoBreaksUnchanged | backend/triage.py:575-629 | a text without carriage returns and line feeds is its own escape |
| Escaper.CrlfInStringExample | backend/triage.py:609-611 | a CRLF inside a quoted string becomes one escaped `\n` |
| Escaper.BreakOutsideStringExample | backend/triage.py:622-625 | outside a string a carriage return is dropped and a line feed kept |
| Escaper.SliceOfFixedPointExample | backend/triage.py:663 | a fixed point of the escaper can have a suffix that is not, so re-escaping a candidate block is not a no-op in general |
| JsonBlock.FirstCloseFrom | backend/triage.py:640-644 | the first position from `k` where a `}` brings the depth back to zero, or none |
| JsonBlock.LastZero | backend/triage.py:636-638 | the last position, at or before `k`, where the depth is zero: the `start` the scan recorded |
| JsonBlock.SpanDepth | backend/triage.py:636-644 | between the block's start and its closing brace the depth is the net brace count of the span, and stays positive |
| JsonBlock.NoneIffNeverClosed | backend/triage.py:632-645 | no block is found exactly when no `}` ever returns the depth to zero |
| JsonBlock.SpanBalanced | backend/triage.py:632-645 | the returned span is balanced: it opens with `{`, closes with `}`, nets to zero and stays open in between |
| JsonBlock.BlockIsEarliestBalanced | backend/triage.py:632-645 | the block is the slice from a depth-zero point to the first closing brace that returns to zero, and it is balanced |
| JsonBlock.StrayCloseIgnored | backend/triage.py:640-642 | a `}` at depth zero anywhere in the text is ignored: removing it leaves the block unchanged |
| JsonBlock.Block | backend/triage.py:632-645 | definition, no contract: the slice from the last depth-zero point before the first closing brace that returns the depth to zero, through that brace |
| JsonBlock.FindJsonBlock | backend/triage.py:632-645 | the source's loop with `depth` and `start` returns exactly `Block` |
| ResponseParser.HasJsonTag | backend/triage.py:569 | definition, no contract: the optional `(?:json)?` after the opening fence, in any letter case, is present |
| ResponseParser.StripCodeFence | backend/triage.py:566-572 | the result is stripped; a text that is not fenced is just stripped; a fenced one gives, stripped, what lies between the closing fence and the opening fence with its `json` tag when the tag is there, or without it otherwise |
| ResponseParser.TaggedFenceRemoved | backend/triage.py:569-571 | any body in a `json` fence, on one line or several, comes back stripped |
| ResponseParser.BareFenceRemoved | backend/triage.py:569-571 | any body in a bare fence comes back stripped, unless it starts with the word `json`, which is read as the tag |
| ResponseParser.JsonFenceRoundTrip | backend/triage.py:569-571 | a stripped body wrapped in a `json` fence comes back unchanged |
| ResponseParser.BareFenceRoundTrip | backend/triage.py:569-571 | a stripped body wrapped in a bare fence comes back unchanged |
| ResponseParser.NormalizeQuotes | backend/triage.py:653 | same length; curly double quotes become `"`, the right single quote becomes `'`, every other character is kept |
| ResponseParser.ReplaceWordFrom | backend/triage.py:676-678 | a replacement of the word's length keeps the text's length |
| ResponseParser.HitsApart | backend/triage.py:676-678 | two whole-word hits of a word of word characters do not overlap |
| ResponseParser.ReplaceWordHits | backend/triage.py:676-678 | every whole-word, case-insensitive hit of the word becomes the replacement, at the same position |
| ResponseParser.ReplaceWordKeeps | backend/triage.py:676-678 | every character that no hit covers is copied unchanged |
| ResponseParser.ReplaceWordOnlyRecases | backend/triage.py:676-677 | replacing a word by the same word in other letter case changes only letter case |
| ResponseParser.ReplaceWordNoHit | backend/triage.py:676-678 | where the word never occurs, the rewrite changes nothing |
| ResponseParser.PythonishBooleansRecased | backend/triage.py:675-678 | the `true`/`false` rewrites only change letter case, and the whole rewrite keeps the length |
| ResponseParser.Cleaned | backend/triage.py:650-652 | definition, no contract: the reply with its code fence stripped, its curly quotes normalised and its line breaks escaped |
| ResponseParser.TryJson | backend/triage.py:664-671 | definition, no contract: the snippet decoded, or else its single-quote variant |
| ResponseParser.FirstJson | backend/triage.py:660-673 | definition, no contract: the first non-empty candidate snippet that `TryJson` decodes; `ResponseParser.FirstJsonObject` is about it |
| ResponseParser.Candidates | backend/triage.py:656-660 | at least one candidate, the last being the whole cleaned reply |
| ResponseParser.LiteralFallback | backend/triage.py:679-685 | a success exactly when the literal evaluator gives a dictionary for the rewritten text, and then that dictionary; "not a JSON object" exactly when it gives another value; "unable to coerce" exactly when it fails |
| ResponseParser.FirstJsonObject | backend/triage.py:662-673 | an object found was decoded from the snippet, or its single-quote variant, of some non-empty candidate |
| ResponseParser.FirstJsonObjectFinds | backend/triage.py:662-673 | when some candidate's snippet is non-empty and gives an object and no earlier one does, the loop returns that candidate's object |
| ResponseParser.FirstJsonObjectNone | backend/triage.py:662-673 | the loop finds nothing exactly when every candidate's snippet is empty or gives no object |
| ResponseParser.WholeReplyFound | backend/triage.py:656-673 | when the block is missing or gives no object and the whole cleaned reply gives one, the candidate loop returns the whole reply's object |
| ResponseParser.WholeReplyAfterBlock | backend/triage.py:656-673 | when the fenced block is missing or gives no object and the whole cleaned reply gives one, the loader returns the whole reply's object |
| ResponseParser.SafeLoadJsonAsWritten | backend/triage.py:648-685 | an empty reply is the "Empty response" error |
| ResponseParser.SafeLoadJson | backend/triage.py:648-685 | an empty reply, and only an empty reply, is the "Empty response" error; a success is an object decoded from some candidate or given by the literal evaluator |
| ResponseParser.JsonBeforeLiteral | backend/triage.py:662-680 | once a JSON strategy yields an object, the literal evaluator is never consulted |
| ResponseParser.BlockBeforeWholeReply | backend/triage.py:656-667 | an object decoded from the first balanced block wins over the whole reply |
| ResponseParser.CorrectedAgreesWithSource | backend/triage.py:648-685 | where the source fails or returns an object, the corrected loader does the same |
| ResponseParser.PythonishSkipsNoEscape | backend/triage.py:675 | the second escaping of the cleaned reply before the rewrite changes nothing |
| ResponseParser.StrippedCleanIsFixed | backend/triage.py:663 | stripping a clean text keeps it clean, so its snippet is just the stripped text |
| ResponseParser.WholeReplySnippet | backend/triage.py:663 | the snippet of the whole cleaned reply is that reply stripped |
| ResponseParser.ArrayReplyAsWritten | backend/triage.py:666-667 | the loader as written returns the JSON array `[1]` as is |
| ResponseParser.ArrayReplyRejected | backend/triage.py:683-685 | the corrected loader reports `[1]` as not a JSON object |
| Classifier.DefaultClassification | backend/triage.py:688-710 | the six verdict keys; 0.75 and both flags for a reply cue outside marketing; importance only at 0.35 for a bare name mention; 0.1 and no flags otherwise |
| Classifier.Normalized | backend/triage.py:762-776 | the score is clamped and lifted to 0.6 when the flag was asserted, and the flag is set exactly when the score reaches 0.6 |
| Classifier.Cascade | backend/triage.py:778-807 | flags agree with scores at 0.6; a reply implies importance with at least 0.9 of its score; marketing clears both flags and caps both scores at 0.3; otherwise the reply flag is the asserted one minus a no-reply revocation plus a name promotion, each with its score effect |
| Classifier.WithVerdict | backend/triage.py:807-814 | the verdict keys hold the given flags, scores, conjunction and rationale; every other key of the model's dictionary keeps its value |
| Classifier.Reconcile | backend/triage.py:762-814 | the dictionary gains exactly the verdict keys and keeps the rest; flags agree with scores; `actionable` is the conjunction and reply implies importance; rationale cut to 500; the marketing and non-marketing outcomes in terms of the asserted flags, the no-reply revocation and the name promotion |
| Classifier.HeuristicVerdict | backend/triage.py:759-814 | on the heuristic path the message is actionable exactly when it is not marketing and has a reply cue from a sender that is not no-reply, or no cue but a name mention |
| Classifier.Classify | backend/triage.py:739-822 | in every case a well-formed verdict whose flags agree with its scores; an empty reply gives the empty-response rationale; a rejected reply keeps its first 500 characters as rationale and takes the heuristic path; a parsed reply keeps its other keys and its own rationale cut to 500, and for a message that is not marketing its reply flag is the asserted one minus the no-reply revocation plus the name promotion, its importance the asserted one or the reply flag |
| Assistant.DefaultNotification | backend/triage.py:897-898 | the default notification is never empty |
| Assistant.NonBlankCount | backend/triage.py:904-905 | at most one per line: the number of lines that are not blank |
| Assistant.Unbulleted | backend/triage.py:903 | the item with bullet characters stripped from both ends is empty or neither starts nor ends with one |
| Assistant.LineItem | backend/triage.py:903-905 | one item for a line that is not blank, none for a blank line |
| Assistant.BulletItems | backend/triage.py:903-907 | exactly one item per non-blank line; each item is empty or neither starts nor ends with a bullet character |
| Assistant.MarkRemoved | backend/triage.py:903-905 | a bullet mark `- ` put before a non-empty item that neither starts nor ends with a bullet character is removed again, and the marked line is not blank |
| Assistant.BulletItemsUnmark | backend/triage.py:903-907 | lines that are such items each marked with `- ` give the items back |
| Assistant.MarkedSummaryUnmarked | backend/triage.py:901-907 | such items without line breaks, marked and joined by line feeds, read as a text summary give the items back |
| Assistant.CallBobExample | backend/triage.py:901-907 | the summary `- Call Bob` gives the single item `Call Bob` |
| Assistant.SummaryItems | backend/triage.py:901-909 | a string summary gives its lines with bullets removed; a list gives its items rendered, stripped, non-empty; any other value raises |
| Assistant.FallbackSummary | backend/triage.py:888-889 | at most one item, stripped and non-empty: the stripped snippet when there is a snippet, otherwise the stripped head of at most the limit's characters of the body, and no item exactly when that is empty |
| Assistant.CraftAssistantMessage | backend/triage.py:884-918 | an unparseable reply gives the fixed notification and the fallback summary; a parsed one gives the first 280 characters (all of them when there are fewer) of the stripped notification the model wrote, or of the default one when that is empty, the first three summary items and the stripped reply draft, or raises exactly when the summary cannot be iterated |
| Assistant.Prefix | backend/triage.py:910 | `items[:n]`: at most `n` items, a prefix, all of them when there are at most `n` |
| Assistant.NotificationKept | backend/triage.py:896-899 | a notification the model wrote is kept, stripped, when it fits in 280 characters |
| Assistant.ListSummaryKept | backend/triage.py:909 | a list of stripped non-empty strings is kept as the summary |
| Assistant.TextSummaryRoundTrip | backend/triage.py:902-907 | bullet-free stripped items joined by line feeds and read as a text summary give the items back |
| Assistant.BulletOnlyLineExample | backend/triage.py:903-907 | a line holding only `-` passes the filter but becomes an empty summary item |
| Assistant.FallbackNotificationUncapped | backend/triage.py:890-891 | the fallback notification is not cut to 280 characters, so a long subject makes it longer |
| Notify.EventQueue.Put | backend/app.py:244 | the event is appended to the queue |
| Notify.Hub.constructor | backend/app.py:60 | no subscribers |
| Notify.Hub.Subscribe | backend/app.py:225-226 | a fresh empty queue joins the subscribers |
| Notify.Hub.Unsubscribe | backend/app.py:233 | the queue leaves the subscribers |
| Notify.Hub.NotifyAll | backend/app.py:237-244 | every subscriber, and no other object, gets the event at the end of its queue; the set is unchanged |
| Poller.IsPromotional | backend/app.py:247-253 | definition, no contract: some label, upper-cased, holds a promotion hint; `Poller.PromotionalMonotone` is its partner |
| Poller.PromoLabelIffPromoOrAdvert | backend/app.py:247-253 | a label is promotional exactly when, upper-cased, it contains `PROMO` or `ADVERT`: the other five hints all contain `PROMO` |
| Poller.PromotionalMonotone | backend/app.py:247-253 | adding labels before or after keeps a promotional message promotional |
| Poller.ScoreOf | backend/app.py:332-342 | a missing score counts as 0, and the score is clamped to [0, 1] |
| Poller.StoredFlags | backend/app.py:332-355 | both scores in [0, 1]; the reply flag is the asserted flag or the threshold, forced off below 0.45; `actionable` is the classifier's or both flags; when actionable the importance score is lifted to at least the reply score, otherwise it is the clamped importance score |
| Poller.DeriveFlags | backend/app.py:332-355 | the source's sequence of assignments computes `StoredFlags` |
| Poller.StoredFlagsOfVerdict | backend/app.py:344-355 | fed a verdict of `classify` at the default thresholds, the poller stores the classifier's reply flag as both `reply_needed` and `is_important`, and raises the importance score to the maximum of the two scores when a reply is needed |
| Poller.Ingest | backend/app.py:297-433 | missing, empty and known ids are skipped; a stored record carries the message id, is new, and is the only thing that gets guidance requested when actionable; an actionable record publishes exactly one alert with its id; a non-actionable one publishes nothing and has empty guidance; an unstored message publishes at most the classification-failed error |
| Poller.IngestOrderly | backend/app.py:297-433 | each message's outcome is orderly: a new non-empty id, guidance requested and alerted exactly for the actionable record |
| Poller.IngestKeepsInv | backend/app.py:297-433 | one message keeps the cycle invariant |
| Poller.Fold | backend/app.py:296-433 | definition, no contract: the messages of the listing ingested in order, each against the ids known so far |
| Poller.Cycle | backend/app.py:268-440 | definition, no contract: the authentication and listing outcomes, then `Fold`; `Poller.CycleFacts` is about it |
| Poller.FoldKeepsInv | backend/app.py:296-433 | the loop over the listing keeps the invariant and only appends records |
| Poller.CycleFacts | backend/app.py:268-440 | after any cycle: stored ids are distinct, non-empty and were not known before; the known set is the old set plus the stored ids; guidance was requested and an alert published exactly for the actionable records, in order; non-actionable records hold no guidance; `processed` counts the stored records |
| Poller.PollService.IngestOne | backend/app.py:297-433 | the store, the fetch and guidance logs and every subscriber queue advance exactly by the message's outcome in `Ingest` |
| Poller.PollService.StoreClassified | backend/app.py:357-433 | for a classified message, the store, the guidance log and the queues advance by the `Stored` outcome |
| Poller.PollService.ProcessListing | backend/app.py:293-435 | the loop over the listing advances the store, the logs and the queues by the fold of the listing, and returns the number of records stored |
| Poller.PollService.RunPollCycle | backend/app.py:268-440 | a busy cycle changes nothing; otherwise the store, the logs and every queue advance as `Cycle` says from the ids already stored; the status is `Cycle`'s; the service is idle afterwards |
| Listing.View | backend/app.py:151-173 | the view keeps the message id and thread key, cuts the body to 2000 characters, reports `actionable` as `is_important`, and lists summary items stripped and non-empty |
| Listing.Important | backend/app.py:137-138 | the filter keeps only important rows and never adds any |
| Listing.ImportantMembers | backend/app.py:137-138 | a row is kept by the filter exactly when it is an important row of the input |
| Listing.Kept | backend/app.py:133-175 | a non-positive limit gives nothing; otherwise at most `limit` rows |
| Listing.GetEmails | backend/app.py:124-176 | the source's method returns exactly `Listed` |
| Listing.FirstOfEachThread | backend/app.py:143-150 | definition, no contract: each row whose thread key was not seen before it, in order; the lemmas below are about it |
| Listing.Listed | backend/app.py:124-176 | definition, no contract: the views of `Kept` |
| Listing.FirstThreads | backend/app.py:143-175 | the loop with `seen_threads` and its early break returns the views of the first `limit` thread openers of the window |
| Listing.KeptKeys | backend/app.py:146-150 | the kept rows have pairwise distinct thread keys and cover every thread of the window |
| Listing.OpensIffNew | backend/app.py:147-150 | a row opens a thread exactly when its key was not seen before it |
| Listing.KeptOpens | backend/app.py:146-150 | every kept row is the opener of its thread |
| Listing.OpensKept | backend/app.py:146-150 | every thread opener is kept |
| Listing.ImportantNewestFirst | backend/app.py:136-138 | filtering keeps the newest-first order |
| Listing.KeptIsNewest | backend/app.py:136-150 | on newest-first rows, each kept row is at least as new as every row of its thread |
| Listing.Window | backend/app.py:140-141 | the rows examined are the first `max(limit, 1) * 5` of the selection, and the listing is the first `limit` of their thread openers |
| Listing.SingleThread | backend/app.py:146-150 | rows that all belong to one thread keep only the first |
| Listing.WindowHidesThreads | backend/app.py:140-175 | when the `5 * limit` newest rows all belong to one thread, the listing shows one thread, fewer than the limit, whatever threads older rows belong to |
| Listing.ListedDistinct | backend/app.py:143-175 | the listing shows each thread at most once |
| Listing.ListedFromRows | backend/app.py:136-175 | every listed view is the view of a stored row, and of an important one when only actionable rows are asked for |
| Listing.ListedNonEmpty | backend/app.py:140-175 | a positive limit and a non-empty selection give a non-empty listing |
| Listing.ListedNewest | backend/app.py:136-175 | on newest-first rows, each listed message is the newest of its thread within the window |
| Listing.SummaryRoundTrip | backend/app.py:151-155 | the summary a record stores is read back as the stripped non-empty items the poller joined |
| Listing.ThreadExample | backend/tests/test_app_emails.py:28-62 | the test suite's three rows in two threads list the newer message of the first thread, then the other thread |

## Left out

- The language model and its SDK (`generate_content`, `_response_to_text`, `_iter_candidate_text`, the generation configs, the prompts and system instructions): the reply text is an input.
- `answer_question` and the `/ask` route: answering questions is outside the triage core. So are the routes `/health`, `/auth/*` and `/reset`, and the startup hook.
- `json.loads` and `ast.literal_eval` are parameters. Only the order in which texts and strategies are tried is modelled.
- `_get_owner_context`'s `lru_cache` and `_refresh_owner_context`: the context is built from the name and alias strings passed in, not from the environment. Its `instruction` and `prompt_hint` texts only feed the prompt and are not modelled.
- `backend/gmail_client.py` is not part of this model (`get_gmail`, `get_message`, `extract_payload`). Authentication is a flag, the listing a `Result`, and fetching a service that may fail.
- `backend/app.py` imports `list_recent_messages`, which `backend/gmail_client.py` does not define; the listing is an input.
- `backend/db.py` is not part of this model. The store is a sequence of records.
  - Listing.GetEmails takes the rows in the order of the `ORDER BY internal_date DESC` query rather than sorting them. The newest-first lemmas assume that order.
- Concurrency is modelled by the `running` flag. Nothing models the asyncio scheduling that lets `notify_all` awaits interleave with other coroutines, or the `/events` stream consuming the queues.
- The `poller()` loop, its sleeps and its exception guard are not modelled; the model is one cycle at a time.
- Poller.FullMessage: `internalDate` is an integer. The `ValueError` of `int(internalDate)` on a non-numeric date is not modelled, nor the `TypeError` on a `labelIds` field that is present but null.
- Values.ToFloat: accepts only the decimal notation `float()` reads (optional sign, digits, one dot). Exponents, `inf`, `nan` and digit underscores are read as failures. Floats are reals, so there is no rounding.
- Values.ToStr: renders floats, lists and dictionaries as fixed tags rather than Python's text. Only strings, booleans, `None` and integers render as Python does.
- Text.Lower: lower- and upper-casing act on ASCII letters only. Python's `lower()`/`upper()` and `re.IGNORECASE` act on all of Unicode.
- Text.IsWordChar: word boundaries use ASCII word characters. Python's `\b` on `str` patterns uses Unicode ones.
- Signals.PercentAt: `\d` is read as the ASCII digits `0`-`9` (`Text.IsDigit`). Python's `\d` on `str` patterns matches every Unicode decimal digit, so a subject such as `٢٠% off` is a round-up subject in the source but not in the model.
- Assistant.SummaryItems: a dictionary summary counts as raising. Python would iterate its keys, whose order a Dafny map does not have.
- ResponseParser.ReplaceWordFrom: its own contract gives only the length. `ResponseParser.ReplaceWordHits` and `ResponseParser.ReplaceWordKeeps` state, position by position, what it replaces and what it keeps.
- Owner.MentionsUserName: its contract states the empty-context and token directions only. `Owner.TokensDecide` proves the exact condition for names whose parts do not end in `@`, and `Owner.SingleWordName` for a one-word owner name.
- Two tests in backend/tests/test_triage.py expect marketing to be detected where the code's cue lists find nothing:
  - the sponsored-language example, at lines 85-92;
  - the newsletter-issue example, at lines 95-107.

  The model follows the code.

## Findings

| source | as written | input that shows it | evidently intended | confidence | as-written member | corrected member |
|---|---|---|---|---|---|---|
| backend/triage.py:666-671 | `_safe_load_json` returns whatever `json.loads` gives, although it is declared to return a `dict` and both callers read its fields with `.get` | the reply `[1]`, which the JSON decoder reads as a list. `classify` then raises `AttributeError` at backend/triage.py:762, so `run_poll_cycle` reports "Classification failed", stores nothing and retries the message every cycle | only a JSON object is accepted. Any other value falls through to the next strategy and, in the end, to "Model output was not a JSON object" | high (not executed) | ResponseParser.ArrayReplyAsWritten | ResponseParser.ArrayReplyRejected |

- `ResponseParser.SafeLoadJsonAsWritten` models the loader as written.
- `ResponseParser.SafeLoadJson` is the corrected loader, which the classifier and the guidance step use.
- `ResponseParser.CorrectedAgreesWithSource` proves that the two loaders differ only where the source returns a value that is not an object.
- The reply `null` is one such value. As written, `json.loads` gives `None`, so `classify` takes its `if data is None` branch (backend/triage.py:759-760): the heuristic verdict with the empty rationale and no exception. In the corrected model it is rejected as not an object, and `Classifier.Classify` takes the same heuristic path with the rationale `null`, the reply's first 500 characters.

Other behaviour the proofs bring out, which the model keeps as written:
- The fallback notification of `craft_assistant_message` is not cut to 280 characters (`Assistant.FallbackNotificationUncapped`).
- A summary line holding only a bullet mark becomes an empty item (`Assistant.BulletOnlyLineExample`).
- The listing examines only the newest `5 * limit` rows, so with many rows in a few threads it can show fewer than `limit` threads, although older threads exist (`Listing.WindowHidesThreads`).
- The phrase patterns of the owner context are redundant unless a name part ends in `@`: each phrase's first part is also a token, and the whitespace after it is a word boundary (`Owner.TokensDecide`).
