/** Concrete emails from the test suite of the triage engine
    (backend/tests/test_triage.py), judged by the reply-cue detector, and
    concrete subjects judged by the round-up detector. Each email is
    written as its subject line, the blank line and its question, the
    question in two pieces. That a cue does not occur in an example is
    shown through pairs of neighbouring characters: the lower-cased
    example avoids a small set of pairs, and every cue holds one of them. */
module CueExamples {
  import opened Text
  import opened Signals

  // ------------------------------------------------ three-line emails

  lemma ThreeLinesFirst(a: string, b: string, c: string, key: string)
    requires StartsWith(Lower(a), key)
    ensures HeaderIn([a, b, c], key) == AfterColon(a)
  {
    HeaderInFirst(a, [b, c], key);
    assert [a, b, c] == [a] + [b, c];
  }

  lemma ThreeLinesNone(a: string, b: string, c: string, key: string)
    requires !StartsWith(Lower(a), key) && !StartsWith(Lower(b), key) && !StartsWith(Lower(c), key)
    ensures HeaderIn([a, b, c], key) == ""
  {
    assert [a, b, c][1..] == [b, c] && [b, c][1..] == [c] && [c][1..] == [];
    assert HeaderIn([a, b, c], key) == HeaderIn([b, c], key);
    assert HeaderIn([b, c], key) == HeaderIn([c], key);
    assert HeaderIn([c], key) == HeaderIn([], key);
  }

  lemma NoMarkNoQuestion(s: string)
    requires '?' !in s
    ensures !Contains(s, "?")
  {
    forall i | 0 <= i <= |s| - 1 ensures !MatchAt(s, "?", i) {
      assert s[i..i + 1][0] == s[i];
    }
  }

  /** Three lines none of which is an accepted question line: the first
      holds no `?`, the second is empty, and the third is a rhetorical
      marketing question. */
  lemma ThreeLinesNoQuestion(a: string, c: string)
    requires !Contains(a, "?") && ContainsAny(Strip(Lower(c)), MarketingRhetorical)
    ensures forall k | 0 <= k < 3 :: !QuestionLineAccepted([a, "", c], k)
  {
  }

  // ------------------------------------------------ the direct request

  const SyncSubject := "Subject: Project Update"
  const SyncAsk1 := "Are you available for "
  const SyncAsk2 := "a quick sync tomorrow at 3?"
  const SyncAsk := SyncAsk1 + SyncAsk2
  const SyncAskLower := "are you available for " + SyncAsk2
  const SyncEmail := SyncSubject + "\n\n" + SyncAsk

  /** Pairs that the lower-cased email avoids; every marketing cue holds one. */
  const SyncAvoid: set<(char, char)> := {(' ', 'c'), (' ', 'm'), (' ', 'n'), (' ', 'o'), ('a', 'l'), ('b', 'i'), ('b', 's'), ('c', 'o'), ('d', 'i'), ('d', 's'), ('e', 'r'), ('l', 'i')}

  /** Pairs that the lower-cased question avoids; every rhetorical question
      and every marketing keyword holds one. */
  const SyncAskAvoid: set<(char, char)> := {(' ', 'e'), ('a', 'd'), ('a', 'l'), ('c', 'o'), ('d', ' '), ('e', 'r'), ('n', ' '), ('p', 'r')}

  /** Pairs that the lower-cased subject avoids; every round-up period and
      cue, and "flash sale", holds one. */
  const SyncSubjectAvoid: set<(char, char)> := {(' ', 'c'), (' ', 'p'), ('a', 'r'), ('e', 'r'), ('e', 's'), ('f', 'l'), ('g', 'h'), ('l', 'y'), ('n', 'd')}

  /** Pairs held by the sender cues; the empty sender avoids them all. */
  const SenderAvoid: set<(char, char)> := {('@', 'c'), ('@', 'n'), ('a', 'l'), ('a', 't'), ('e', 'r'), ('i', 'n'), ('m', 'a'), ('m', 'o'), ('n', 'o')}

  lemma SyncSubjectNoBreak()
    ensures NoLineBreak(SyncSubject)
  {
  }

  lemma SyncAsk1NoBreak()
    ensures NoLineBreak(SyncAsk1)
  {
  }

  lemma SyncAsk2NoBreak()
    ensures NoLineBreak(SyncAsk2)
  {
  }

  lemma SyncLines()
    ensures SplitLines(SyncEmail) == [SyncSubject, "", SyncAsk]
  {
    SyncSubjectNoBreak();
    SyncAsk1NoBreak();
    SyncAsk2NoBreak();
    HeaderLineNoBreak(SyncAsk1, SyncAsk2);
    assert SyncEmail == SyncSubject + [LF] + ([] + [LF] + SyncAsk);
    SplitLinesHead(SyncSubject, [] + [LF] + SyncAsk);
    SplitLinesHead([], SyncAsk);
    SplitLinesSingle(SyncAsk);
  }

  lemma SyncSubjectLower()
    ensures Lower(SyncSubject) == "subject: project update"
  {
  }

  lemma SyncAsk1Lower()
    ensures Lower(SyncAsk1) == "are you available for "
  {
  }

  lemma SyncAsk2Lower()
    ensures Lower(SyncAsk2) == SyncAsk2
  {
  }

  lemma SyncLower()
    ensures Lower(SyncAsk) == SyncAskLower
    ensures Lower(SyncEmail) == "subject: project update\n\n" + SyncAskLower
  {
    SyncSubjectLower();
    SyncAsk1Lower();
    SyncAsk2Lower();
    LowerConcat(SyncAsk1, SyncAsk2);
    assert Lower("\n\n") == "\n\n";
    LowerConcat(SyncSubject, "\n\n");
    LowerConcat(SyncSubject + "\n\n", SyncAsk);
    assert "subject: project update" + "\n\n" == "subject: project update\n\n";
  }

  lemma SyncHeadAvoids()
    ensures AvoidsPairs("subject: project update\n\n", SyncAvoid)
  {
  }

  lemma SyncAsk1Avoids()
    ensures AvoidsPairs("are you available for ", SyncAvoid)
  {
  }

  lemma SyncAsk1AvoidsAsk()
    ensures AvoidsPairs("are you available for ", SyncAskAvoid)
  {
  }

  lemma SyncAsk2Avoids()
    ensures AvoidsPairs(SyncAsk2, SyncAvoid)
  {
  }

  lemma SyncAsk2AvoidsAsk()
    ensures AvoidsPairs(SyncAsk2, SyncAskAvoid)
  {
  }

  lemma SyncAvoidsPairs()
    ensures AvoidsPairs(SyncAskLower, SyncAskAvoid)
    ensures AvoidsPairs(Lower(SyncEmail), SyncAvoid)
  {
    SyncAsk1Avoids();
    SyncAsk1AvoidsAsk();
    SyncAsk2Avoids();
    SyncAsk2AvoidsAsk();
    AvoidsPairsConcat("are you available for ", SyncAsk2, SyncAskAvoid);
    AvoidsPairsConcat("are you available for ", SyncAsk2, SyncAvoid);
    SyncHeadAvoids();
    AvoidsPairsConcat("subject: project update\n\n", SyncAskLower, SyncAvoid);
    SyncLower();
  }

  lemma SyncMarketingCues0(s: string)
    requires AvoidsPairs(s, SyncAvoid)
    ensures forall k | 0 <= k < 8 :: !Contains(s, MarketingCues[k])
  {
    NoneByPairs(s, MarketingCues, SyncAvoid, [4, 29, 13, 5, 0, 1, 2, 1], 0, 8);
  }

  lemma SyncMarketingCues1(s: string)
    requires AvoidsPairs(s, SyncAvoid)
    ensures forall k | 8 <= k < 16 :: !Contains(s, MarketingCues[k])
  {
    NoneByPairs(s, MarketingCues, SyncAvoid, [0, 0, 5, 4, 6, 3, 5, 9], 8, 16);
  }

  lemma SyncMarketingCues2(s: string)
    requires AvoidsPairs(s, SyncAvoid)
    ensures forall k | 16 <= k < 24 :: !Contains(s, MarketingCues[k])
  {
    NoneByPairs(s, MarketingCues, SyncAvoid, [7, 3, 4, 5, 16, 16, 11, 9], 16, 24);
  }

  lemma SyncMarketingCues3(s: string)
    requires AvoidsPairs(s, SyncAvoid)
    ensures forall k | 24 <= k < 32 :: !Contains(s, MarketingCues[k])
  {
    NoneByPairs(s, MarketingCues, SyncAvoid, [9, 4, 10, 7, 8, 0, 2, 7], 24, 32);
  }

  lemma SyncNoMarketingCue()
    ensures !ContainsAny(Lower(SyncEmail), MarketingCues)
  {
    SyncAvoidsPairs();
    SyncMarketingCues0(Lower(SyncEmail));
    SyncMarketingCues1(Lower(SyncEmail));
    SyncMarketingCues2(Lower(SyncEmail));
    SyncMarketingCues3(Lower(SyncEmail));
  }

  lemma SyncSubjectSplit()
    ensures SyncSubject == "Subject:" + " " + "Project Update"
  {
  }

  lemma ProjectUpdateStripped()
    ensures Strip("Project Update") == "Project Update"
  {
    StripOfStripped("Project Update");
  }

  lemma SyncSubjectKey()
    ensures StartsWith("subject: project update", "subject:")
  {
    assert "subject: project update"[..8] == "subject:";
  }

  lemma SyncSubjectValue()
    ensures StartsWith(Lower(SyncSubject), "subject:")
    ensures AfterColon(SyncSubject) == "Project Update"
  {
    SyncSubjectLower();
    SyncSubjectKey();
    SyncSubjectSplit();
    AfterHeaderKey("Subject:", "Project Update");
    ProjectUpdateStripped();
  }

  lemma SyncSubjectFound()
    ensures ExtractSubjectLine(SyncEmail) == "Project Update"
  {
    SyncLines();
    SyncSubjectValue();
    ThreeLinesFirst(SyncSubject, "", SyncAsk, "subject:");
  }

  lemma SyncPeriods0(s: string)
    requires AvoidsPairs(s, SyncSubjectAvoid)
    ensures forall k | 0 <= k < 4 :: !Contains(s, RoundupPeriods[k])
  {
    NoneByPairs(s, RoundupPeriods, SyncSubjectAvoid, [3, 4, 5, 5], 0, 4);
  }

  lemma SyncRoundupCues0(s: string)
    requires AvoidsPairs(s, SyncSubjectAvoid)
    ensures forall k | 0 <= k < 8 :: !Contains(s, RoundupCues[k])
  {
    NoneByPairs(s, RoundupCues, SyncSubjectAvoid, [8, 3, 3, 4, 2, 9, 3, 2], 0, 8);
  }

  lemma ProjectUpdateLower()
    ensures Lower("Project Update") == "project update"
  {
  }

  lemma ProjectUpdateFacts()
    ensures AvoidsPairs("project update", SyncSubjectAvoid)
    ensures '%' !in "project update"
  {
  }

  /** A lower-cased subject that avoids these pairs and holds no `%` is no
      round-up subject. */
  lemma NoRoundupWording(s: string)
    requires AvoidsPairs(s, SyncSubjectAvoid) && '%' !in s
    ensures !HasRoundupPhrase(s) && !ContainsAny(s, RoundupCues) && !HasPercentOff(s)
    ensures !Contains(s, "flash sale")
  {
    if HasRoundupPhrase(s) {
      RoundupNeedsPeriod(s);
      SyncPeriods0(s);
    }
    SyncRoundupCues0(s);
    if HasPercentOff(s) {
      PercentNeedsSign(s);
    }
    AbsentByPair(s, "flash sale", SyncSubjectAvoid, 0);
  }

  lemma SyncSubjectNotRoundup()
    ensures !IsRoundupSubject("Project Update")
  {
    ProjectUpdateLower();
    ProjectUpdateFacts();
    NoRoundupWording("project update");
  }

  lemma EmptySenderCues0(s: string)
    requires AvoidsPairs(s, SenderAvoid)
    ensures forall k | 0 <= k < 8 :: !Contains(s, SenderCues[k])
  {
    NoneByPairs(s, SenderCues, SenderAvoid, [8, 0, 0, 3, 3, 3, 0, 1], 0, 8);
  }

  lemma EmptySenderCues1(s: string)
    requires AvoidsPairs(s, SenderAvoid)
    ensures forall k | 8 <= k < 16 :: !Contains(s, SenderCues[k])
  {
    NoneByPairs(s, SenderCues, SenderAvoid, [0, 0, 1, 0, 2, 1, 1, 0], 8, 16);
  }

  lemma EmptySenderCues2(s: string)
    requires AvoidsPairs(s, SenderAvoid)
    ensures forall k | 16 <= k < 23 :: !Contains(s, SenderCues[k])
  {
    NoneByPairs(s, SenderCues, SenderAvoid, [0, 1, 4, 3, 4, 7, 0], 16, 23);
  }

  lemma EmptySenderNoCue()
    ensures !ContainsAny(Lower([]), SenderCues)
  {
    assert Lower([]) == [];
    EmptySenderCues0([]);
    EmptySenderCues1([]);
    EmptySenderCues2([]);
  }

  lemma SyncNoFromLine()
    ensures !StartsWith(Lower(SyncSubject), "from:")
    ensures !StartsWith(Lower(""), "from:")
    ensures !StartsWith(Lower(SyncAsk), "from:")
  {
    SyncSubjectLower();
    SyncLower();
    assert Lower(SyncSubject)[0] == 's';
    assert Lower(SyncAsk)[0] == 'a';
  }

  lemma SyncSenderEmpty()
    ensures ExtractSenderLine(SyncEmail) == ""
  {
    SyncLines();
    SyncNoFromLine();
    ThreeLinesNone(SyncSubject, "", SyncAsk, "from:");
  }

  lemma SyncNotMarketing()
    ensures !LooksLikeMarketing(SyncEmail)
  {
    SyncNoMarketingCue();
    SyncSubjectFound();
    SyncSubjectNotRoundup();
    SyncSenderEmpty();
    EmptySenderNoCue();
  }

  lemma SyncRhetorical0(s: string)
    requires AvoidsPairs(s, SyncAskAvoid)
    ensures forall k | 0 <= k < 6 :: !Contains(s, MarketingRhetorical[k])
  {
    NoneByPairs(s, MarketingRhetorical, SyncAskAvoid, [2, 4, 4, 2, 10, 2], 0, 6);
  }

  lemma SyncRhetorical1(s: string)
    requires AvoidsPairs(s, SyncAskAvoid)
    ensures forall k | 6 <= k < 12 :: !Contains(s, MarketingRhetorical[k])
  {
    NoneByPairs(s, MarketingRhetorical, SyncAskAvoid, [12, 4, 2, 2, 0, 7], 6, 12);
  }

  lemma SyncKeywords0(s: string)
    requires AvoidsPairs(s, SyncAskAvoid)
    ensures forall k | 0 <= k < 5 :: !Contains(s, MarketingKeywords[k])
  {
    NoneByPairs(s, MarketingKeywords, SyncAskAvoid, [2, 2, 1, 3, 3], 0, 5);
  }

  lemma SyncKeywords1(s: string)
    requires AvoidsPairs(s, SyncAskAvoid)
    ensures forall k | 5 <= k < 10 :: !Contains(s, MarketingKeywords[k])
  {
    NoneByPairs(s, MarketingKeywords, SyncAskAvoid, [3, 0, 0, 4, 7], 5, 10);
  }

  /** The question line is accepted: no rhetorical or marketing wording,
      the word "you" and the keyword "available". */
  lemma SyncAskAccepted()
    ensures LineAccepts(SyncAskLower)
  {
    var l := SyncAskLower;
    SyncAvoidsPairs();
    SyncRhetorical0(l);
    SyncRhetorical1(l);
    SyncKeywords0(l);
    SyncKeywords1(l);
    assert l[4..7] == "you";
    assert WordMatchAt(l, Pronouns[0], 4);
    assert l[30..34] == "sync";
    assert MatchAt(l, FollowupKeywords[34], 30);
  }

  lemma SyncAskStripped()
    ensures Strip(SyncAskLower) == SyncAskLower
  {
    assert SyncAskLower[0] == 'a' && SyncAskLower[|SyncAskLower| - 1] == '?';
    StripOfStripped(SyncAskLower);
  }

  lemma SyncAskHasMark()
    ensures Contains(SyncAsk, "?")
  {
    assert SyncAsk[48..] == "?";
    assert MatchAt(SyncAsk, "?", 48);
  }

  lemma SyncAskLineAccepted()
    ensures QuestionLineAccepted([SyncSubject, "", SyncAsk], 2)
  {
    SyncLower();
    SyncAskStripped();
    SyncAskAccepted();
    SyncAskHasMark();
  }

  /** The direct-request example of the test suite (test_triage.py, the
      email asking whether the reader is available for a quick sync) is a
      reply cue. */
  lemma AvailableForSyncIsCue()
    ensures HasReplyCue(SyncEmail)
  {
    SyncNotMarketing();
    SyncLines();
    SyncAskLineAccepted();
  }

  // ------------------------------------------- the rhetorical marketing ask

  const UpgradeSubject := "Subject: Upgrade and Save"
  const UpgradeAsk1 := "Would you like to upgrade "
  const UpgradeAsk2 := "your plan and save 20% today?"
  const UpgradeAsk := UpgradeAsk1 + UpgradeAsk2
  const UpgradeAskLower := "would you like to upgrade " + UpgradeAsk2
  const UpgradeEmail := UpgradeSubject + "\n\n" + UpgradeAsk

  /** Pairs that the lower-cased email avoids; every explicit request
      phrase holds one. */
  const UpgradeAvoid: set<(char, char)> := {(' ', 'r'), ('a', 't'), ('d', 'v'), ('f', 'o'), ('l', 'e'), ('o', 'n'), ('r', 's')}

  lemma UpgradeSubjectNoBreak()
    ensures NoLineBreak(UpgradeSubject)
  {
  }

  lemma UpgradeAsk1NoBreak()
    ensures NoLineBreak(UpgradeAsk1)
  {
  }

  lemma UpgradeAsk2NoBreak()
    ensures NoLineBreak(UpgradeAsk2)
  {
  }

  lemma UpgradeLines()
    ensures SplitLines(UpgradeEmail) == [UpgradeSubject, "", UpgradeAsk]
  {
    UpgradeSubjectNoBreak();
    UpgradeAsk1NoBreak();
    UpgradeAsk2NoBreak();
    HeaderLineNoBreak(UpgradeAsk1, UpgradeAsk2);
    assert UpgradeEmail == UpgradeSubject + [LF] + ([] + [LF] + UpgradeAsk);
    SplitLinesHead(UpgradeSubject, [] + [LF] + UpgradeAsk);
    SplitLinesHead([], UpgradeAsk);
    SplitLinesSingle(UpgradeAsk);
  }

  lemma UpgradeSubjectLower()
    ensures Lower(UpgradeSubject) == "subject: upgrade and save"
  {
  }

  lemma UpgradeAsk1Lower()
    ensures Lower(UpgradeAsk1) == "would you like to upgrade "
  {
  }

  lemma UpgradeAsk2Lower()
    ensures Lower(UpgradeAsk2) == UpgradeAsk2
  {
  }

  lemma UpgradeLower()
    ensures Lower(UpgradeAsk) == UpgradeAskLower
    ensures Lower(UpgradeEmail) == "subject: upgrade and save\n\n" + UpgradeAskLower
  {
    UpgradeSubjectLower();
    UpgradeAsk1Lower();
    UpgradeAsk2Lower();
    LowerConcat(UpgradeAsk1, UpgradeAsk2);
    assert Lower("\n\n") == "\n\n";
    LowerConcat(UpgradeSubject, "\n\n");
    LowerConcat(UpgradeSubject + "\n\n", UpgradeAsk);
    assert "subject: upgrade and save" + "\n\n" == "subject: upgrade and save\n\n";
  }

  lemma UpgradeHeadAvoids()
    ensures AvoidsPairs("subject: upgrade and save\n\n", UpgradeAvoid)
  {
  }

  lemma UpgradeAsk1Avoids()
    ensures AvoidsPairs("would you like to upgrade ", UpgradeAvoid)
  {
  }

  lemma UpgradeAsk2Avoids()
    ensures AvoidsPairs(UpgradeAsk2, UpgradeAvoid)
  {
  }

  lemma UpgradeAvoidsPairs()
    ensures AvoidsPairs(Lower(UpgradeEmail), UpgradeAvoid)
  {
    UpgradeAsk1Avoids();
    UpgradeAsk2Avoids();
    AvoidsPairsConcat("would you like to upgrade ", UpgradeAsk2, UpgradeAvoid);
    UpgradeHeadAvoids();
    AvoidsPairsConcat("subject: upgrade and save\n\n", UpgradeAskLower, UpgradeAvoid);
    UpgradeLower();
  }

  lemma UpgradeExplicit0(s: string)
    requires AvoidsPairs(s, UpgradeAvoid)
    ensures forall k | 0 <= k < 7 :: !Contains(s, ExplicitPhrases[k])
  {
    NoneByPairs(s, ExplicitPhrases, UpgradeAvoid, [1, 1, 1, 1, 0, 3, 7], 0, 7);
  }

  lemma UpgradeExplicit1(s: string)
    requires AvoidsPairs(s, UpgradeAvoid)
    ensures forall k | 7 <= k < 14 :: !Contains(s, ExplicitPhrases[k])
  {
    NoneByPairs(s, ExplicitPhrases, UpgradeAvoid, [9, 13, 13, 15, 5, 1, 0], 7, 14);
  }

  lemma UpgradeExplicit2(s: string)
    requires AvoidsPairs(s, UpgradeAvoid)
    ensures forall k | 14 <= k < 21 :: !Contains(s, ExplicitPhrases[k])
  {
    NoneByPairs(s, ExplicitPhrases, UpgradeAvoid, [0, 8, 8, 7, 7, 7, 7], 14, 21);
  }

  lemma UpgradeExplicit3(s: string)
    requires AvoidsPairs(s, UpgradeAvoid)
    ensures forall k | 21 <= k < 27 :: !Contains(s, ExplicitPhrases[k])
  {
    NoneByPairs(s, ExplicitPhrases, UpgradeAvoid, [2, 2, 0, 0, 0, 0], 21, 27);
  }

  lemma UpgradeNoExplicit()
    ensures !ExplicitRequest(UpgradeEmail)
  {
    UpgradeAvoidsPairs();
    UpgradeExplicit0(Lower(UpgradeEmail));
    UpgradeExplicit1(Lower(UpgradeEmail));
    UpgradeExplicit2(Lower(UpgradeEmail));
    UpgradeExplicit3(Lower(UpgradeEmail));
  }

  lemma UpgradeSubjectNoMark()
    ensures '?' !in UpgradeSubject
  {
  }

  lemma UpgradeAskStripped()
    ensures Strip(UpgradeAskLower) == UpgradeAskLower
  {
    assert UpgradeAskLower[0] == 'w' && UpgradeAskLower[|UpgradeAskLower| - 1] == '?';
    StripOfStripped(UpgradeAskLower);
  }

  /** The question opens with "would you like", a rhetorical marketing
      question, which passes the line over. */
  lemma UpgradeAskRhetorical()
    ensures ContainsAny(UpgradeAskLower, MarketingRhetorical)
  {
    assert UpgradeAskLower[..14] == "would you like";
    assert MatchAt(UpgradeAskLower, MarketingRhetorical[1], 0);
  }

  lemma UpgradeAskIsRhetorical()
    ensures ContainsAny(Strip(Lower(UpgradeAsk)), MarketingRhetorical)
  {
    UpgradeLower();
    UpgradeAskStripped();
    UpgradeAskRhetorical();
  }

  lemma UpgradeNoQuestionCue()
    ensures !QuestionCue(UpgradeEmail)
  {
    UpgradeLines();
    UpgradeSubjectNoMark();
    NoMarkNoQuestion(UpgradeSubject);
    UpgradeAskIsRhetorical();
    ThreeLinesNoQuestion(UpgradeSubject, UpgradeAsk);
  }

  /** The marketing example of the test suite (test_triage.py, the email
      asking "Would you like to upgrade your plan and save 20% today?") is
      no reply cue: its only question is a rhetorical one. */
  lemma UpgradeQuestionIsNoCue()
    ensures !HasReplyCue(UpgradeEmail)
  {
    UpgradeNoExplicit();
    UpgradeNoQuestionCue();
  }

  // ------------------------------------------------ round-up subjects

  lemma WeeklyDigestLower()
    ensures Lower("weekly  digest") == "weekly  digest"
  {
  }

  lemma WeeklyDigestPhrase()
    ensures RoundupAt("weekly  digest", 0, 1, 0)
  {
    var s := "weekly  digest";
    assert SpaceRunEnd(s, 8) == 8;
    assert SpaceRunEnd(s, 7) == 8;
    assert SpaceRunEnd(s, 6) == 8;
    assert MatchAt(s, RoundupKinds[0], 8) by { assert s[8..14] == "digest"; }
    assert MatchAt(s, RoundupPeriods[1], 0) by { assert s[0..6] == "weekly"; }
  }

  /** A period word and a kind word apart by a run of spaces make a
      round-up subject (`\s+` takes more than one space). */
  lemma WeeklyDigestIsRoundup()
    ensures IsRoundupSubject("weekly  digest")
  {
    WeeklyDigestLower();
    WeeklyDigestPhrase();
  }

  lemma PercentOffLower()
    ensures Lower("save 20% off today") == "save 20% off today"
  {
  }

  lemma PercentOffPhrase()
    ensures PercentAt("save 20% off today", 5, 2, 0)
  {
    var s := "save 20% off today";
    assert SpaceRunEnd(s, 9) == 9;
    assert SpaceRunEnd(s, 8) == 9;
    assert MatchAt(s, PercentWords[0], 9) by { assert s[9..12] == "off"; }
  }

  /** A percentage of one to three digits followed by "off" makes a
      round-up subject. */
  lemma PercentOffIsRoundup()
    ensures IsRoundupSubject("save 20% off today")
  {
    PercentOffLower();
    PercentOffPhrase();
  }
}
