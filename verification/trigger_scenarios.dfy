/**
 * Concrete messages run through the detector: the overlapping-token case
 * the detector is designed around, the four messages of the repository's
 * smoke script on a detector that was never activated, and plain text
 * during a session.
 */
module TriggerScenarios {
  import opened Basics
  import opened Strings
  import opened Trigger

  /** A message with no upper-case letter and no surrounding space is its own lowered form. */
  lemma LoweredIdentity(m: string)
    requires forall i :: 0 <= i < |m| ==> !IsUpper(m[i])
    requires m != [] && !IsSpace(m[0]) && !IsSpace(m[|m| - 1])
    ensures Lowered(m) == m
  {
    assert Lower(m) == m;
    StripTrimmed(m);
  }

  /** The exact-case replacement of the example message. */
  lemma OutrankedReplacement(m: string)
    requires m == "팀 문제 /think /1"
    ensures ReplaceAll(m, "/think", "") == "팀 문제  /1"
  {
    var a, b := "팀 문제 ", " /1";
    assert m == a + "/think" + b;
    ReplaceAllFirstMatch(a, "/think", b, "");
    ReplaceAllUnchanged(b, "/think", "");
  }

  /** A message whose lowered form holds the first activation phrase yields that phrase as its token. */
  lemma ActivationTokenOf(message: string, lowered: string, at: nat)
    requires Lowered(message) == lowered && OccursAt(lowered, ActivationTriggers[0], at)
    ensures FirstToken(message) == ActivationToken(0)
  {
    assert FirstActivation(lowered) == Some(0);
  }

  /** The example message's first token is the first activation phrase. */
  lemma OutrankingToken(m: string)
    requires m == "팀 문제 /think /1"
    ensures FirstToken(m) == ActivationToken(0)
  {
    OutrankingLowered(m);
    OutrankingOpens(m);
    ActivationTokenOf(m, m, 5);
  }

  /** The example message is its own lowered form. */
  lemma OutrankingLowered(m: string)
    requires m == "팀 문제 /think /1"
    ensures Lowered(m) == m
  {
    LoweredIdentity(m);
  }

  /** The first activation phrase sits at position 5 of the example message. */
  lemma OutrankingOpens(m: string)
    requires m == "팀 문제 /think /1"
    ensures OccursAt(m, ActivationTriggers[0], 5)
  {
    assert m[5..11] == ActivationTriggers[0];
  }

  /** What is left of the example message once the phrase is cut out. */
  lemma OutrankingResidue(m: string)
    requires m == "팀 문제 /think /1"
    ensures ActivationResidue(m, ActivationTriggers[0]) == "팀 문제  /1"
  {
    assert ActivationTriggers[0] == "/think";
    OutrankedReplacement(m);
    StripTrimmed("팀 문제  /1");
  }

  /**
   * An activation phrase outranks a numeric selector in the same message:
   * the phrase is cut out and the rest, `/1` included, is the problem.
   */
  lemma ActivationOutranksSelector<C>(d: Detector<C>)
    ensures Detect(d, "팀 문제 /think /1") == Decision(true, Some(Activate), "팀 문제  /1")
  {
    OutrankingToken("팀 문제 /think /1");
    OutrankingResidue("팀 문제 /think /1");
  }

  /** The lowered form of the upper-case example. */
  lemma UpperCaseLowered()
    ensures Lowered("/THINK 팀 문제") == "/think 팀 문제"
  {
    var l := "/think 팀 문제";
    assert Lower("/THINK 팀 문제") == l;
    LoweredIdentity(l);
  }

  /** The first token of the upper-case example is the first activation phrase. */
  lemma UpperCaseToken(m: string)
    requires m == "/THINK 팀 문제"
    ensures FirstToken(m) == ActivationToken(0)
  {
    UpperCaseLowered();
    LowerCaseOpens();
    ActivationTokenOf(m, "/think 팀 문제", 0);
  }

  /** The lowered upper-case example opens with the first activation phrase. */
  lemma LowerCaseOpens()
    ensures OccursAt("/think 팀 문제", ActivationTriggers[0], 0)
  {
    assert "/think 팀 문제"[..6] == ActivationTriggers[0];
  }

  /** The exact-case cut finds nothing to remove in the upper-case example. */
  lemma UpperCaseResidue()
    ensures ActivationResidue("/THINK 팀 문제", ActivationTriggers[0]) == "/THINK 팀 문제"
  {
    var m := "/THINK 팀 문제";
    AbsentChar(m, "/think", 1);
    StripTrimmed(m);
  }

  /**
   * The activation check is case-blind but the cut is exact-case: an
   * upper-case phrase activates, and the message stays as it was.
   */
  lemma UpperCasePhraseIsKept<C>(d: Detector<C>)
    ensures Detect(d, "/THINK 팀 문제") == Decision(true, Some(Activate), "/THINK 팀 문제")
  {
    UpperCaseToken("/THINK 팀 문제");
    UpperCaseResidue();
  }

  /** No activation phrase or command fits in a message of two characters. */
  lemma ShortMessageTokens(m: string)
    requires |m| <= 2
    ensures !ActivationHit(m) && !MethodHit(m)
  {
    forall k | 0 <= k < |ActivationTriggers| ensures !Occurs(m, ActivationTriggers[k]) {
      TooLong(m, ActivationTriggers[k]);
    }
  }

  /** `/1` selects the first of the offered methods. */
  lemma NumberSelectsMethod<C>(d: Detector<C>)
    ensures Detect(d, "/1") == Decision(true, Some(SelectNumber(1)), "/1")
  {
    var m := "/1";
    LoweredIdentity(m);
    ShortMessageTokens(m);
    assert NumberMatchAt(m, 0);
    assert NumberMatch(m) == Some(0);
    assert PrefixWhile(m[1..], IsDigit) == "1";
  }

  /** Every activation phrase begins with `/`, `씽` or `t`. */
  lemma TriggerHeads()
    ensures forall k :: 0 <= k < |ActivationTriggers| ==>
              ActivationTriggers[k] != [] && ActivationTriggers[k][0] in {'/', '씽', 't'}
  {
  }

  /** None of `/`, `씽` and `t` occurs in the text. */
  predicate Plain(m: string) {
    forall i :: 0 <= i < |m| ==> m[i] != '/' && m[i] != '씽' && m[i] != 't'
  }

  /** A plain text holds no activation phrase. */
  lemma PlainHasNoPhrase(m: string)
    requires Plain(m)
    ensures !ActivationHit(m)
  {
    TriggerHeads();
    forall k | 0 <= k < |ActivationTriggers| ensures !Occurs(m, ActivationTriggers[k]) {
      AbsentChar(m, ActivationTriggers[k], 0);
    }
  }

  /** A plain text holds no command. */
  lemma PlainHasNoCommand(m: string)
    requires Plain(m)
    ensures !MethodHit(m) && !NumberHit(m)
    ensures !Occurs(m, AutoTrigger) && !Occurs(m, RagTrigger)
    ensures !Occurs(m, DoneTrigger) && !Occurs(m, HelpTrigger)
  {
    AbsentChar(m, MethodTrigger, 0);
    forall i: nat ensures !MethodMatchAt(m, i) {
      assert !OccursAt(m, MethodTrigger, i);
    }
    AbsentChar(m, AutoTrigger, 0);
    AbsentChar(m, RagTrigger, 0);
    AbsentChar(m, DoneTrigger, 0);
    AbsentChar(m, HelpTrigger, 0);
  }

  /**
   * A plain text that is its own lowered form holds none of the tokens, so
   * the rules fall through to the answer-or-silence branch.
   */
  lemma PlainTextHasNoToken(m: string)
    requires Lowered(m) == m && Plain(m)
    ensures NoToken(m)
  {
    PlainHasNoPhrase(m);
    PlainHasNoCommand(m);
  }

  /** A plain message, already in lowered form, is ignored while dormant. */
  lemma PlainIgnored<C>(d: Detector<C>, m: string)
    requires !d.isActive && m != [] && !IsSpace(m[0]) && !IsSpace(m[|m| - 1])
    requires forall i :: 0 <= i < |m| ==> !IsUpper(m[i])
    requires Plain(m)
    ensures Detect(d, m) == Decision(false, None, m)
  {
    LoweredIdentity(m);
    PlainTextHasNoToken(m);
  }

  /** A plain message, already in lowered form, is an answer during a session. */
  lemma PlainAnswer<C>(d: Detector<C>, m: string)
    requires d.isActive && m != [] && !IsSpace(m[0]) && !IsSpace(m[|m| - 1])
    requires forall i :: 0 <= i < |m| ==> !IsUpper(m[i])
    requires Plain(m)
    ensures Detect(d, m) == Decision(true, Some(Answer), m)
  {
    LoweredIdentity(m);
    PlainTextHasNoToken(m);
  }

  /** A greeting while dormant is ignored. */
  lemma DormantGreetingIgnored<C>(d: Detector<C>)
    requires !d.isActive
    ensures Detect(d, "안녕하세요") == Decision(false, None, "안녕하세요")
  {
    PlainIgnored(d, "안녕하세요");
  }

  /** The smoke script's activating message is its own lowered form. */
  lemma TrailingLowered(m: string)
    requires m == "팀 생산성이 낮아요 /think"
    ensures Lowered(m) == m
  {
    LoweredIdentity(m);
  }

  /** The first activation phrase closes the smoke script's activating message, at position 11. */
  lemma TrailingOpens(m: string)
    requires m == "팀 생산성이 낮아요 /think"
    ensures OccursAt(m, ActivationTriggers[0], 11)
  {
    assert m[11..17] == ActivationTriggers[0];
  }

  /** Cutting the phrase out of the smoke script's activating message leaves the problem and a space. */
  lemma TrailingReplacement(m: string)
    requires m == "팀 생산성이 낮아요 /think"
    ensures ReplaceAll(m, "/think", "") == "팀 생산성이 낮아요 "
  {
    var a := "팀 생산성이 낮아요 ";
    assert m == a + "/think" + "";
    ReplaceAllFirstMatch(a, "/think", "", "");
    ReplaceAllUnchanged("", "/think", "");
  }

  /** What is left of the smoke script's activating message once the phrase is cut out. */
  lemma TrailingResidue(m: string)
    requires m == "팀 생산성이 낮아요 /think"
    ensures ActivationResidue(m, ActivationTriggers[0]) == "팀 생산성이 낮아요"
  {
    assert ActivationTriggers[0] == "/think";
    TrailingReplacement(m);
    assert "팀 생산성이 낮아요 " == "팀 생산성이 낮아요" + " ";
    StripTrailingSpace("팀 생산성이 낮아요");
  }

  /**
   * A phrase at the end of a message activates, and the problem is the
   * message without it and without the space before it.
   */
  lemma TrailingPhraseActivates<C>(d: Detector<C>)
    ensures Detect(d, "팀 생산성이 낮아요 /think") == Decision(true, Some(Activate), "팀 생산성이 낮아요")
  {
    var m := "팀 생산성이 낮아요 /think";
    TrailingLowered(m);
    TrailingOpens(m);
    ActivationTokenOf(m, m, 11);
    TrailingResidue(m);
  }

  /** Without a session, the smoke script's last message is ignored like the greeting. */
  lemma DormantTextIgnored<C>(d: Detector<C>)
    requires !d.isActive
    ensures Detect(d, "회의가 너무 많아요") == Decision(false, None, "회의가 너무 많아요")
  {
    PlainIgnored(d, "회의가 너무 많아요");
  }

  /** The same kind of text during a session is an answer to the current question. */
  lemma ActiveTextIsAnswer<C>(d: Detector<C>)
    requires d.isActive
    ensures Detect(d, "회의가 너무 많아요") == Decision(true, Some(Answer), "회의가 너무 많아요")
  {
    PlainAnswer(d, "회의가 너무 많아요");
  }
}
