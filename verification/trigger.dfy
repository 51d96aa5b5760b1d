/**
 * Submarine mode and trigger detection (`TriggerDetector`).
 *
 * One inbound message is classified by a first-match-wins list of rules:
 * activation phrases, `/method:<name>`, `/<number>`, `/auto`, `/rag`,
 * `/done`, `/help`; with no token the message is an answer while a session is
 * active, and is ignored otherwise. The detector state is two fields, and
 * `Activate`/`Deactivate` are its only transitions: `Detect` is a pure
 * function of the state and the message, so it changes neither field.
 */
module Trigger {
  import opened Basics
  import opened Strings

  /* ---------------------------------------------------------------------- */
  /* Trigger tokens                                                          */
  /* ---------------------------------------------------------------------- */

  const ActivationTriggers: seq<string> := [
    "/think",
    "/innovate",
    "/question",
    "/창의적",
    "/혁신",
    "/질문",
    "/문제해결",
    "/씽킹툴",
    "씽킹툴",
    "thinking-tools",
    "thinking tools"
  ]

  const MethodTrigger: string := "/method:"
  const AutoTrigger: string := "/auto"
  const RagTrigger: string := "/rag"
  const DoneTrigger: string := "/done"
  const HelpTrigger: string := "/help"

  /** The problem statement used when an activation message holds nothing but the phrase. */
  const DefaultProblem: string := "도전과제를 설명해주세요."

  /* ---------------------------------------------------------------------- */
  /* State and decisions                                                     */
  /* ---------------------------------------------------------------------- */

  /** `is_active` and the caller's opaque `current_session`. */
  datatype Detector<C> = Detector(isActive: bool, currentSession: Option<C>)

  /** The action field; `Method` and `SelectNumber` carry the `value` field. */
  datatype Action =
    | Activate
    | Method(name: string)
    | SelectNumber(number: nat)
    | Auto
    | Rag
    | Done
    | Help
    | Answer

  /** `action == None` is the dormant answer. */
  datatype Decision = Decision(triggered: bool, action: Option<Action>, message: string)

  function NewDetector<C>(): Detector<C> {
    Detector(false, None)
  }

  function ActivateDetector<C>(d: Detector<C>): Detector<C> {
    d.(isActive := true)
  }

  function DeactivateDetector<C>(d: Detector<C>): Detector<C> {
    Detector(false, None)
  }

  /* ---------------------------------------------------------------------- */
  /* Token recognition                                                       */
  /* ---------------------------------------------------------------------- */

  /** Every activation phrase is non-empty and begins and ends with a non-space. */
  lemma TriggersAreTrimmed()
    ensures forall k :: 0 <= k < |ActivationTriggers| ==>
              var t := ActivationTriggers[k]; t != [] && !IsSpace(t[0]) && !IsSpace(t[|t| - 1])
  {
  }

  /** The text the token rules search: the message lower-cased, then stripped. */
  function Lowered(message: string): string {
    Strip(Lower(message))
  }

  /** Hangul syllables and jamo, which Python's `\w` accepts. */
  predicate IsHangul(c: char) {
    var n := c as int;
    (0xAC00 <= n <= 0xD7A3) || (0x1100 <= n <= 0x11FF) || (0x3131 <= n <= 0x318E)
  }

  /** Python's `\w`: ASCII letters, digits, `_`, and Hangul. */
  predicate IsWordChar(c: char) {
    ('a' <= c <= 'z') || ('A' <= c <= 'Z') || ('0' <= c <= '9') || c == '_' || IsHangul(c)
  }

  /** Python's `\d`, ASCII digits. */
  predicate IsDigit(c: char) {
    '0' <= c <= '9'
  }

  /** `int()` of a run of decimal digits. */
  function DigitsValue(ds: string): nat
    requires forall i :: 0 <= i < |ds| ==> IsDigit(ds[i])
  {
    if ds == [] then 0
    else
      assert IsDigit(ds[|ds| - 1]);
      DigitsValue(ds[..|ds| - 1]) * 10 + (ds[|ds| - 1] as int - '0' as int)
  }

  /** Some activation phrase occurs in the lowered text. */
  ghost predicate ActivationHit(lowered: string) {
    exists k :: 0 <= k < |ActivationTriggers| && Occurs(lowered, ActivationTriggers[k])
  }

  /** The index of the first activation phrase, in list order, that occurs in the lowered text. */
  function FirstActivation(lowered: string): (r: Option<nat>)
    ensures r.Some? ==> r.value < |ActivationTriggers| && Occurs(lowered, ActivationTriggers[r.value])
    ensures r.Some? ==> forall k :: 0 <= k < r.value ==> !Occurs(lowered, ActivationTriggers[k])
    ensures r.None? <==> !ActivationHit(lowered)
  {
    var p: nat -> bool := (k: nat) => k < |ActivationTriggers| && Contains(lowered, ActivationTriggers[k]);
    var r := FirstFrom(|ActivationTriggers|, 0, p);
    assert forall k: nat :: p(k) <==> k < |ActivationTriggers| && Occurs(lowered, ActivationTriggers[k]);
    r
  }

  /** `/method:` at `i` followed by at least one word character (`re.search(r'/method:(\w+)')`). */
  predicate MethodMatchAt(s: string, i: nat) {
    OccursAt(s, MethodTrigger, i) && i + |MethodTrigger| < |s| && IsWordChar(s[i + |MethodTrigger|])
  }

  ghost predicate MethodHit(lowered: string) {
    exists i: nat :: MethodMatchAt(lowered, i)
  }

  /** Where `re.search(r'/method:(\w+)')` matches first. */
  function MethodMatch(s: string): (r: Option<nat>)
    ensures r.Some? ==> MethodMatchAt(s, r.value)
    ensures r.Some? ==> forall j: nat :: j < r.value ==> !MethodMatchAt(s, j)
    ensures r.None? <==> !MethodHit(s)
  {
    var p: nat -> bool := (i: nat) => MethodMatchAt(s, i);
    var r := FirstFrom(|s|, 0, p);
    assert forall i: nat :: p(i) <==> MethodMatchAt(s, i);
    r
  }

  /** The captured group: the longest run of word characters after `/method:`. */
  function MethodName(s: string, i: nat): (r: string)
    requires MethodMatchAt(s, i)
    ensures |r| > 0
    ensures forall k :: 0 <= k < |r| ==> IsWordChar(r[k])
    ensures OccursAt(s, MethodTrigger + r, i)
    ensures i + |MethodTrigger| + |r| == |s| || !IsWordChar(s[i + |MethodTrigger| + |r|])
  {
    var rest := s[i + |MethodTrigger|..];
    var r := PrefixWhile(rest, IsWordChar);
    assert s[i..i + |MethodTrigger + r|] == MethodTrigger + r by {
      assert s[i..i + |MethodTrigger|] == MethodTrigger;
      assert rest[..|r|] == r;
    }
    r
  }

  /** `/` at `i` followed by a digit (`re.search(r'/(\d+)')`). */
  predicate NumberMatchAt(s: string, i: nat) {
    i + 1 < |s| && s[i] == '/' && IsDigit(s[i + 1])
  }

  ghost predicate NumberHit(message: string) {
    exists i: nat :: NumberMatchAt(message, i)
  }

  /** Where `re.search(r'/(\d+)')` matches first. */
  function NumberMatch(s: string): (r: Option<nat>)
    ensures r.Some? ==> NumberMatchAt(s, r.value)
    ensures r.Some? ==> forall j: nat :: j < r.value ==> !NumberMatchAt(s, j)
    ensures r.None? <==> !NumberHit(s)
  {
    var p: nat -> bool := (i: nat) => NumberMatchAt(s, i);
    var r := FirstFrom(|s|, 0, p);
    assert forall i: nat :: p(i) <==> NumberMatchAt(s, i);
    r
  }

  /** `int()` of the captured group: the longest run of digits after the `/`. */
  function NumberAt(s: string, i: nat): nat
    requires NumberMatchAt(s, i)
  {
    DigitsValue(PrefixWhile(s[i + 1..], IsDigit))
  }

  /** No rule before the answer rule fires. */
  ghost predicate NoToken(message: string) {
    var l := Lowered(message);
    && !ActivationHit(l) && !MethodHit(l) && !NumberHit(message)
    && !Occurs(l, AutoTrigger) && !Occurs(l, RagTrigger)
    && !Occurs(l, DoneTrigger) && !Occurs(l, HelpTrigger)
  }

  /**
   * The problem statement of an activation: the original message with every
   * exact-case occurrence of the phrase removed, stripped, or the default
   * prompt when nothing is left.
   */
  function ActivationResidue(message: string, phrase: string): (r: string)
    ensures r != []
    ensures phrase != [] && !Occurs(message, phrase) ==> r == (if AllSpace(message) then DefaultProblem else Strip(message))
  {
    var clean := Strip(ReplaceAll(message, phrase, ""));
    assert phrase != [] && !Occurs(message, phrase) ==> clean == Strip(message) by {
      if phrase != [] {
        ReplaceAllUnchanged(message, phrase, "");
      }
    }
    if clean == [] then DefaultProblem else clean
  }

  /* ---------------------------------------------------------------------- */
  /* Detection                                                               */
  /* ---------------------------------------------------------------------- */

  /** Which rule fires first, and where its match is. */
  datatype Token =
    | ActivationToken(index: nat)
    | MethodToken(at: nat)
    | NumberToken(at: nat)
    | AutoToken
    | RagToken
    | DoneToken
    | HelpToken
    | NoTokenFound

  /** The rules of `detect` before the answer rule, in their fixed priority order. */
  function FirstToken(message: string): (t: Token)
    ensures t.ActivationToken? <==> ActivationHit(Lowered(message))
    ensures t.ActivationToken? ==> Some(t.index) == FirstActivation(Lowered(message))
    ensures t.MethodToken? <==> !ActivationHit(Lowered(message)) && MethodHit(Lowered(message))
    ensures t.MethodToken? ==> Some(t.at) == MethodMatch(Lowered(message))
    ensures t.NumberToken? <==> !ActivationHit(Lowered(message)) && !MethodHit(Lowered(message)) && NumberHit(message)
    ensures t.NumberToken? ==> Some(t.at) == NumberMatch(message)
    ensures t == AutoToken
            <==> !ActivationHit(Lowered(message)) && !MethodHit(Lowered(message)) && !NumberHit(message)
                 && Occurs(Lowered(message), AutoTrigger)
    ensures t == RagToken
            <==> !ActivationHit(Lowered(message)) && !MethodHit(Lowered(message)) && !NumberHit(message)
                 && !Occurs(Lowered(message), AutoTrigger) && Occurs(Lowered(message), RagTrigger)
    ensures t == DoneToken
            <==> !ActivationHit(Lowered(message)) && !MethodHit(Lowered(message)) && !NumberHit(message)
                 && !Occurs(Lowered(message), AutoTrigger) && !Occurs(Lowered(message), RagTrigger)
                 && Occurs(Lowered(message), DoneTrigger)
    ensures t == HelpToken
            <==> !ActivationHit(Lowered(message)) && !MethodHit(Lowered(message)) && !NumberHit(message)
                 && !Occurs(Lowered(message), AutoTrigger) && !Occurs(Lowered(message), RagTrigger)
                 && !Occurs(Lowered(message), DoneTrigger) && Occurs(Lowered(message), HelpTrigger)
    ensures t == NoTokenFound <==> NoToken(message)
  {
    var lowered := Lowered(message);
    match FirstActivation(lowered)
    case Some(k) => ActivationToken(k)
    case None =>
      var hit := MethodMatch(lowered);
      if Contains(lowered, MethodTrigger) && hit.Some? then
        MethodToken(hit.value)
      else
        match NumberMatch(message)
        case Some(i) => NumberToken(i)
        case None =>
          if Contains(lowered, AutoTrigger) then AutoToken
          else if Contains(lowered, RagTrigger) then RagToken
          else if Contains(lowered, DoneTrigger) then DoneToken
          else if Contains(lowered, HelpTrigger) then HelpToken
          else NoTokenFound
  }

  /**
   * `TriggerDetector.detect`: the first rule that fires decides the action;
   * with no token the message is an answer iff a session is active.
   */
  function Detect<C>(d: Detector<C>, message: string): (r: Decision)
    // triggered is false exactly on the dormant path
    ensures r.triggered <==> r.action.Some?
    // 1. any activation phrase wins over every other token
    ensures r.action == Some(Activate) <==> ActivationHit(Lowered(message))
    // 2. /method:<word>
    ensures (r.action.Some? && r.action.value.Method?)
            <==> !ActivationHit(Lowered(message)) && MethodHit(Lowered(message))
    // 3. /<digits>, searched in the original message
    ensures (r.action.Some? && r.action.value.SelectNumber?)
            <==> !ActivationHit(Lowered(message)) && !MethodHit(Lowered(message)) && NumberHit(message)
    // 4.-7. auto, rag, done, help, in that order
    ensures r.action == Some(Auto) <==> FirstToken(message) == AutoToken
    ensures r.action == Some(Rag) <==> FirstToken(message) == RagToken
    ensures r.action == Some(Done) <==> FirstToken(message) == DoneToken
    ensures r.action == Some(Help) <==> FirstToken(message) == HelpToken
    // 8.-9. no token: an answer iff a session is active, otherwise silence
    ensures r.action == Some(Answer) <==> NoToken(message) && d.isActive
    ensures r.action.None? <==> NoToken(message) && !d.isActive
    // payloads
    ensures r.action == Some(Activate) ==>
              var k := FirstActivation(Lowered(message)).value;
              r.message == ActivationResidue(message, ActivationTriggers[k])
    ensures r.action.Some? && r.action.value.Method? ==>
              var i := MethodMatch(Lowered(message)).value;
              r.action.value.name == MethodName(Lowered(message), i)
    ensures r.action.Some? && r.action.value.SelectNumber? ==>
              var i := NumberMatch(message).value;
              r.action.value.number == NumberAt(message, i)
    // only activation and rag rewrite the message
    ensures r.action == Some(Rag) ==> r.message == Strip(ReplaceAll(message, RagTrigger, ""))
    ensures r.action != Some(Activate) && r.action != Some(Rag) ==> r.message == message
  {
    var lowered := Lowered(message);
    match FirstToken(message)
    case ActivationToken(k) =>
      Decision(true, Some(Activate), ActivationResidue(message, ActivationTriggers[k]))
    case MethodToken(i) =>
      Decision(true, Some(Method(MethodName(lowered, i))), message)
    case NumberToken(i) =>
      Decision(true, Some(SelectNumber(NumberAt(message, i))), message)
    case AutoToken =>
      Decision(true, Some(Auto), message)
    case RagToken =>
      Decision(true, Some(Rag), Strip(ReplaceAll(message, RagTrigger, "")))
    case DoneToken =>
      Decision(true, Some(Done), message)
    case HelpToken =>
      Decision(true, Some(Help), message)
    case NoTokenFound =>
      if d.isActive then Decision(true, Some(Answer), message) else Decision(false, None, message)
  }

  /* ---------------------------------------------------------------------- */
  /* Properties                                                              */
  /* ---------------------------------------------------------------------- */

  /**
   * `activate` only raises the flag and `deactivate` resets both fields; after
   * them a message with no token is an answer, or is met with silence.
   */
  lemma DetectorTransitions<C>(d: Detector<C>, message: string)
    ensures ActivateDetector(d).isActive && ActivateDetector(d).currentSession == d.currentSession
    ensures DeactivateDetector(d) == NewDetector()
    ensures NoToken(message) ==> Detect(ActivateDetector(d), message).action == Some(Answer)
    ensures NoToken(message) ==> !Detect(DeactivateDetector(d), message).triggered
  {
  }

  /**
   * An activation phrase anywhere in the lower-cased message activates, in
   * whatever state and whatever other tokens the message holds: stripping the
   * message first cannot hide a phrase.
   */
  lemma {:induction false} ActivationAnywhere<C>(d: Detector<C>, message: string, k: nat)
    requires k < |ActivationTriggers| && Occurs(Lower(message), ActivationTriggers[k])
    ensures Detect(d, message).action == Some(Activate)
    ensures Detect(d, message).triggered && Detect(d, message).message != []
  {
    TriggersAreTrimmed();
    StripKeepsOccurrence(Lower(message), ActivationTriggers[k]);
  }
}
