/**
 * Session management (`SessionState`, `SessionManager`).
 *
 * A manager holds at most one current session and a store of saved
 * records keyed by session id. A session is created with no answers, grows
 * by one answer and one step per `AddAnswer`, is marked complete once the
 * step count reaches the total, and is ended with a summary. Every change
 * writes the whole record, as its dictionary form, under the session id.
 * Clock readings and session ids are parameters of the operations.
 */
module Session {
  import opened Basics
  import opened Strings

  /* ---------------------------------------------------------------------- */
  /* Session state and its dictionary form                                   */
  /* ---------------------------------------------------------------------- */

  datatype SessionState = SessionState(
    sessionId: string,
    userId: string,
    problem: string,
    category: string,
    methodId: string,
    methodName: string,
    currentStep: int,
    totalSteps: int,
    answers: seq<string>,
    createdAt: string,
    updatedAt: string,
    isCompleted: bool
  )

  /** One value of a stored record, as JSON holds it. */
  datatype Field = Str(s: string) | Int(i: int) | Bool(b: bool) | List(items: seq<string>)

  /** A saved session: field name to value. */
  type Record = map<string, Field>

  /** The fields a record must carry; `is_completed` may be left out and then defaults to false. */
  const RequiredFields: set<string> := {
    "session_id", "user_id", "problem", "category", "method_id", "method_name",
    "current_step", "total_steps", "answers", "created_at", "updated_at"
  }

  const AllFields: set<string> := RequiredFields + {"is_completed"}

  /** `to_dict`. */
  function ToDict(s: SessionState): (d: Record)
    ensures d.Keys == AllFields
  {
    map[
      "session_id" := Str(s.sessionId),
      "user_id" := Str(s.userId),
      "problem" := Str(s.problem),
      "category" := Str(s.category),
      "method_id" := Str(s.methodId),
      "method_name" := Str(s.methodName),
      "current_step" := Int(s.currentStep),
      "total_steps" := Int(s.totalSteps),
      "answers" := List(s.answers),
      "created_at" := Str(s.createdAt),
      "updated_at" := Str(s.updatedAt),
      "is_completed" := Bool(s.isCompleted)
    ]
  }

  function GetStr(d: Record, k: string): Option<string> {
    if k in d && d[k].Str? then Some(d[k].s) else None
  }

  function GetInt(d: Record, k: string): Option<int> {
    if k in d && d[k].Int? then Some(d[k].i) else None
  }

  function GetList(d: Record, k: string): Option<seq<string>> {
    if k in d && d[k].List? then Some(d[k].items) else None
  }

  /** `from_dict`: fails on an unknown or missing field, or a value of the wrong kind. */
  function FromDict(d: Record): (r: Option<SessionState>)
    ensures r.Some? ==> RequiredFields <= d.Keys <= AllFields
  {
    if !(RequiredFields <= d.Keys && d.Keys <= AllFields) then None
    else if "is_completed" in d && !d["is_completed"].Bool? then None
    else
      var sessionId :- GetStr(d, "session_id");
      var userId :- GetStr(d, "user_id");
      var problem :- GetStr(d, "problem");
      var category :- GetStr(d, "category");
      var methodId :- GetStr(d, "method_id");
      var methodName :- GetStr(d, "method_name");
      var currentStep :- GetInt(d, "current_step");
      var totalSteps :- GetInt(d, "total_steps");
      var answers :- GetList(d, "answers");
      var createdAt :- GetStr(d, "created_at");
      var updatedAt :- GetStr(d, "updated_at");
      var isCompleted := if "is_completed" in d then d["is_completed"].b else false;
      Some(SessionState(sessionId, userId, problem, category, methodId, methodName,
                        currentStep, totalSteps, answers, createdAt, updatedAt, isCompleted))
  }

  /** A session survives the trip through its dictionary form. */
  lemma FromToDict(s: SessionState)
    ensures FromDict(ToDict(s)) == Some(s)
  {
    var d := ToDict(s);
    assert RequiredFields <= d.Keys;
  }

  /** A record that reads back as a session is that session's dictionary form, with `is_completed` filled in if it was left out. */
  lemma ToFromDict(d: Record, s: SessionState)
    requires FromDict(d) == Some(s)
    ensures ToDict(s) == if "is_completed" in d then d else d["is_completed" := Bool(false)]
  {
    var e := if "is_completed" in d then d else d["is_completed" := Bool(false)];
    FromDictFields(d, s);
    assert e.Keys == AllFields;
    DictOfFields(e, s);
  }

  /** A record with exactly the session's fields, each holding the session's value, is its dictionary form. */
  lemma DictOfFields(e: Record, s: SessionState)
    requires e.Keys == AllFields
    requires e["session_id"] == Str(s.sessionId) && e["user_id"] == Str(s.userId) && e["problem"] == Str(s.problem)
    requires e["category"] == Str(s.category) && e["method_id"] == Str(s.methodId) && e["method_name"] == Str(s.methodName)
    requires e["current_step"] == Int(s.currentStep) && e["total_steps"] == Int(s.totalSteps)
    requires e["answers"] == List(s.answers) && e["created_at"] == Str(s.createdAt) && e["updated_at"] == Str(s.updatedAt)
    requires e["is_completed"] == Bool(s.isCompleted)
    ensures ToDict(s) == e
  {
    forall k | k in AllFields ensures ToDict(s)[k] == e[k] {
      assert k in RequiredFields || k == "is_completed";
    }
  }

  /** Each field a record reads back from holds the session's value for it. */
  lemma FromDictFields(d: Record, s: SessionState)
    requires FromDict(d) == Some(s)
    ensures RequiredFields <= d.Keys
    ensures d["session_id"] == Str(s.sessionId) && d["user_id"] == Str(s.userId) && d["problem"] == Str(s.problem)
    ensures d["category"] == Str(s.category) && d["method_id"] == Str(s.methodId) && d["method_name"] == Str(s.methodName)
    ensures d["current_step"] == Int(s.currentStep) && d["total_steps"] == Int(s.totalSteps)
    ensures d["answers"] == List(s.answers) && d["created_at"] == Str(s.createdAt) && d["updated_at"] == Str(s.updatedAt)
    ensures "is_completed" in d ==> d["is_completed"] == Bool(s.isCompleted)
    ensures "is_completed" !in d ==> !s.isCompleted
  {
  }

  /* ---------------------------------------------------------------------- */
  /* The manager                                                             */
  /* ---------------------------------------------------------------------- */

  /** The current session, if any, and the saved records by session id. */
  datatype Manager = Manager(current: Option<SessionState>, store: map<string, Record>)

  /** Answers and steps move together. */
  predicate Consistent(s: SessionState) {
    |s.answers| == s.currentStep
  }

  /** `_save_session`: the whole record is written under the session id. */
  function Save(m: Manager, s: SessionState): (r: Manager)
  {
    m.(store := m.store[s.sessionId := ToDict(s)])
  }

  /** `create_session`, with the generated id and the clock reading given. */
  function CreateSession(m: Manager, sessionId: string, userId: string, problem: string, category: string,
                         methodId: string, methodName: string, totalSteps: int, now: string): (r: (Manager, SessionState))
    ensures var (m', s) := r;
            && s.sessionId == sessionId && s.userId == userId && s.problem == problem
            && s.category == category && s.methodId == methodId && s.methodName == methodName
            && s.totalSteps == totalSteps
            && s.currentStep == 0 && s.answers == [] && !s.isCompleted
            && s.createdAt == now && s.updatedAt == now
            && Consistent(s)
            && m'.current == Some(s)
            && m'.store == m.store[sessionId := ToDict(s)]
  {
    var s := SessionState(sessionId, userId, problem, category, methodId, methodName, 0, totalSteps, [], now, now, false);
    (Save(m.(current := Some(s)), s), s)
  }

  /** The state after one more answer: appended, one step on, complete once the steps reach the total. */
  function Answered(s: SessionState, answer: string, now: string): (s': SessionState)
    ensures s'.answers == s.answers + [answer]
    ensures s'.currentStep == s.currentStep + 1
    ensures Consistent(s) ==> Consistent(s')
    // complete once the steps reach the total, and never reset
    ensures s'.isCompleted == (s.isCompleted || s'.currentStep >= s.totalSteps)
    // nothing else changes
    ensures s'.sessionId == s.sessionId && s'.userId == s.userId && s'.problem == s.problem
    ensures s'.category == s.category && s'.methodId == s.methodId && s'.methodName == s.methodName
    ensures s'.totalSteps == s.totalSteps && s'.createdAt == s.createdAt && s'.updatedAt == now
  {
    var step := s.currentStep + 1;
    s.(answers := s.answers + [answer], currentStep := step, updatedAt := now,
       isCompleted := if step >= s.totalSteps then true else s.isCompleted)
  }

  /** `add_answer`, with the clock reading given. */
  function AddAnswer(m: Manager, answer: string, now: string): (r: (Manager, bool))
    // without a current session nothing happens
    ensures m.current.None? ==> r == (m, false)
    // otherwise the answered session is current and saved
    ensures m.current.Some? ==>
              var s' := Answered(m.current.value, answer, now);
              r == (Manager(Some(s'), m.store[s'.sessionId := ToDict(s')]), true)
  {
    match m.current
    case None => (m, false)
    case Some(s) =>
      var s' := Answered(s, answer, now);
      (Save(m.(current := Some(s')), s'), true)
  }

  /**
   * Completion does not close a session: a completed session still takes an
   * answer, which is appended and advances the step past the total.
   */
  lemma CompletedStillAnswers(m: Manager, answer: string, now: string)
    requires m.current.Some? && m.current.value.isCompleted
    ensures var (m', accepted) := AddAnswer(m, answer, now);
            && accepted && m'.current.Some?
            && m'.current.value.answers == m.current.value.answers + [answer]
            && m'.current.value.currentStep == m.current.value.currentStep + 1
            && m'.current.value.isCompleted
  {
  }

  /** `load_session`: a saved record that reads back becomes the current session. */
  function LoadSession(m: Manager, sessionId: string): (r: (Manager, Option<SessionState>))
    ensures sessionId !in m.store ==> r == (m, None)
    ensures r.1.None? ==> r.0 == m
    ensures r.1.Some? ==> sessionId in m.store && Some(r.1.value) == FromDict(m.store[sessionId])
                          && r.0 == m.(current := r.1)
  {
    if sessionId !in m.store then (m, None)
    else
      match FromDict(m.store[sessionId])
      case None => (m, None)
      case Some(s) => (m.(current := Some(s)), Some(s))
  }

  /** Loading what was saved gives back the same session and makes it current. */
  lemma LoadAfterSave(m: Manager, s: SessionState)
    ensures LoadSession(Save(m, s), s.sessionId) == (Save(m, s).(current := Some(s)), Some(s))
  {
    FromToDict(s);
  }

  /** A created session can be loaded back by its id. */
  lemma LoadAfterCreate(m: Manager, sessionId: string, userId: string, problem: string, category: string,
                        methodId: string, methodName: string, totalSteps: int, now: string)
    ensures var (m', s) := CreateSession(m, sessionId, userId, problem, category, methodId, methodName, totalSteps, now);
            LoadSession(m', sessionId) == (m', Some(s))
  {
    var (m', s) := CreateSession(m, sessionId, userId, problem, category, methodId, methodName, totalSteps, now);
    FromToDict(s);
  }

  /* ---------------------------------------------------------------------- */
  /* Summary and insights                                                    */
  /* ---------------------------------------------------------------------- */

  const ScamperLetters: seq<string> := ["S", "C", "A", "M", "P", "E", "R"]
  const SixHatsPerspectives: seq<string> := ["사실", "감정", "위험", "기회", "창의", "프로세스"]
  const RootCausePrefix := "근본 원인: "
  const ScamperPrefix := "활용한 SCAMPER 기법: "
  const SixHatsPrefix := "탐색한 관점: "
  const CountSuffix := "개의 질문에 답변하셨습니다."

  /** The positions, in order, of the answers that are not blank after stripping. */
  function NonBlankPositions(answers: seq<string>, from: nat): (ps: seq<nat>)
    requires from <= |answers|
    ensures forall k :: 0 <= k < |ps| ==> from <= ps[k] < |answers| && !AllSpace(answers[ps[k]])
    ensures forall k, l :: 0 <= k < l < |ps| ==> ps[k] < ps[l]
    ensures forall i :: from <= i < |answers| && !AllSpace(answers[i]) ==> i in ps
    decreases |answers| - from
  {
    if from == |answers| then []
    else
      var rest := NonBlankPositions(answers, from + 1);
      if Strip(answers[from]) != [] then
        assert !AllSpace(answers[from]);
        ConsPositions(answers, from, rest);
        [from] + rest
      else
        assert AllSpace(answers[from]);
        rest
  }

  /** Positions past `from`, with a non-blank answer at `from` put in front, are the positions from `from`. */
  lemma ConsPositions(answers: seq<string>, from: nat, rest: seq<nat>)
    requires from < |answers| && !AllSpace(answers[from])
    requires forall k :: 0 <= k < |rest| ==> from + 1 <= rest[k] < |answers| && !AllSpace(answers[rest[k]])
    requires forall k, l :: 0 <= k < l < |rest| ==> rest[k] < rest[l]
    requires forall i :: from + 1 <= i < |answers| && !AllSpace(answers[i]) ==> i in rest
    ensures var ps := [from] + rest;
            && (forall k :: 0 <= k < |ps| ==> from <= ps[k] < |answers| && !AllSpace(answers[ps[k]]))
            && (forall k, l :: 0 <= k < l < |ps| ==> ps[k] < ps[l])
            && (forall i :: from <= i < |answers| && !AllSpace(answers[i]) ==> i in ps)
  {
    var ps := [from] + rest;
    assert forall k :: 0 < k < |ps| ==> ps[k] == rest[k - 1];
    assert forall i :: i in rest ==> i in ps;
  }

  /** The names at the given positions, or nothing when a position is past the end of the names. */
  function NamesAt(names: seq<string>, ps: seq<nat>): (r: Option<seq<string>>)
    ensures r.Some? <==> forall k :: 0 <= k < |ps| ==> ps[k] < |names|
    ensures r.Some? ==> |r.value| == |ps| && forall k :: 0 <= k < |ps| ==> r.value[k] == names[ps[k]]
  {
    if ps == [] then Some([])
    else if ps[0] >= |names| then None
    else
      match NamesAt(names, ps[1..])
      case None => None
      case Some(rest) => Some([names[ps[0]]] + rest)
  }

  /** The names of the non-blank answers after `prefix`, comma-separated; nothing when a name is missing. */
  function ListedInsight(prefix: string, names: seq<string>, answers: seq<string>): Option<string>
  {
    var listed :- NamesAt(names, NonBlankPositions(answers, 0));
    Some(prefix + Join(", ", listed))
  }

  /** `_extract_insights`; `None` where the original indexes past the end of its name list. */
  function ExtractInsights(s: SessionState): (r: Option<string>)
  {
    if s.methodId == "five_whys" && |s.answers| >= 5 then
      Some(RootCausePrefix + s.answers[|s.answers| - 1])
    else if s.methodId == "scamper" then
      ListedInsight(ScamperPrefix, ScamperLetters, s.answers)
    else if s.methodId == "six_hats" then
      ListedInsight(SixHatsPrefix, SixHatsPerspectives, s.answers)
    else
      Some(IntToString(|s.answers|) + CountSuffix)
  }

  /** A missing name comes from a non-blank answer past the end of the names. */
  lemma MissingNameIsPast(names: seq<string>, answers: seq<string>)
    requires NamesAt(names, NonBlankPositions(answers, 0)).None?
    ensures exists i :: |names| <= i < |answers| && !AllSpace(answers[i])
  {
    var ps := NonBlankPositions(answers, 0);
    var k :| 0 <= k < |ps| && ps[k] >= |names|;
    assert !AllSpace(answers[ps[k]]);
  }

  /** A non-blank answer past the end of the names leaves a name missing. */
  lemma PastNameIsMissing(names: seq<string>, answers: seq<string>, i: nat)
    requires |names| <= i < |answers| && !AllSpace(answers[i])
    ensures NamesAt(names, NonBlankPositions(answers, 0)).None?
  {
    var ps := NonBlankPositions(answers, 0);
    assert i in ps;
    var k :| 0 <= k < |ps| && ps[k] == i;
    NamesAtPast(names, ps, k);
  }

  /** A position past the end of the names leaves a name missing. */
  lemma NamesAtPast(names: seq<string>, ps: seq<nat>, k: nat)
    requires k < |ps| && ps[k] >= |names|
    ensures NamesAt(names, ps).None?
  {
  }

  /** One non-blank SCAMPER answer is enough to fail when it sits at position 7. */
  lemma LateScamperAnswerFails(s: SessionState)
    requires s.methodId == "scamper" && s.answers == ["", "", "", "", "", "", "", "x"]
    ensures ExtractInsights(s).None?
  {
    assert !IsSpace(s.answers[7][0]);
    PastNameIsMissing(ScamperLetters, s.answers, 7);
  }

  /**
   * Naming the non-blank answers fails exactly when one of them sits past
   * the end of the names.
   */
  lemma NamesOfNonBlank(names: seq<string>, answers: seq<string>)
    ensures NamesAt(names, NonBlankPositions(answers, 0)).None? <==>
              exists i :: |names| <= i < |answers| && !AllSpace(answers[i])
  {
    if NamesAt(names, NonBlankPositions(answers, 0)).None? {
      MissingNameIsPast(names, answers);
    }
    if exists i :: |names| <= i < |answers| && !AllSpace(answers[i]) {
      var i :| |names| <= i < |answers| && !AllSpace(answers[i]);
      PastNameIsMissing(names, answers, i);
    }
  }

  /** Five whys with five or more answers names the last answer as the root cause. */
  lemma RootCauseInsight(s: SessionState, last: string)
    requires s.methodId == "five_whys" && |s.answers| >= 5 && s.answers[|s.answers| - 1] == last
    ensures ExtractInsights(s) == Some(RootCausePrefix + last)
  {
  }

  /**
   * SCAMPER lists the letters of the non-blank answers, in answer order,
   * and fails exactly when a non-blank answer sits past the seventh.
   */
  lemma ScamperInsight(s: SessionState)
    requires s.methodId == "scamper"
    ensures ExtractInsights(s).None? <==> exists i :: 7 <= i < |s.answers| && !AllSpace(s.answers[i])
    ensures ExtractInsights(s).Some? ==>
              ExtractInsights(s).value ==
                ScamperPrefix + Join(", ", NamesAt(ScamperLetters, NonBlankPositions(s.answers, 0)).value)
  {
    assert s.methodId != "five_whys";
    NamesOfNonBlank(ScamperLetters, s.answers);
  }

  /**
   * Six Hats lists the perspectives of the non-blank answers, in answer
   * order, and fails exactly when a non-blank answer sits past the sixth.
   */
  lemma SixHatsInsight(s: SessionState)
    requires s.methodId == "six_hats"
    ensures ExtractInsights(s).None? <==> exists i :: 6 <= i < |s.answers| && !AllSpace(s.answers[i])
    ensures ExtractInsights(s).Some? ==>
              ExtractInsights(s).value ==
                SixHatsPrefix + Join(", ", NamesAt(SixHatsPerspectives, NonBlankPositions(s.answers, 0)).value)
  {
    assert s.methodId != "five_whys" && s.methodId != "scamper";
    NamesOfNonBlank(SixHatsPerspectives, s.answers);
  }

  /** Every other session gets the answer count. */
  lemma CountInsight(s: SessionState)
    requires s.methodId != "scamper" && s.methodId != "six_hats"
    requires !(s.methodId == "five_whys" && |s.answers| >= 5)
    ensures ExtractInsights(s) == Some(IntToString(|s.answers|) + CountSuffix)
  {
  }

  /** The summary `end_session` returns. */
  datatype Summary = Summary(
    sessionId: string,
    problem: string,
    methodName: string,
    category: string,
    totalQuestions: int,
    answersProvided: nat,
    completed: bool,
    insights: string
  )

  /** `_generate_summary`; `None` when the insights cannot be built. */
  function GenerateSummary(s: SessionState): (r: Option<Summary>)
    ensures r.Some? <==> ExtractInsights(s).Some?
    ensures r.Some? ==>
              && r.value.totalQuestions == s.totalSteps
              && r.value.answersProvided == |s.answers|
              && r.value.completed == s.isCompleted
              && r.value.insights == ExtractInsights(s).value
              && r.value.sessionId == s.sessionId && r.value.problem == s.problem
              && r.value.methodName == s.methodName && r.value.category == s.category
  {
    var insights :- ExtractInsights(s);
    Some(Summary(s.sessionId, s.problem, s.methodName, s.category, s.totalSteps, |s.answers|, s.isCompleted, insights))
  }

  /** How `end_session` ends: no session, a failure while building the insights, or a summary. */
  datatype EndOutcome = NoSession | InsightError | Ended(summary: Summary)

  /** `end_session`. */
  function EndSession(m: Manager): (r: (Manager, EndOutcome))
    ensures m.current.None? ==> r == (m, NoSession)
    // a failure leaves everything as it was
    ensures r.1 == InsightError ==> r.0 == m
    ensures m.current.Some? ==>
              var s := m.current.value;
              (r.1 == InsightError <==> ExtractInsights(s).None?)
    // the summary is taken before the session is forced complete
    ensures r.1.Ended? ==>
              var s := m.current.value;
              && Some(r.1.summary) == GenerateSummary(s)
              && r.1.summary.completed == s.isCompleted
              && r.0.current.None?
              && r.0.store == m.store[s.sessionId := ToDict(s.(isCompleted := true))]
  {
    match m.current
    case None => (m, NoSession)
    case Some(s) =>
      match GenerateSummary(s)
      case None => (m, InsightError)
      case Some(summary) =>
        var done := s.(isCompleted := true);
        (Save(m, done).(current := None), Ended(summary))
  }

  /** Ending a session whose insights can be built gives a summary carrying them. */
  lemma EndWithInsight(m: Manager, s: SessionState, insight: string)
    requires m.current == Some(s) && ExtractInsights(s) == Some(insight)
    ensures EndSession(m).1.Ended? && EndSession(m).1.summary.insights == insight
  {
  }

  /** What the next question needs: the method, the step, the problem and the answers so far. */
  datatype QuestionContext = QuestionContext(methodId: string, currentStep: int, problem: string, previousAnswers: seq<string>)

  /** `get_next_question_context`. */
  function NextQuestionContext(m: Manager): (r: Option<QuestionContext>)
    ensures r.None? <==> m.current.None?
    ensures r.Some? ==>
              var s := m.current.value;
              && r.value.methodId == s.methodId && r.value.currentStep == s.currentStep
              && r.value.problem == s.problem && r.value.previousAnswers == s.answers
  {
    match m.current
    case None => None
    case Some(s) => Some(QuestionContext(s.methodId, s.currentStep, s.problem, s.answers))
  }

  /* ---------------------------------------------------------------------- */
  /* Runs of the manager                                                     */
  /* ---------------------------------------------------------------------- */

  /** Answer each of `xs` in turn. */
  function AddAnswers(m: Manager, xs: seq<string>, now: string): (r: Manager)
    ensures r.current.Some? <==> m.current.Some?
    decreases |xs|
  {
    if xs == [] then m
    else AddAnswers(AddAnswer(m, xs[0], now).0, xs[1..], now)
  }

  /** A session after each of `xs` in turn. */
  function AnswerAll(s: SessionState, xs: seq<string>, now: string): SessionState
    decreases |xs|
  {
    if xs == [] then s
    else AnswerAll(Answered(s, xs[0], now), xs[1..], now)
  }

  /**
   * Answering `xs` leaves the answers `a + xs` from `a`, advances the step
   * by `|xs|`, keeps the session consistent and its identity, and
   * completes it once the step reaches the total (or keeps it complete).
   */
  lemma {:induction false} AnswerAllTrace(s: SessionState, xs: seq<string>, now: string)
    ensures var s' := AnswerAll(s, xs, now);
            && s'.answers == s.answers + xs
            && s'.currentStep == s.currentStep + |xs|
            && (Consistent(s) ==> Consistent(s'))
            && s'.sessionId == s.sessionId && s'.totalSteps == s.totalSteps
            && s'.problem == s.problem && s'.methodId == s.methodId
            && (s'.isCompleted <==> s.isCompleted || (|xs| > 0 && s'.currentStep >= s.totalSteps))
    decreases |xs|
  {
    if xs != [] {
      var s1 := Answered(s, xs[0], now);
      AnswerAllTrace(s1, xs[1..], now);
      assert s.answers + [xs[0]] + xs[1..] == s.answers + xs;
    }
  }

  /** Answering through the manager answers the current session and saves the result under its id. */
  lemma {:induction false} AddAnswersCurrent(m: Manager, xs: seq<string>, now: string)
    requires m.current.Some?
    ensures var m' := AddAnswers(m, xs, now);
            var s' := AnswerAll(m.current.value, xs, now);
            && m'.current == Some(s')
            && (xs != [] ==> s'.sessionId in m'.store && m'.store[s'.sessionId] == ToDict(s'))
    decreases |xs|
  {
    if xs != [] {
      var m1 := AddAnswer(m, xs[0], now).0;
      AddAnswersCurrent(m1, xs[1..], now);
      if xs[1..] == [] {
        AnswerAllTrace(Answered(m.current.value, xs[0], now), [], now);
      } else {
        AnswerAllTrace(Answered(m.current.value, xs[0], now), xs[1..], now);
      }
    }
  }

  /**
   * A new session answered `xs` times holds exactly `xs`, is at step `|xs|`,
   * and is complete exactly when at least one answer was given and the
   * answers reach the total.
   */
  lemma CreateThenAnswer(m: Manager, sessionId: string, userId: string, problem: string, category: string,
                         methodId: string, methodName: string, totalSteps: int, now: string, xs: seq<string>)
    ensures var (m1, s) := CreateSession(m, sessionId, userId, problem, category, methodId, methodName, totalSteps, now);
            var s' := AddAnswers(m1, xs, now).current.value;
            && s'.answers == xs && s'.currentStep == |xs|
            && (s'.isCompleted <==> |xs| > 0 && |xs| >= totalSteps)
  {
    var (m1, s) := CreateSession(m, sessionId, userId, problem, category, methodId, methodName, totalSteps, now);
    AddAnswersCurrent(m1, xs, now);
    AnswerAllTrace(s, xs, now);
  }

  /**
   * The smoke-script session: three answers to a five-step five whys
   * session end with a summary of three answers out of five, not complete,
   * and the count message as its insight.
   */
  lemma FiveWhysThreeOfFive(m: Manager, sessionId: string, now: string)
    ensures var (m1, s) := CreateSession(m, sessionId, "test_user", "팀 생산성 개선", "organizational",
                                         "five_whys", "5 WHYS", 5, now);
            var m2 := AddAnswers(m1, ["회의가 많아서", "결정을 못해서", "권한이 불명확해서"], now);
            var (m3, outcome) := EndSession(m2);
            && outcome.Ended?
            && outcome.summary.totalQuestions == 5
            && outcome.summary.answersProvided == 3
            && !outcome.summary.completed
            && outcome.summary.insights == "3" + CountSuffix
            && m3.current.None?
  {
    var xs := ["회의가 많아서", "결정을 못해서", "권한이 불명확해서"];
    var (m1, s) := CreateSession(m, sessionId, "test_user", "팀 생산성 개선", "organizational",
                                 "five_whys", "5 WHYS", 5, now);
    AddAnswersCurrent(m1, xs, now);
    AnswerAllTrace(s, xs, now);
    var s' := AnswerAll(s, xs, now);
    assert |s'.answers| == 3 && s'.methodId == "five_whys";
    CountInsight(s');
    assert IntToString(3) == "3";
  }

  /**
   * A five whys session answered five or more times ends with the last
   * answer given named as the root cause.
   */
  lemma FiveWhysRootCause(m: Manager, sessionId: string, userId: string, problem: string, category: string,
                          methodName: string, totalSteps: int, now: string, xs: seq<string>)
    requires |xs| >= 5
    ensures var (m1, s) := CreateSession(m, sessionId, userId, problem, category, "five_whys", methodName, totalSteps, now);
            var outcome := EndSession(AddAnswers(m1, xs, now)).1;
            outcome.Ended? && outcome.summary.insights == RootCausePrefix + xs[|xs| - 1]
  {
    var (m1, s) := CreateSession(m, sessionId, userId, problem, category, "five_whys", methodName, totalSteps, now);
    AddAnswersCurrent(m1, xs, now);
    RootCauseAfter(s, xs, now);
    EndWithInsight(AddAnswers(m1, xs, now), AnswerAll(s, xs, now), RootCausePrefix + xs[|xs| - 1]);
  }

  lemma RootCauseAfter(s: SessionState, xs: seq<string>, now: string)
    requires s.methodId == "five_whys" && s.answers == [] && |xs| >= 5
    ensures ExtractInsights(AnswerAll(s, xs, now)) == Some(RootCausePrefix + xs[|xs| - 1])
  {
    AnswerAllTrace(s, xs, now);
    var s' := AnswerAll(s, xs, now);
    assert s'.answers[|s'.answers| - 1] == xs[|xs| - 1];
    RootCauseInsight(s', xs[|xs| - 1]);
  }
}
