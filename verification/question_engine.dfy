/**
 * The question engine (`QuestionEngine`): a bounds-checked lookup of one
 * question of one method in the catalog, the catalog's metadata views, and
 * the text a question is shown as. Failures are returned as payloads; no
 * operation raises.
 */
module QuestionEngine {
  import opened Basics
  import opened Strings
  import opened Catalog

  /** The dictionary `generate_question` returns: one of two error shapes, or a question. */
  datatype Payload =
    | UnknownMethod(error: string, available: seq<string>)
    | InvalidStep(error: string, methodName: string, totalSteps: int)
    | Question(methodName: string, category: string, question: string, step: int, totalSteps: int, isLast: bool)
  {
    predicate IsError() {
      UnknownMethod? || InvalidStep?
    }
  }

  /** Question tailoring to the user's context: the question is returned as it is. */
  function Contextualize(question: string, context: string, methodId: string): string {
    question
  }

  /** `generate_question`: the question at a 0-based step of a method. */
  function GenerateQuestion(cat: Catalog, methodId: string, step: int, context: Option<string>): (r: Payload)
    requires WellFormed(cat)
    // an unknown method lists every method of the catalog
    ensures r.UnknownMethod? <==> methodId !in cat.methods
    ensures r.UnknownMethod? ==> r.available == cat.order && r.error == "Unknown method: " + methodId
    // a step outside [0, steps) names the method and its step count
    ensures r.InvalidStep? <==> methodId in cat.methods && (step < 0 || step >= cat.methods[methodId].steps)
    ensures r.InvalidStep? ==>
              var m := cat.methods[methodId];
              && r.methodName == m.name && r.totalSteps == m.steps
              && r.error == "Invalid step " + IntToString(step) + ". Must be 0-" + IntToString(m.steps - 1)
    // a valid step shows the step 1-based, within [1, total]
    ensures r.Question? ==>
              var m := cat.methods[methodId];
              && r.methodName == m.name && r.category == m.category
              && r.totalSteps == m.steps
              && 1 <= r.step <= r.totalSteps
              && r.step == step + 1
              && r.question == m.questions[r.step - 1]
              && (r.isLast <==> r.step == r.totalSteps)
  {
    if methodId !in cat.methods then
      UnknownMethod("Unknown method: " + methodId, cat.order)
    else
      var m := cat.methods[methodId];
      var total := m.steps;
      if step < 0 || step >= total then
        InvalidStep("Invalid step " + IntToString(step) + ". Must be 0-" + IntToString(total - 1), m.name, total)
      else
        var text := m.questions[step];
        var text := if context.Some? && context.value != [] then Contextualize(text, context.value, methodId) else text;
        Question(m.name, m.category, text, step + 1, total, step == total - 1)
  }

  /** The two steps just outside the range, -1 and the step count, are always errors. */
  lemma OutOfRangeStepsAreErrors(cat: Catalog, methodId: string, context: Option<string>)
    requires WellFormed(cat) && methodId in cat.methods
    ensures GenerateQuestion(cat, methodId, -1, context).InvalidStep?
    ensures GenerateQuestion(cat, methodId, cat.methods[methodId].steps, context).InvalidStep?
  {
  }

  /** Every question of a method is reached by exactly one step, and only the final one is marked last. */
  lemma EveryQuestionReachable(cat: Catalog, methodId: string, i: nat, context: Option<string>)
    requires WellFormed(cat) && methodId in cat.methods
    requires i < |cat.methods[methodId].questions|
    ensures var r := GenerateQuestion(cat, methodId, i, context);
            && r.Question?
            && r.question == cat.methods[methodId].questions[i]
            && (r.isLast <==> i == |cat.methods[methodId].questions| - 1)
  {
  }

  /** The optional context never changes the result. */
  lemma ContextIsIgnored(cat: Catalog, methodId: string, step: int, c1: Option<string>, c2: Option<string>)
    requires WellFormed(cat)
    ensures GenerateQuestion(cat, methodId, step, c1) == GenerateQuestion(cat, methodId, step, c2)
  {
  }

  /* ---------------------------------------------------------------------- */
  /* Metadata views                                                          */
  /* ---------------------------------------------------------------------- */

  /** A method's metadata without its questions. */
  datatype MethodInfo = MethodInfo(id: string, name: string, category: string, steps: int, bestFor: string)

  /** The metadata of a catalog entry. */
  function Info(cat: Catalog, id: string): (r: MethodInfo)
    requires id in cat.methods
  {
    var m := cat.methods[id];
    MethodInfo(id, m.name, m.category, m.steps, m.bestFor)
  }

  /** `get_method_info`. */
  function GetMethodInfo(cat: Catalog, methodId: string): (r: Option<MethodInfo>)
    ensures r.None? <==> methodId !in cat.methods
    ensures r.Some? ==>
              var m := cat.methods[methodId];
              r.value == MethodInfo(methodId, m.name, m.category, m.steps, m.bestFor)
  {
    if methodId !in cat.methods then None else Some(Info(cat, methodId))
  }

  /** Whether `list_methods` keeps a method of category `c`: an absent or empty filter keeps all. */
  predicate Keeps(filter: Option<string>, c: string) {
    filter.None? || filter.value == [] || c == filter.value
  }

  /** The ids whose method the filter keeps, in their order. */
  function KeptIds(cat: Catalog, ids: seq<string>, filter: Option<string>): (r: seq<string>)
    requires forall id :: id in ids ==> id in cat.methods
    ensures |r| <= |ids|
    ensures forall k :: 0 <= k < |r| ==> r[k] in ids && Keeps(filter, cat.methods[r[k]].category)
  {
    if ids == [] then []
    else
      var rest := KeptIds(cat, ids[1..], filter);
      if Keeps(filter, cat.methods[ids[0]].category) then
        var r := [ids[0]] + rest;
        assert forall k :: 0 < k < |r| ==> r[k] == rest[k - 1];
        r
      else rest
  }

  /** Every id the filter keeps is among the kept ids. */
  lemma {:induction false} KeptIdsComplete(cat: Catalog, ids: seq<string>, filter: Option<string>, id: string)
    requires forall x :: x in ids ==> x in cat.methods
    requires id in ids && Keeps(filter, cat.methods[id].category)
    ensures id in KeptIds(cat, ids, filter)
  {
    if id != ids[0] {
      assert id in ids[1..];
      KeptIdsComplete(cat, ids[1..], filter, id);
    }
  }

  /** The metadata of the kept ids, in their order. */
  function ListFrom(cat: Catalog, ids: seq<string>, filter: Option<string>): (r: seq<MethodInfo>)
    requires forall id :: id in ids ==> id in cat.methods
    ensures |r| <= |ids|
    ensures forall k :: 0 <= k < |r| ==> r[k].id in ids && r[k] == Info(cat, r[k].id) && Keeps(filter, r[k].category)
  {
    var kept := KeptIds(cat, ids, filter);
    seq(|kept|, k requires 0 <= k < |kept| => Info(cat, kept[k]))
  }

  /** Every kept id appears. */
  lemma ListFromComplete(cat: Catalog, ids: seq<string>, filter: Option<string>, id: string)
    requires forall x :: x in ids ==> x in cat.methods
    requires id in ids && Keeps(filter, cat.methods[id].category)
    ensures exists k :: 0 <= k < |ListFrom(cat, ids, filter)| && ListFrom(cat, ids, filter)[k].id == id
  {
    var kept := KeptIds(cat, ids, filter);
    KeptIdsComplete(cat, ids, filter, id);
    var k :| 0 <= k < |kept| && kept[k] == id;
    assert ListFrom(cat, ids, filter)[k].id == id;
  }

  /** Increasing positions of `xs` in `ids`. */
  predicate PositionsOf(ps: seq<nat>, xs: seq<string>, ids: seq<string>) {
    && |ps| == |xs|
    && (forall k :: 0 <= k < |ps| ==> ps[k] < |ids| && ids[ps[k]] == xs[k])
    && (forall k, l :: 0 <= k < l < |ps| ==> ps[k] < ps[l])
  }

  /** Positions in the tail of a list are one further on in the whole list. */
  lemma ShiftPositions(ids: seq<string>, xs: seq<string>, qs: seq<nat>) returns (ps: seq<nat>)
    requires ids != [] && PositionsOf(qs, xs, ids[1..])
    ensures PositionsOf(ps, xs, ids)
    ensures forall k :: 0 <= k < |ps| ==> ps[k] > 0
  {
    ps := seq(|qs|, k requires 0 <= k < |qs| => qs[k] + 1);
    forall k | 0 <= k < |ps| ensures ps[k] < |ids| && ids[ps[k]] == xs[k] {
      assert ids[qs[k] + 1] == ids[1..][qs[k]];
    }
  }

  /** The head of a list sits before every position in its tail. */
  lemma ConsPositions(ids: seq<string>, xs: seq<string>, qs: seq<nat>) returns (ps: seq<nat>)
    requires ids != [] && PositionsOf(qs, xs, ids[1..])
    ensures PositionsOf(ps, [ids[0]] + xs, ids)
  {
    var shifted := ShiftPositions(ids, xs, qs);
    ps := [0] + shifted;
    var ys := [ids[0]] + xs;
    forall k | 0 < k < |ps| ensures ps[k] < |ids| && ids[ps[k]] == ys[k] {
      assert ps[k] == shifted[k - 1] && ys[k] == xs[k - 1];
    }
  }

  /** Where each kept id sits among all the ids: strictly increasing positions. */
  lemma {:induction false} KeptPositions(cat: Catalog, ids: seq<string>, filter: Option<string>) returns (ps: seq<nat>)
    requires forall x :: x in ids ==> x in cat.methods
    ensures PositionsOf(ps, KeptIds(cat, ids, filter), ids)
  {
    if ids == [] {
      ps := [];
    } else {
      var qs := KeptPositions(cat, ids[1..], filter);
      if Keeps(filter, cat.methods[ids[0]].category) {
        ps := ConsPositions(ids, KeptIds(cat, ids[1..], filter), qs);
      } else {
        ps := ShiftPositions(ids, KeptIds(cat, ids[1..], filter), qs);
      }
    }
  }

  /** The kept ids keep the order they have among all the ids. */
  lemma KeptIdsOrdered(cat: Catalog, ids: seq<string>, filter: Option<string>, k: nat, l: nat)
    requires forall x :: x in ids ==> x in cat.methods
    requires NoDup(ids)
    requires k < l < |KeptIds(cat, ids, filter)|
    ensures IndexOf(ids, KeptIds(cat, ids, filter)[k]) < IndexOf(ids, KeptIds(cat, ids, filter)[l])
  {
    var ps := KeptPositions(cat, ids, filter);
    IndexOfAt(ids, ps[k]);
    IndexOfAt(ids, ps[l]);
  }

  /** The list keeps the order of the ids. */
  lemma ListFromOrdered(cat: Catalog, ids: seq<string>, filter: Option<string>, k: nat, l: nat)
    requires forall x :: x in ids ==> x in cat.methods
    requires NoDup(ids)
    requires k < l < |ListFrom(cat, ids, filter)|
    ensures IndexOf(ids, ListFrom(cat, ids, filter)[k].id) < IndexOf(ids, ListFrom(cat, ids, filter)[l].id)
  {
    KeptIdsOrdered(cat, ids, filter, k, l);
  }

  /** Without a filter, or with an empty one, every id is kept. */
  lemma {:induction false} KeepAll(cat: Catalog, ids: seq<string>, filter: Option<string>)
    requires forall x :: x in ids ==> x in cat.methods
    requires filter.None? || filter == Some([])
    ensures KeptIds(cat, ids, filter) == ids
  {
    if ids != [] {
      KeepAll(cat, ids[1..], filter);
    }
  }

  /** Without a filter, or with an empty one, the list is the metadata of every id, position by position. */
  lemma ListFromAll(cat: Catalog, ids: seq<string>, filter: Option<string>)
    requires forall x :: x in ids ==> x in cat.methods
    requires filter.None? || filter == Some([])
    ensures |ListFrom(cat, ids, filter)| == |ids|
    ensures forall k :: 0 <= k < |ids| ==> ListFrom(cat, ids, filter)[k] == Info(cat, ids[k])
  {
    KeepAll(cat, ids, filter);
  }

  /** `list_methods`: the metadata of the methods of a category, or of all methods, in catalog order. */
  function ListMethods(cat: Catalog, category: Option<string>): (r: seq<MethodInfo>)
    requires WellFormed(cat)
  {
    ListFrom(cat, cat.order, category)
  }

  /**
   * With a non-empty category the list holds exactly the methods of that
   * category, once each, in catalog order; with none (or an empty one) it
   * holds every method in catalog order.
   */
  lemma ListMethodsContents(cat: Catalog, category: Option<string>)
    requires WellFormed(cat)
    ensures var r := ListMethods(cat, category);
            category.Some? && category.value != [] ==>
              forall id :: id in cat.methods ==> (cat.methods[id].category == category.value <==> exists k :: 0 <= k < |r| && r[k].id == id)
    ensures var r := ListMethods(cat, category);
            forall k, l :: 0 <= k < l < |r| ==> IndexOf(cat.order, r[k].id) < IndexOf(cat.order, r[l].id)
    ensures category.None? || category == Some([]) ==>
              var r := ListMethods(cat, category);
              |r| == |cat.order| && forall k :: 0 <= k < |r| ==> r[k] == Info(cat, cat.order[k])
  {
    var r := ListMethods(cat, category);
    forall id | id in cat.methods && Keeps(category, cat.methods[id].category)
      ensures exists k :: 0 <= k < |r| && r[k].id == id
    {
      ListFromComplete(cat, cat.order, category, id);
    }
    forall k, l | 0 <= k < l < |r| ensures IndexOf(cat.order, r[k].id) < IndexOf(cat.order, r[l].id) {
      ListFromOrdered(cat, cat.order, category, k, l);
    }
    if category.None? || category == Some([]) {
      ListFromAll(cat, cat.order, category);
    }
  }

  /* ---------------------------------------------------------------------- */
  /* Display                                                                 */
  /* ---------------------------------------------------------------------- */

  const ErrorPrefix: string := "❌ 오류: "
  const MethodMark: string := "[방법론: "
  const LastLine: string := "\n\n✅ 마지막 질문입니다."

  /** The header line of a question: the method and its category in upper case. */
  function Header(p: Payload): string
    requires p.Question?
  {
    MethodMark + p.methodName + " - " + Upper(p.category) + "]\n"
  }

  /** The step counter and the question. */
  function StepLine(p: Payload): string
    requires p.Question?
  {
    "질문 " + IntToString(p.step) + "/" + IntToString(p.totalSteps) + ": " + p.question
  }

  /** `format_question_output`. */
  function FormatQuestionOutput(p: Payload): (r: string)
  {
    if p.IsError() then ErrorPrefix + p.error
    else Header(p) + StepLine(p) + (if p.isLast then LastLine else "")
  }

  /** An error payload becomes the error mark followed by its message. */
  lemma ErrorFormat(p: Payload)
    requires p.IsError()
    ensures var r := FormatQuestionOutput(p);
            StartsWith(r, ErrorPrefix) && EndsWith(r, p.error) && |r| == |ErrorPrefix| + |p.error|
  {
    var r := FormatQuestionOutput(p);
    assert r[..|ErrorPrefix|] == ErrorPrefix;
    EndsWithAppend(ErrorPrefix, p.error);
  }

  /**
   * A question starts with its method header, not with the error mark, and
   * ends with the last-question line when it is the last, or with the
   * question itself otherwise.
   */
  lemma QuestionFormat(p: Payload)
    requires p.Question?
    ensures var r := FormatQuestionOutput(p);
            StartsWith(r, MethodMark + p.methodName + " - ") && r[0] != ErrorPrefix[0]
    ensures p.isLast ==> EndsWith(FormatQuestionOutput(p), LastLine)
    ensures !p.isLast ==> EndsWith(FormatQuestionOutput(p), p.question)
  {
    var h := MethodMark + p.methodName + " - ";
    var head := Header(p);
    var line := StepLine(p);
    assert head == h + (Upper(p.category) + "]\n");
    StartsWithAppend(h, Upper(p.category) + "]\n", h);
    StartsWithAppend(head, line, h);
    if p.isLast {
      StartsWithAppend(head + line, LastLine, h);
      EndsWithAppend(head + line, LastLine);
    } else {
      assert head + line + "" == head + line;
      assert line == ("질문 " + IntToString(p.step) + "/" + IntToString(p.totalSteps) + ": ") + p.question;
      EndsWithAppend("질문 " + IntToString(p.step) + "/" + IntToString(p.totalSteps) + ": ", p.question);
      assert head + line == (head + ("질문 " + IntToString(p.step) + "/" + IntToString(p.totalSteps) + ": ")) + p.question;
      EndsWithAppend(head + ("질문 " + IntToString(p.step) + "/" + IntToString(p.totalSteps) + ": "), p.question);
    }
    assert FormatQuestionOutput(p)[0] == MethodMark[0];
  }
}
