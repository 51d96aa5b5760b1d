/**
 * The rule-based problem classifier (`ProblemClassifier`).
 *
 * A category's score is the number of its keywords found in the lower-cased
 * problem text; the first category with the highest score wins, and the
 * confidence is its share of all hits. The shortlist joins the catalog's
 * ids for that category with the ids of a table of keyword rules, and keeps
 * the catalog entries among the first five of the de-duplicated union.
 * Nothing here has state.
 */
module Classifier {
  import opened Basics
  import opened Strings
  import opened Catalog

  /* ---------------------------------------------------------------------- */
  /* Categories and keywords                                                 */
  /* ---------------------------------------------------------------------- */

  datatype Category = Analytical | Creative | Strategic | Technical | Product | Organizational | Personal

  /** The categories in the declaration order of the keyword table, which is the tie-break order. */
  const Categories: seq<Category> := [Analytical, Creative, Strategic, Technical, Product, Organizational, Personal]

  /** The key a category has in the keyword table and in the catalog's category table. */
  function CategoryId(c: Category): string {
    match c
    case Analytical => "analytical"
    case Creative => "creative"
    case Strategic => "strategic"
    case Technical => "technical"
    case Product => "product"
    case Organizational => "organizational"
    case Personal => "personal"
  }

  /** The Korean display name used in the reasoning sentence. */
  function CategoryName(c: Category): string {
    match c
    case Analytical => "분석적 접근"
    case Creative => "창의적 사고"
    case Strategic => "전략적 계획"
    case Technical => "기술적 혁신"
    case Product => "제품 개선"
    case Organizational => "조직 개선"
    case Personal => "개인 성장"
  }

  /* `KEYWORD_RULES`: the keyword list of each category. */

  const AnalyticalKeywords: seq<string> := [
    "왜", "이유", "원인", "분석", "why", "cause", "reason",
    "근본", "root", "문제", "problem", "인과관계", "causal"
  ]

  const CreativeKeywords: seq<string> := [
    "창의적", "혁신", "새로운", "아이디어", "creative", "innovative",
    "idea", "brainstorm", "상상", "imagine"
  ]

  const StrategicKeywords: seq<string> := [
    "전략", "미래", "계획", "목표", "strategy", "future", "plan",
    "비전", "vision", "장기", "long-term", "의사결정", "결정",
    "선택", "decision", "choice", "투자", "investment", "ROI",
    "BCG", "SWOT", "포터", "Porter", "경쟁", "competitive",
    "시장분석", "market analysis", "포트폴리오", "portfolio",
    "사업전략", "business strategy", "성장전략", "growth",
    "인수합병", "M&A", "리스크", "risk", "기회비용", "opportunity cost",
    "시나리오", "scenario", "불확실성", "uncertainty"
  ]

  const TechnicalKeywords: seq<string> := [
    "기술", "제품", "시스템", "technical", "product", "system",
    "개발", "develop", "설계", "design"
  ]

  const ProductKeywords: seq<string> := [
    "제품", "서비스", "개선", "product", "service", "improve",
    "고객", "customer", "사용자", "user"
  ]

  const OrganizationalKeywords: seq<string> := [
    "조직", "팀", "프로세스", "organization", "team", "process",
    "생산성", "productivity", "효율", "efficiency"
  ]

  const PersonalKeywords: seq<string> := [
    "개인", "자기", "personal", "self", "성장", "growth",
    "인생", "life", "경력", "career", "후회", "regret"
  ]

  /** The keyword table, in declaration order. */
  const KeywordRules: seq<seq<string>> := [
    AnalyticalKeywords, CreativeKeywords, StrategicKeywords, TechnicalKeywords,
    ProductKeywords, OrganizationalKeywords, PersonalKeywords
  ]

  /** The position of a category in the declaration order. */
  function Index(c: Category): (i: nat)
    ensures i < |Categories| && Categories[i] == c
  {
    match c
    case Analytical => 0
    case Creative => 1
    case Strategic => 2
    case Technical => 3
    case Product => 4
    case Organizational => 5
    case Personal => 6
  }

  /** Each category is listed once: its position is where it was found. */
  lemma IndexOfListed(i: nat)
    requires i < |Categories|
    ensures Index(Categories[i]) == i
  {
  }

  /** The keyword list of a category. */
  function Keywords(c: Category): (ks: seq<string>)
    ensures ks == KeywordRules[Index(c)]
  {
    match c
    case Analytical => AnalyticalKeywords
    case Creative => CreativeKeywords
    case Strategic => StrategicKeywords
    case Technical => TechnicalKeywords
    case Product => ProductKeywords
    case Organizational => OrganizationalKeywords
    case Personal => PersonalKeywords
  }

  /* ---------------------------------------------------------------------- */
  /* Scoring                                                                 */
  /* ---------------------------------------------------------------------- */

  /** How many of the keywords occur in the text (each keyword counts once, however often it occurs). */
  function CountHits(ks: seq<string>, text: string): (n: nat)
    ensures n <= |ks|
  {
    if ks == [] then 0
    else CountHits(ks[..|ks| - 1], text) + (if Contains(text, ks[|ks| - 1]) then 1 else 0)
  }

  /** No keyword is found exactly when the count is 0, and every keyword exactly when it is the list's length. */
  lemma {:induction false} CountHitsExtremes(ks: seq<string>, text: string)
    ensures CountHits(ks, text) == 0 <==> forall i :: 0 <= i < |ks| ==> !Occurs(text, ks[i])
    ensures CountHits(ks, text) == |ks| <==> forall i :: 0 <= i < |ks| ==> Occurs(text, ks[i])
  {
    if ks != [] {
      var init := ks[..|ks| - 1];
      CountHitsExtremes(init, text);
      assert forall i :: 0 <= i < |init| ==> init[i] == ks[i];
    }
  }

  /** The indices of the keywords that occur in the text. */
  ghost function HitSet(ks: seq<string>, text: string): set<nat> {
    set i: nat | i < |ks| && Occurs(text, ks[i])
  }

  /** The count is the size of the set of keywords found. */
  lemma {:induction false} CountHitsIsHitSetSize(ks: seq<string>, text: string)
    ensures CountHits(ks, text) == |HitSet(ks, text)|
  {
    if ks != [] {
      var init := ks[..|ks| - 1];
      CountHitsIsHitSetSize(init, text);
      var last := |ks| - 1;
      if Occurs(text, ks[last]) {
        assert HitSet(ks, text) == HitSet(init, text) + {last};
      } else {
        assert HitSet(ks, text) == HitSet(init, text);
      }
    }
  }

  /** `_score_categories` for one category. */
  function Score(c: Category, text: string): nat {
    CountHits(Keywords(c), Lower(text))
  }

  /** The scores, in category declaration order. */
  function Scores(text: string): seq<nat> {
    seq(|Categories|, i requires 0 <= i < |Categories| => Score(Categories[i], text))
  }

  /** Dropping the last keyword loses at most its own hit, and nothing when it has an upper-case letter. */
  lemma CountHitsLast(ks: seq<string>, s: string)
    requires ks != []
    ensures CountHits(ks, Lower(s)) <= CountHits(ks[..|ks| - 1], Lower(s)) + 1
    ensures HasUpper(ks[|ks| - 1]) ==> CountHits(ks, Lower(s)) == CountHits(ks[..|ks| - 1], Lower(s))
  {
    if HasUpper(ks[|ks| - 1]) {
      UpperNeverOccursInLower(s, ks[|ks| - 1]);
    }
  }

  /** Keywords with an upper-case letter are never found in lower-cased text: each one lowers the ceiling by one. */
  lemma {:induction false} UpperKeywordsNeverHit(ks: seq<string>, s: string, upper: set<nat>)
    requires forall i :: i in upper ==> i < |ks| && HasUpper(ks[i])
    ensures CountHits(ks, Lower(s)) + |upper| <= |ks|
  {
    if ks != [] {
      var last := |ks| - 1;
      var init := ks[..last];
      var rest := upper - {last};
      assert forall i :: i in rest ==> i < |init| && HasUpper(init[i]) by {
        forall i | i in rest ensures i < |init| && HasUpper(init[i]) {
          assert init[i] == ks[i];
        }
      }
      UpperKeywordsNeverHit(init, s, rest);
      CountHitsLast(ks, s);
      RemoveCard(upper, last);
    } else {
      assert upper == {};
    }
  }

  lemma RemoveCard(xs: set<nat>, x: nat)
    ensures |xs| == |xs - {x}| + (if x in xs then 1 else 0)
  {
    if x !in xs {
      assert xs - {x} == xs;
    }
  }

  /** `ROI`, `BCG`, `SWOT`, `Porter` and `M&A` never count: at most 38 of the 43 strategic keywords can score. */
  lemma StrategicScoreBound(text: string)
    ensures |Keywords(Strategic)| == 43
    ensures Score(Strategic, text) <= 38
  {
    var ks := Keywords(Strategic);
    StrategicUpperCase();
    var upper: set<nat> := {18, 19, 20, 22, 34};
    assert forall i :: i in upper ==> i < |ks| && HasUpper(ks[i]) by {
      forall i | i in upper ensures i < |ks| && HasUpper(ks[i]) {
        assert i == 18 || i == 19 || i == 20 || i == 22 || i == 34;
      }
    }
    UpperKeywordsNeverHit(ks, text, upper);
  }

  /** The strategic keywords at 18, 19, 20, 22 and 34 are `ROI`, `BCG`, `SWOT`, `Porter` and `M&A`. */
  lemma StrategicUpperCase()
    ensures |StrategicKeywords| == 43
    ensures HasUpper(StrategicKeywords[18]) && HasUpper(StrategicKeywords[19]) && HasUpper(StrategicKeywords[20])
    ensures HasUpper(StrategicKeywords[22]) && HasUpper(StrategicKeywords[34])
  {
    var ks := StrategicKeywords;
    assert ks[18] == "ROI" && IsUpper(ks[18][0]);
    assert ks[19] == "BCG" && IsUpper(ks[19][0]);
    assert ks[20] == "SWOT" && IsUpper(ks[20][0]);
    assert ks[22] == "Porter" && IsUpper(ks[22][0]);
    assert ks[34] == "M&A" && IsUpper(ks[34][0]);
  }

  /* ---------------------------------------------------------------------- */
  /* Best category and confidence                                            */
  /* ---------------------------------------------------------------------- */

  function Sum(xs: seq<nat>): nat {
    if xs == [] then 0 else Sum(xs[..|xs| - 1]) + xs[|xs| - 1]
  }

  /** Every score is part of the sum, and it is the whole sum exactly when all the others are zero. */
  lemma {:induction false} SumDominates(xs: seq<nat>, i: nat)
    requires i < |xs|
    ensures xs[i] <= Sum(xs)
    ensures Sum(xs) == xs[i] <==> forall j :: 0 <= j < |xs| && j != i ==> xs[j] == 0
  {
    var init := xs[..|xs| - 1];
    if i == |xs| - 1 {
      SumZero(init);
      assert forall j :: 0 <= j < |init| ==> init[j] == xs[j];
    } else {
      SumDominates(init, i);
      assert forall j :: 0 <= j < |init| ==> init[j] == xs[j];
    }
  }

  /** A sum is zero exactly when every term is. */
  lemma {:induction false} SumZero(xs: seq<nat>)
    ensures Sum(xs) == 0 <==> forall j :: 0 <= j < |xs| ==> xs[j] == 0
  {
    if xs != [] {
      var init := xs[..|xs| - 1];
      SumZero(init);
      assert forall j :: 0 <= j < |init| ==> init[j] == xs[j];
    }
  }

  /** Python's `max` with a key: the first index holding the largest value. */
  function ArgMax(xs: seq<nat>): (b: nat)
    requires xs != []
    ensures b < |xs|
    ensures forall j :: 0 <= j < |xs| ==> xs[j] <= xs[b]
    ensures forall j :: 0 <= j < b ==> xs[j] < xs[b]
  {
    if |xs| == 1 then 0
    else
      var b := ArgMax(xs[..|xs| - 1]);
      assert forall j :: 0 <= j < |xs| - 1 ==> xs[..|xs| - 1][j] == xs[j];
      if xs[|xs| - 1] > xs[b] then |xs| - 1 else b
  }

  /** The winning category's share of all hits, or 0 when nothing was hit. */
  function Confidence(xs: seq<nat>, b: nat): (r: real)
    requires b < |xs|
  {
    var total := Sum(xs);
    if total > 0 then xs[b] as real / total as real else 0.0
  }

  /** A share of a positive total lies in [0, 1], is positive iff the part is, and is 1 iff the part is the whole. */
  lemma ShareFacts(x: nat, total: nat)
    requires 0 < total && x <= total
    ensures 0.0 <= x as real / total as real <= 1.0
    ensures x as real / total as real > 0.0 <==> x > 0
    ensures x as real / total as real == 1.0 <==> x == total
  {
  }

  /**
   * The confidence of the winner lies in [0, 1], is positive exactly when
   * something was hit, and is 1 exactly when the winner is the only category
   * with a hit.
   */
  lemma ConfidenceRange(xs: seq<nat>)
    requires xs != []
    ensures var b := ArgMax(xs); 0.0 <= Confidence(xs, b) <= 1.0
    ensures var b := ArgMax(xs); Confidence(xs, b) > 0.0 <==> Sum(xs) > 0
    ensures var b := ArgMax(xs);
            Confidence(xs, b) == 1.0 <==> xs[b] > 0 && forall j :: 0 <= j < |xs| && j != b ==> xs[j] == 0
  {
    var b := ArgMax(xs);
    SumDominates(xs, b);
    SumZero(xs);
    var total := Sum(xs);
    if total > 0 {
      ShareFacts(xs[b], total);
    }
  }

  /** With no hit at all the first category wins, with confidence 0. */
  lemma NoHitDefaults(xs: seq<nat>)
    requires xs != [] && forall j :: 0 <= j < |xs| ==> xs[j] == 0
    ensures ArgMax(xs) == 0 && Confidence(xs, 0) == 0.0
  {
    SumZero(xs);
  }

  /** The winner of a text's scores. */
  function BestCategory(text: string): (c: Category)
  {
    Categories[ArgMax(Scores(text))]
  }

  /** The winner has the highest score, and every category declared before it scores less. */
  lemma BestCategoryIsFirstMaximum(text: string)
    ensures var b := ArgMax(Scores(text));
            b < |Categories| && BestCategory(text) == Categories[b]
            && (forall j :: 0 <= j < |Categories| ==> Score(Categories[j], text) <= Score(BestCategory(text), text))
            && (forall j :: 0 <= j < b ==> Score(Categories[j], text) < Score(BestCategory(text), text))
  {
    var s := Scores(text);
    var b := ArgMax(s);
    assert forall j :: 0 <= j < |Categories| ==> s[j] == Score(Categories[j], text);
  }

  /** Text without any keyword of any category classifies as analytical, with confidence 0. */
  lemma NoKeywordIsAnalytical(text: string)
    requires forall j :: 0 <= j < |Categories| ==> Score(Categories[j], text) == 0
    ensures BestCategory(text) == Analytical
    ensures Confidence(Scores(text), ArgMax(Scores(text))) == 0.0
  {
    var s := Scores(text);
    assert forall j :: 0 <= j < |s| ==> s[j] == 0 by {
      assert forall j :: 0 <= j < |s| ==> s[j] == Score(Categories[j], text);
    }
    NoHitDefaults(s);
  }

  /* ---------------------------------------------------------------------- */
  /* Additional methods                                                      */
  /* ---------------------------------------------------------------------- */

  /** Some keyword of the list occurs in the text. */
  function AnyContains(ks: seq<string>, text: string): (r: bool)
    ensures r <==> exists i :: 0 <= i < |ks| && Occurs(text, ks[i])
  {
    CountHitsExtremes(ks, text);
    CountHits(ks, text) > 0
  }

  /** One keyword rule of `_get_additional_methods`: any keyword adds all the ids. */
  datatype Rule = Rule(keywords: seq<string>, ids: seq<string>)

  /** The keyword rules after the five-whys rule, in source order. */
  const Rules: seq<Rule> := [
    Rule(["제품", "product"], ["scamper"]),
    Rule(["미래", "future", "시나리오"], ["scenario_planning"]),
    Rule(["팀", "조직", "team", "organization"], ["six_hats"]),
    Rule(["결정", "decision", "선택", "choice"], ["decision_tree"]),
    Rule(["swot"], ["swot"]),
    Rule(["bcg"], ["bcg_matrix"]),
    Rule(["포터", "porter", "경쟁", "competitive"], ["porter_five_forces"]),
    Rule(["원인", "cause", "인과"], ["fishbone", "systems_thinking"]),
    Rule(["투자", "investment", "비용", "cost"], ["cost_benefit"]),
    Rule(["리스크", "risk", "실패", "fail"], ["pre_mortem"]),
    Rule(["후회", "regret", "인생", "life"], ["regret_minimization"]),
    Rule(["편향", "bias", "객관"], ["mental_models"])
  ]

  /** The index of the causal rule in `Rules`. */
  const CausalRule: nat := 7

  /** The ids of the rules that fire on the text, in rule order. */
  function FiredIds(rs: seq<Rule>, text: string): seq<string> {
    if rs == [] then []
    else (if AnyContains(rs[0].keywords, text) then rs[0].ids else []) + FiredIds(rs[1..], text)
  }

  /** An id is added exactly when a rule listing it fires. */
  lemma {:induction false} FiredIdsMember(rs: seq<Rule>, text: string, x: string)
    ensures x in FiredIds(rs, text) <==> exists i :: 0 <= i < |rs| && x in rs[i].ids && AnyContains(rs[i].keywords, text)
  {
    if rs != [] {
      FiredIdsMember(rs[1..], text, x);
      if x in FiredIds(rs[1..], text) {
        var i :| 0 <= i < |rs[1..]| && x in rs[1..][i].ids && AnyContains(rs[1..][i].keywords, text);
        assert rs[1..][i] == rs[i + 1];
      }
      if exists i :: 0 <= i < |rs| && x in rs[i].ids && AnyContains(rs[i].keywords, text) {
        var i :| 0 <= i < |rs| && x in rs[i].ids && AnyContains(rs[i].keywords, text);
        if i > 0 {
          assert rs[1..][i - 1] == rs[i];
        }
      }
    }
  }

  /** No two rules list the same id. */
  predicate IdsDisjoint(rs: seq<Rule>) {
    forall i, j :: 0 <= i < j < |rs| ==> forall x :: x in rs[i].ids ==> x !in rs[j].ids
  }

  /** Concatenating two duplicate-free, disjoint lists gives a duplicate-free list. */
  lemma NoDupAppend<T>(a: seq<T>, b: seq<T>)
    requires NoDup(a) && NoDup(b)
    requires forall x :: x in a ==> x !in b
    ensures NoDup(a + b)
  {
    forall i, j | 0 <= i < j < |a + b| ensures (a + b)[i] != (a + b)[j] {
      if j < |a| {
        assert (a + b)[j] == a[j] && (a + b)[i] == a[i];
      } else if i < |a| {
        assert (a + b)[j] == b[j - |a|] && (a + b)[i] == a[i];
        assert a[i] in a && b[j - |a|] in b;
      } else {
        assert (a + b)[j] == b[j - |a|] && (a + b)[i] == b[i - |a|];
      }
    }
  }

  /** When no rule lists an id twice and no id is shared between rules, the fired ids have no duplicate. */
  lemma {:induction false} FiredIdsNoDup(rs: seq<Rule>, text: string)
    requires IdsDisjoint(rs)
    requires forall i :: 0 <= i < |rs| ==> NoDup(rs[i].ids)
    ensures NoDup(FiredIds(rs, text))
  {
    if rs != [] {
      var tail := rs[1..];
      assert forall i :: 0 <= i < |tail| ==> tail[i] == rs[i + 1];
      FiredIdsNoDup(tail, text);
      var head := if AnyContains(rs[0].keywords, text) then rs[0].ids else [];
      forall x | x in head ensures x !in FiredIds(tail, text) {
        FiredIdsMember(tail, text, x);
      }
      NoDupAppend(head, FiredIds(tail, text));
    }
  }

  /** A rule table whose ids each name their own rule has disjoint ids. */
  lemma OwnedDisjoint(rs: seq<Rule>, owner: string -> int)
    requires forall i, x :: 0 <= i < |rs| && x in rs[i].ids ==> owner(x) == i
    ensures IdsDisjoint(rs)
  {
    forall i, j | 0 <= i < j < |rs| ensures forall x :: x in rs[i].ids ==> x !in rs[j].ids {
      forall x | x in rs[i].ids ensures x !in rs[j].ids {
        assert owner(x) == i;
      }
    }
  }

  /** The rule listing each id of the table. */
  function RuleOf(x: string): int {
    match x
    case "scamper" => 0
    case "scenario_planning" => 1
    case "six_hats" => 2
    case "decision_tree" => 3
    case "swot" => 4
    case "bcg_matrix" => 5
    case "porter_five_forces" => 6
    case "fishbone" => 7
    case "systems_thinking" => 7
    case "cost_benefit" => 8
    case "pre_mortem" => 9
    case "regret_minimization" => 10
    case "mental_models" => 11
    case _ => -1
  }

  /** Each rule appends its ids at most once, and no two rules share an id. */
  lemma RuleTableDisjoint()
    ensures IdsDisjoint(Rules)
    ensures forall i :: 0 <= i < |Rules| ==> NoDup(Rules[i].ids)
  {
    assert forall i, x :: 0 <= i < |Rules| && x in Rules[i].ids ==> RuleOf(x) == i;
    OwnedDisjoint(Rules, RuleOf);
  }

  /** No keyword rule lists `five_whys`. */
  lemma FiveWhysNotInTable()
    ensures forall i :: 0 <= i < |Rules| ==> "five_whys" !in Rules[i].ids
  {
  }

  /** `fishbone` and `systems_thinking` are listed by the causal rule and by no other. */
  lemma CausalIdsOwned()
    ensures Rules[CausalRule] == Rule(["원인", "cause", "인과"], ["fishbone", "systems_thinking"])
    ensures forall i :: 0 <= i < |Rules| && i != CausalRule ==> "fishbone" !in Rules[i].ids && "systems_thinking" !in Rules[i].ids
  {
  }

  /** The five-whys rule: `왜` or `why` occurs at least twice (counted without overlap). */
  predicate ManyWhys(lowered: string) {
    Count(lowered, "왜") >= 2 || Count(lowered, "why") >= 2
  }

  /** `_get_additional_methods`. */
  function AdditionalMethods(text: string): seq<string> {
    var lowered := Lower(text);
    (if ManyWhys(lowered) then ["five_whys"] else []) + FiredIds(Rules, lowered)
  }

  /**
   * The extra ids have no duplicate, and `five_whys` is among them exactly
   * when `왜` or `why` occurs at least twice in the lower-cased text.
   */
  lemma AdditionalMethodsShape(text: string)
    ensures NoDup(AdditionalMethods(text))
    ensures "five_whys" in AdditionalMethods(text) <==> ManyWhys(Lower(text))
  {
    var lowered := Lower(text);
    RuleTableDisjoint();
    FiredIdsNoDup(Rules, lowered);
    var head: seq<string> := if ManyWhys(lowered) then ["five_whys"] else [];
    FiredIdsMember(Rules, lowered, "five_whys");
    FiveWhysNotInTable();
    NoDupAppend(head, FiredIds(Rules, lowered));
  }

  /**
   * The causal rule adds both `fishbone` and `systems_thinking`, and each of
   * them is added only by it: exactly when `원인`, `cause` or `인과` occurs.
   */
  lemma CausalRuleAddsBoth(text: string)
    ensures Rules[CausalRule].keywords == ["원인", "cause", "인과"]
    ensures "fishbone" in AdditionalMethods(text) <==> AnyContains(Rules[CausalRule].keywords, Lower(text))
    ensures "systems_thinking" in AdditionalMethods(text) <==> AnyContains(Rules[CausalRule].keywords, Lower(text))
  {
    var lowered := Lower(text);
    FiredIdsMember(Rules, lowered, "fishbone");
    FiredIdsMember(Rules, lowered, "systems_thinking");
    CausalIdsOwned();
    assert "fishbone" in Rules[CausalRule].ids && "systems_thinking" in Rules[CausalRule].ids;
  }

  /* ---------------------------------------------------------------------- */
  /* Recommendations                                                         */
  /* ---------------------------------------------------------------------- */

  /** One shortlist entry, copied from the catalog. */
  datatype Recommendation = Recommendation(id: string, name: string, category: string, bestFor: string, steps: int)

  /** `CATEGORY_MAP.get(category, [])` followed by the extra ids. */
  function Candidates(cat: Catalog, c: Category, text: string): seq<string> {
    (if CategoryId(c) in cat.categoryMap then cat.categoryMap[CategoryId(c)] else []) + AdditionalMethods(text)
  }

  /**
   * `order` is the iteration order of a Python `set` built from `xs`: every
   * element of `xs` exactly once, and nothing else. The order itself is
   * left open.
   */
  predicate Enumerates(order: seq<string>, xs: seq<string>) {
    NoDup(order) && (forall x :: x in order ==> x in xs) && (forall x :: x in xs ==> x in order)
  }

  /** The shortlist entry of a catalog method. */
  function Entry(cat: Catalog, id: string): Recommendation
    requires id in cat.methods
  {
    var m := cat.methods[id];
    Recommendation(id, m.name, m.category, m.bestFor, m.steps)
  }

  /** The catalog entries among the ids, in their order, as shortlist entries. */
  function KnownEntries(cat: Catalog, ids: seq<string>): (r: seq<Recommendation>)
    ensures |r| <= |ids|
  {
    if ids == [] then []
    else
      var rest := KnownEntries(cat, ids[1..]);
      if ids[0] in cat.methods then [Entry(cat, ids[0])] + rest else rest
  }

  /** Every entry is the catalog's entry of one of the ids. */
  lemma {:induction false} KnownEntriesSound(cat: Catalog, ids: seq<string>)
    ensures forall k :: 0 <= k < |KnownEntries(cat, ids)| ==>
              var e := KnownEntries(cat, ids)[k]; e.id in ids && e.id in cat.methods && e == Entry(cat, e.id)
  {
    if ids != [] {
      var r := KnownEntries(cat, ids);
      var rest := KnownEntries(cat, ids[1..]);
      KnownEntriesSound(cat, ids[1..]);
      if ids[0] in cat.methods {
        assert r == [Entry(cat, ids[0])] + rest;
        forall k | 0 <= k < |r| ensures r[k].id in ids && r[k].id in cat.methods && r[k] == Entry(cat, r[k].id) {
          if k > 0 {
            assert r[k] == rest[k - 1] && rest[k - 1].id in ids[1..];
          }
        }
      } else {
        forall k | 0 <= k < |r| ensures r[k].id in ids && r[k].id in cat.methods && r[k] == Entry(cat, r[k].id) {
          assert r[k] == rest[k] && rest[k].id in ids[1..];
        }
      }
    }
  }

  /** Every id the catalog knows gets its entry. */
  lemma {:induction false} KnownEntriesComplete(cat: Catalog, ids: seq<string>, id: string)
    requires id in ids && id in cat.methods
    ensures exists k :: 0 <= k < |KnownEntries(cat, ids)| && KnownEntries(cat, ids)[k].id == id
  {
    var r := KnownEntries(cat, ids);
    if id == ids[0] {
      assert r[0].id == id;
    } else {
      assert id in ids[1..];
      KnownEntriesComplete(cat, ids[1..], id);
      var rest := KnownEntries(cat, ids[1..]);
      var k :| 0 <= k < |rest| && rest[k].id == id;
      if ids[0] in cat.methods {
        assert r[k + 1] == rest[k];
      } else {
        assert r[k] == rest[k];
      }
    }
  }

  /** Ids without repeats give entries without repeats. */
  lemma {:induction false} KnownEntriesDistinct(cat: Catalog, ids: seq<string>, k: nat, l: nat)
    requires NoDup(ids)
    requires k < l < |KnownEntries(cat, ids)|
    ensures KnownEntries(cat, ids)[k].id != KnownEntries(cat, ids)[l].id
  {
    var r := KnownEntries(cat, ids);
    var tail := ids[1..];
    var rest := KnownEntries(cat, tail);
    NoDupTail(ids);
    if ids[0] !in cat.methods {
      assert r == rest;
      KnownEntriesDistinct(cat, tail, k, l);
    } else if k == 0 {
      HeadEntryDistinct(cat, ids, l);
    } else {
      assert r == [Entry(cat, ids[0])] + rest;
      assert r[k] == rest[k - 1] && r[l] == rest[l - 1];
      KnownEntriesDistinct(cat, tail, k - 1, l - 1);
    }
  }

  /** The entry of the first id differs from every later entry. */
  lemma HeadEntryDistinct(cat: Catalog, ids: seq<string>, l: nat)
    requires NoDup(ids) && ids != [] && ids[0] in cat.methods
    requires 0 < l < |KnownEntries(cat, ids)|
    ensures KnownEntries(cat, ids)[0].id != KnownEntries(cat, ids)[l].id
  {
    var rest := KnownEntries(cat, ids[1..]);
    assert KnownEntries(cat, ids) == [Entry(cat, ids[0])] + rest;
    KnownEntriesSound(cat, ids[1..]);
    HeadNotInTail(ids, rest[l - 1].id);
  }

  /** Entries come in the order of their ids. */
  lemma {:induction false} KnownEntriesOrdered(cat: Catalog, ids: seq<string>, k: nat, l: nat)
    requires NoDup(ids)
    requires k < l < |KnownEntries(cat, ids)|
    ensures var r := KnownEntries(cat, ids);
            r[k].id in ids && r[l].id in ids && IndexOf(ids, r[k].id) < IndexOf(ids, r[l].id)
  {
    var tail := ids[1..];
    var rest := KnownEntries(cat, tail);
    NoDupTail(ids);
    if ids[0] !in cat.methods {
      KnownEntriesOrdered(cat, tail, k, l);
      IdOfLaterEntry(ids, rest[k].id);
      IdOfLaterEntry(ids, rest[l].id);
    } else if k == 0 {
      HeadEntryFirst(cat, ids, l);
    } else {
      KnownEntriesOrdered(cat, tail, k - 1, l - 1);
      IdOfLaterEntry(ids, rest[k - 1].id);
      IdOfLaterEntry(ids, rest[l - 1].id);
    }
  }

  /** The entry of the first id comes before every later entry. */
  lemma HeadEntryFirst(cat: Catalog, ids: seq<string>, l: nat)
    requires NoDup(ids) && ids != [] && ids[0] in cat.methods
    requires 0 < l < |KnownEntries(cat, ids)|
    ensures var r := KnownEntries(cat, ids);
            r[0].id in ids && r[l].id in ids && IndexOf(ids, r[0].id) < IndexOf(ids, r[l].id)
  {
    var rest := KnownEntries(cat, ids[1..]);
    assert KnownEntries(cat, ids) == [Entry(cat, ids[0])] + rest;
    KnownEntriesSound(cat, ids[1..]);
    IdOfLaterEntry(ids, rest[l - 1].id);
  }

  /** An id of the tail of a list without repeats sits one further on in the whole list. */
  lemma IdOfLaterEntry(ids: seq<string>, id: string)
    requires ids != [] && NoDup(ids) && id in ids[1..]
    ensures id in ids && IndexOf(ids, id) == 1 + IndexOf(ids[1..], id)
  {
    HeadNotInTail(ids, id);
    IndexOfTail(ids, id);
  }

  /** The ids of entries `k` and `l` are in `order`, that of `k` first. */
  predicate OrderedPair(r: seq<Recommendation>, order: seq<string>, k: nat, l: nat)
    requires k < |r| && l < |r|
  {
    r[k].id in order && r[l].id in order && IndexOf(order, r[k].id) < IndexOf(order, r[l].id)
  }

  /** Every id of `r` is in `order`, and a later entry's id comes later in `order`. */
  predicate InOrder(r: seq<Recommendation>, order: seq<string>) {
    forall k: nat, l: nat :: k < l < |r| ==> OrderedPair(r, order, k, l)
  }

  /** Entries come in the order of their ids, all of them. */
  lemma KnownEntriesInOrder(cat: Catalog, ids: seq<string>)
    requires NoDup(ids)
    ensures InOrder(KnownEntries(cat, ids), ids)
  {
    var r := KnownEntries(cat, ids);
    forall k: nat, l: nat | k < l < |r| ensures OrderedPair(r, ids, k, l) {
      KnownEntriesOrdered(cat, ids, k, l);
    }
  }

  /** An order on a prefix of a list without repeats is an order on the whole list. */
  lemma InOrderOfPrefix(r: seq<Recommendation>, order: seq<string>, n: nat)
    requires NoDup(order) && InOrder(r, Take(order, n))
    ensures InOrder(r, order)
  {
    forall k: nat, l: nat | k < l < |r| ensures OrderedPair(r, order, k, l) {
      var p := Take(order, n);
      assert OrderedPair(r, p, k, l);
      IndexOfTake(order, n, r[k].id);
      IndexOfTake(order, n, r[l].id);
    }
  }

  /** The head of an ordered list is ordered. */
  lemma TakeInOrder(r: seq<Recommendation>, order: seq<string>, n: nat)
    requires InOrder(r, order)
    ensures InOrder(Take(r, n), order)
  {
    var t := Take(r, n);
    forall k: nat, l: nat | k < l < |t| ensures OrderedPair(t, order, k, l) {
      assert OrderedPair(r, order, k, l);
      assert t[k] == r[k] && t[l] == r[l];
    }
  }

  /** `_get_recommended_methods`, given the iteration order of the candidate set. */
  function RecommendedMethods(cat: Catalog, c: Category, text: string, order: seq<string>): (r: seq<Recommendation>)
    requires Enumerates(order, Candidates(cat, c, text))
    ensures |r| <= 5
    ensures forall k :: 0 <= k < |r| ==>
              r[k].id in cat.methods && r[k].id in Candidates(cat, c, text) && r[k] == Entry(cat, r[k].id)
    // the cut to five comes before the catalog filter
    ensures forall k :: 0 <= k < |r| ==> r[k].id in Take(order, 5)
    ensures forall k, l :: 0 <= k < l < |r| ==> r[k].id != r[l].id
    ensures forall id :: id in Take(order, 5) && id in cat.methods ==> exists k :: 0 <= k < |r| && r[k].id == id
    // the entries keep the set's order
    ensures InOrder(r, order)
  {
    var first := Take(order, 5);
    NoDupTake(order, 5);
    var r := KnownEntries(cat, first);
    KnownEntriesSound(cat, first);
    assert forall k, l :: 0 <= k < l < |r| ==> r[k].id != r[l].id by {
      forall k, l | 0 <= k < l < |r| ensures r[k].id != r[l].id {
        KnownEntriesDistinct(cat, first, k, l);
      }
    }
    assert forall id :: id in first && id in cat.methods ==> exists k :: 0 <= k < |r| && r[k].id == id by {
      forall id | id in first && id in cat.methods ensures exists k :: 0 <= k < |r| && r[k].id == id {
        KnownEntriesComplete(cat, first, id);
      }
    }
    KnownEntriesInOrder(cat, first);
    InOrderOfPrefix(r, order, 5);
    r
  }

  /* ---------------------------------------------------------------------- */
  /* classify                                                                */
  /* ---------------------------------------------------------------------- */

  /** The confidence label of the reasoning sentence. */
  function Level(confidence: real): string {
    if confidence > 0.5 then "높음" else if confidence > 0.3 then "중간" else "낮음"
  }

  /** `_generate_reasoning`. */
  function Reasoning(c: Category, confidence: real): string {
    "귀하의 문제는 '" + CategoryName(c) + "'이 필요합니다. (신뢰도: " + Level(confidence) + ")"
  }

  datatype Classification = Classification(
    category: Category,
    confidence: real,
    recommended: seq<Recommendation>,
    reasoning: string
  )

  /** The first three recommendations: catalog methods among the candidates, without repeats. */
  function Shortlist(cat: Catalog, c: Category, text: string, order: seq<string>): (r: seq<Recommendation>)
    requires Enumerates(order, Candidates(cat, c, text))
    ensures |r| <= 3
    ensures r == Take(RecommendedMethods(cat, c, text, order), 3)
    ensures forall k :: 0 <= k < |r| ==> r[k].id in cat.methods && r[k].id in Candidates(cat, c, text)
    ensures forall k, l :: 0 <= k < l < |r| ==> r[k].id != r[l].id
    ensures InOrder(r, order)
  {
    var all := RecommendedMethods(cat, c, text, order);
    var top := Take(all, 3);
    assert forall k :: 0 <= k < |top| ==> top[k] == all[k];
    TakeInOrder(all, order, 3);
    top
  }

  /** `classify`, given the iteration order of the candidate set of the winning category. */
  function Classify(cat: Catalog, text: string, order: seq<string>): (r: Classification)
    requires Enumerates(order, Candidates(cat, BestCategory(text), text))
    ensures 0.0 <= r.confidence <= 1.0
    ensures |r.recommended| <= 3
    ensures forall k :: 0 <= k < |r.recommended| ==>
              r.recommended[k].id in cat.methods && r.recommended[k].id in Candidates(cat, r.category, text)
    ensures forall k, l :: 0 <= k < l < |r.recommended| ==> r.recommended[k].id != r.recommended[l].id
    ensures r.reasoning == Reasoning(r.category, r.confidence)
    // the winning category, and its share of all keyword hits
    ensures r.category == BestCategory(text)
    ensures r.confidence == Confidence(Scores(text), ArgMax(Scores(text)))
  {
    var c := BestCategory(text);
    var scores := Scores(text);
    var confidence := Confidence(scores, ArgMax(scores));
    ConfidenceRange(scores);
    Classification(c, confidence, Shortlist(cat, c, text, order), Reasoning(c, confidence))
  }

  /**
   * The chosen category has the highest score, with ties going to the
   * category declared first, and the shortlist is the head of the
   * recommendations for it.
   */
  lemma ClassifyChoosesFirstMaximum(cat: Catalog, text: string, order: seq<string>)
    requires Enumerates(order, Candidates(cat, BestCategory(text), text))
    ensures var r := Classify(cat, text, order);
            && r.category == BestCategory(text)
            && (forall j :: 0 <= j < |Categories| ==> Score(Categories[j], text) <= Score(r.category, text))
            && (forall j :: 0 <= j < |Categories| && Categories[j] != r.category && Score(Categories[j], text) == Score(r.category, text)
                  ==> exists b :: 0 <= b < |Categories| && Categories[b] == r.category && b < j)
            && r.recommended == Shortlist(cat, r.category, text, order)
  {
    BestCategoryIsFirstMaximum(text);
    var b := ArgMax(Scores(text));
    var r := Classify(cat, text, order);
    assert r.category == Categories[b];
    forall j | 0 <= j < |Categories| && Categories[j] != r.category && Score(Categories[j], text) == Score(r.category, text)
      ensures exists b' :: 0 <= b' < |Categories| && Categories[b'] == r.category && b' < j
    {
      assert j != b;
      assert !(j < b);
    }
  }

  /** When only the best category has keyword hits, the confidence is 1. */
  lemma SoleHitIsCertain(text: string)
    requires Score(BestCategory(text), text) > 0
    requires forall j :: 0 <= j < |Categories| && Categories[j] != BestCategory(text) ==> Score(Categories[j], text) == 0
    ensures Confidence(Scores(text), ArgMax(Scores(text))) == 1.0
  {
    var xs := Scores(text);
    var b := ArgMax(xs);
    BestCategoryIsFirstMaximum(text);
    ConfidenceRange(xs);
    forall j | 0 <= j < |xs| && j != b ensures xs[j] == 0 {
      IndexOfListed(j);
      IndexOfListed(b);
    }
  }

  /**
   * The label follows the confidence: a sole-category hit is "높음", and a
   * text with no keyword at all is "낮음".
   */
  lemma LevelOfExtremes(cat: Catalog, text: string, order: seq<string>)
    requires Enumerates(order, Candidates(cat, BestCategory(text), text))
    ensures var r := Classify(cat, text, order);
            (Score(r.category, text) > 0
             && forall j :: 0 <= j < |Categories| && Categories[j] != r.category ==> Score(Categories[j], text) == 0)
            ==> r.confidence == 1.0 && Level(r.confidence) == "높음"
    ensures var r := Classify(cat, text, order);
            (forall j :: 0 <= j < |Categories| ==> Score(Categories[j], text) == 0) ==>
              r.category == Analytical && r.confidence == 0.0 && Level(r.confidence) == "낮음"
  {
    var r := Classify(cat, text, order);
    if Score(r.category, text) > 0
       && forall j :: 0 <= j < |Categories| && Categories[j] != r.category ==> Score(Categories[j], text) == 0
    {
      SoleHitIsCertain(text);
    }
    if forall j :: 0 <= j < |Categories| ==> Score(Categories[j], text) == 0 {
      NoKeywordIsAnalytical(text);
    }
  }
}
