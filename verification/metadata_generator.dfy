/**
 * YAML front matter for the knowledge files (`knowledge/_metadata_generator.py`).
 *
 * Each knowledge file has a metadata entry; `GenerateFrontmatter` renders it
 * as a `---`-delimited block of `key: value` lines and bulleted lists, and
 * `ReplaceFrontmatter` drops any block a file already starts with and puts
 * the new one in front. Files are strings; reading and writing them is
 * outside the model.
 */
module MetadataGenerator {
  import opened Basics
  import opened Strings

  /* ---------------------------------------------------------------------- */
  /* Entries                                                                 */
  /* ---------------------------------------------------------------------- */

  /** One file's metadata; `origin == ""` stands for an entry without an origin. */
  datatype MetaEntry = MetaEntry(
    id: string,
    title: string,
    category: string,
    difficulty: string,
    timeRequired: string,
    groupSize: string,
    related: seq<string>,
    complementary: seq<string>,
    keywords: seq<string>,
    useCases: seq<string>,
    origin: string
  )

  /** Category ids and their Korean names. */
  const Categories: map<string, string> := map[
    "question_inquiry" := "질문/탐구",
    "creative_divergent" := "창의적 발산",
    "analysis_convergent" := "분석/수렴",
    "strategy_planning" := "전략/계획",
    "problem_solving" := "문제해결",
    "innovation_design" := "혁신/디자인",
    "visualization" := "시각화",
    "decision_making" := "의사결정",
    "intuitive_creative" := "직관적 사고",
    "group_collaboration" := "그룹/협업",
    "structured_thinking" := "구조화 사고",
    "root_cause" := "근본원인 분석"
  ]

  /** The Korean name of a category, or the category itself when it has none. */
  function CategoryKr(category: string): (r: string)
    ensures category in Categories ==> r == Categories[category]
    ensures category !in Categories ==> r == category
  {
    if category in Categories then Categories[category] else category
  }

  const JobsKey := "05-Jobs-To-Be-Done"
  const ValueKey := "12-Value-Proposition-Canvas"
  const LeanKey := "13-Lean-Canvas"
  const JobsDetailedKey := "45-Jobs-to-be-Done"
  const ValueDetailedKey := "46-Value-Proposition-Canvas"
  const LeanDetailedKey := "47-Lean-Canvas"

  /** The entries the detailed files are derived from. */
  const BaseEntries: map<string, MetaEntry> := map[
    JobsKey := MetaEntry(
      "jobs-to-be-done", "Jobs-To-Be-Done (JTBD)", "innovation_design", "intermediate", "1-3시간", "3-8명",
      ["44-Design-Thinking", "12-Value-Proposition-Canvas", "11-Business-Model-Canvas"],
      ["17-Stakeholder-Mapping", "52-SWOT-Analysis"],
      ["고객", "니즈", "Job", "Outcome", "혁신"],
      ["제품 개발", "시장 분석", "고객 이해", "혁신 전략"],
      "Clayton Christensen"),
    ValueKey := MetaEntry(
      "value-proposition-canvas", "Value Proposition Canvas (가치제안 캔버스)", "innovation_design", "intermediate",
      "1-2시간", "2-6명",
      ["11-Business-Model-Canvas", "05-Jobs-To-Be-Done", "44-Design-Thinking"],
      ["17-Stakeholder-Mapping", "52-SWOT-Analysis"],
      ["가치제안", "고객", "Pain", "Gain", "Product-Market Fit"],
      ["제품 설계", "마케팅", "고객 이해", "차별화"],
      "Alexander Osterwalder"),
    LeanKey := MetaEntry(
      "lean-canvas", "Lean Canvas (린 캔버스)", "strategy_planning", "intermediate", "30-60분", "1-5명",
      ["11-Business-Model-Canvas", "12-Value-Proposition-Canvas", "42-Agile-Framework"],
      ["07-Assumption-Testing", "48-Pre-Mortem"],
      ["린스타트업", "MVP", "Problem-Solution Fit", "스타트업"],
      ["스타트업", "신제품", "린 방법론", "빠른 검증"],
      "Ash Maurya")
  ]

  /** The detailed files: copies of their base entries under a new id. */
  function Derive(meta: map<string, MetaEntry>): (r: map<string, MetaEntry>)
    requires JobsKey in meta && ValueKey in meta && LeanKey in meta
    ensures r.Keys == meta.Keys + {JobsDetailedKey, ValueDetailedKey, LeanDetailedKey}
  {
    meta[JobsDetailedKey := meta[JobsKey].(id := "jobs-to-be-done-detailed")]
        [ValueDetailedKey := meta[ValueKey].(id := "value-proposition-canvas-detailed")]
        [LeanDetailedKey := meta[LeanKey].(id := "lean-canvas-detailed")]
  }

  /** The metadata table, as far as it is modelled. */
  const Metadata: map<string, MetaEntry> := Derive(BaseEntries)

  /** `detailed` is `base` under another id. */
  predicate SameButId(detailed: MetaEntry, base: MetaEntry) {
    detailed.(id := base.id) == base && detailed.id != base.id
  }

  /** Each detailed entry equals its base entry in every field but the id, and the ids differ. */
  lemma DetailedEntriesDifferOnlyInId()
    ensures SameButId(Metadata[JobsDetailedKey], Metadata[JobsKey])
    ensures SameButId(Metadata[ValueDetailedKey], Metadata[ValueKey])
    ensures SameButId(Metadata[LeanDetailedKey], Metadata[LeanKey])
  {
    assert Metadata[JobsKey].id == "jobs-to-be-done";
    assert Metadata[ValueKey].id == "value-proposition-canvas";
    assert Metadata[LeanKey].id == "lean-canvas";
  }

  /* ---------------------------------------------------------------------- */
  /* Rendering                                                               */
  /* ---------------------------------------------------------------------- */

  /** One `  - item` line per element, in order. */
  function Bullets(xs: seq<string>): (r: seq<string>)
    ensures |r| == |xs|
    ensures forall i :: 0 <= i < |xs| ==> r[i] == "  - " + xs[i]
  {
    seq(|xs|, i requires 0 <= i < |xs| => "  - " + xs[i])
  }

  /** The scalar fields, then the heading of the first list. */
  function HeaderLines(e: MetaEntry): seq<string> {
    [ "id: " + e.id,
      "title: " + e.title,
      "category: " + e.category,
      "category_kr: " + CategoryKr(e.category),
      "difficulty: " + e.difficulty,
      "time_required: " + e.timeRequired,
      "group_size: " + e.groupSize,
      "",
      "related_methods:" ]
  }

  /** The origin line, after a blank line, when there is an origin. */
  function OriginLines(origin: string): seq<string> {
    if origin != "" then ["", "origin: " + origin] else []
  }

  /** The lists under their headings. */
  function Lists(e: MetaEntry): seq<string> {
    Bullets(e.related)
    + ["", "complementary_methods:"] + Bullets(e.complementary)
    + ["", "keywords:"] + Bullets(e.keywords)
    + ["", "use_cases:"] + Bullets(e.useCases)
  }

  /** The lists, then the origin. */
  function ListLines(e: MetaEntry): seq<string> {
    Lists(e) + OriginLines(e.origin)
  }

  /** Everything between the two `---` lines. */
  function BodyLines(e: MetaEntry): seq<string> {
    HeaderLines(e) + ListLines(e)
  }

  const Delimiter := "---"

  /** The lines `generate_frontmatter` joins: the body between two delimiters, and a final empty line. */
  function FrontmatterLines(e: MetaEntry): seq<string> {
    [Delimiter] + BodyLines(e) + [Delimiter, ""]
  }

  function Render(e: MetaEntry): string {
    Join("\n", FrontmatterLines(e))
  }

  /** `generate_frontmatter`: nothing for a file without metadata. */
  function GenerateFrontmatter(meta: map<string, MetaEntry>, key: string): (r: Option<string>)
    ensures r.None? <==> key !in meta
    ensures r.Some? ==> r.value == Render(meta[key])
  {
    if key !in meta then None else Some(Render(meta[key]))
  }

  /** Joining two non-empty lists joins their joins. */
  lemma {:induction false} JoinAppend(sep: string, xs: seq<string>, ys: seq<string>)
    requires xs != [] && ys != []
    ensures Join(sep, xs + ys) == Join(sep, xs) + sep + Join(sep, ys)
    decreases |xs|
  {
    if |xs| == 1 {
      assert (xs + ys)[1..] == ys;
    } else {
      assert (xs + ys)[1..] == xs[1..] + ys;
      JoinAppend(sep, xs[1..], ys);
    }
  }

  /** The rendered block is the body between a `---` line and a closing `---` line with its newline. */
  lemma RenderFrame(e: MetaEntry)
    ensures Render(e) == "---\n" + Join("\n", BodyLines(e)) + "\n---\n"
  {
    var body := BodyLines(e);
    assert |body| >= 9;
    JoinAppend("\n", [Delimiter], body + [Delimiter, ""]);
    assert [Delimiter] + body + [Delimiter, ""] == [Delimiter] + (body + [Delimiter, ""]);
    JoinAppend("\n", body, [Delimiter, ""]);
    assert Join("\n", [Delimiter, ""]) == Delimiter + "\n" + "";
  }

  /** The block opens with a `---` line and ends with a `---` line and its newline. */
  lemma RenderDelimited(e: MetaEntry)
    ensures StartsWith(Render(e), "---\n") && EndsWith(Render(e), "---\n")
  {
    RenderFrame(e);
    var j := Join("\n", BodyLines(e));
    assert Render(e) == "---\n" + (j + "\n---\n");
    assert Render(e) == ("---\n" + j + "\n") + "---\n";
  }

  /** The frame of the block: its length, its delimiters and the Korean category line. */
  lemma FrontmatterFrame(e: MetaEntry)
    ensures var ls := FrontmatterLines(e);
            && |ls| == 10 + |Lists(e)| + |OriginLines(e.origin)| + 2
            && ls[0] == Delimiter && ls[|ls| - 2] == Delimiter && ls[|ls| - 1] == ""
            && ls[4] == "category_kr: " + CategoryKr(e.category)
  {
  }

  /** The list lines sit at offset 10 of the block. */
  lemma FrontmatterSlice(e: MetaEntry, a: nat, b: nat)
    requires a <= b <= |Lists(e)|
    ensures FrontmatterLines(e)[10 + a..10 + b] == Lists(e)[a..b]
  {
    assert |HeaderLines(e)| == 9;
    NestedSlice([Delimiter], HeaderLines(e), Lists(e), OriginLines(e.origin), [Delimiter, ""], a, b);
  }

  /** A slice of the innermost middle part of the shape a block's lines have. */
  lemma NestedSlice<T>(d: seq<T>, h: seq<T>, l: seq<T>, o: seq<T>, t: seq<T>, a: nat, b: nat)
    requires a <= b <= |l|
    ensures (d + (h + (l + o)) + t)[|d| + |h| + a..|d| + |h| + b] == l[a..b]
  {
    var s := d + (h + (l + o)) + t;
    assert forall i :: |d| + |h| + a <= i < |d| + |h| + b ==> s[i] == l[i - |d| - |h|];
  }

  /** The origin lines follow the list lines. */
  lemma OriginSlice(e: MetaEntry)
    ensures var o0 := 10 + |Lists(e)|;
            FrontmatterLines(e)[o0..o0 + |OriginLines(e.origin)|] == OriginLines(e.origin)
  {
    var pre := [Delimiter] + HeaderLines(e) + Lists(e);
    assert FrontmatterLines(e) == pre + OriginLines(e.origin) + [Delimiter, ""];
    SliceShift(pre, OriginLines(e.origin), [Delimiter, ""], 0, |OriginLines(e.origin)|);
  }

  /** A slice of the middle part of a concatenation, at its offset. */
  lemma SliceShift<T>(pre: seq<T>, mid: seq<T>, post: seq<T>, a: nat, b: nat)
    requires a <= b <= |mid|
    ensures (pre + mid + post)[|pre| + a..|pre| + b] == mid[a..b]
  {
    var s := pre + mid + post;
    assert forall i :: |pre| + a <= i < |pre| + b ==> s[i] == mid[i - |pre|];
  }

  /** Where each list and heading sits among the list lines. */
  lemma ListsLayout(e: MetaEntry)
    ensures var ls := Lists(e);
            var c0 := |e.related| + 2;
            var k0 := c0 + |e.complementary| + 2;
            var u0 := k0 + |e.keywords| + 2;
            && |ls| == u0 + |e.useCases|
            && ls[..|e.related|] == Bullets(e.related)
            && ls[c0 - 1] == "complementary_methods:" && ls[c0..k0 - 2] == Bullets(e.complementary)
            && ls[k0 - 1] == "keywords:" && ls[k0..u0 - 2] == Bullets(e.keywords)
            && ls[u0 - 1] == "use_cases:" && ls[u0..] == Bullets(e.useCases)
  {
    var ls := Lists(e);
    var a := Bullets(e.related) + ["", "complementary_methods:"];
    var b := Bullets(e.complementary) + ["", "keywords:"];
    var c := Bullets(e.keywords) + ["", "use_cases:"];
    assert ls == a + b + c + Bullets(e.useCases);
    SliceShift([], a + b + c, Bullets(e.useCases), 0, |Bullets(e.related)|);
    SliceShift(a, b, c + Bullets(e.useCases), 0, |e.complementary|);
    SliceShift(a + b, c, Bullets(e.useCases), 0, |e.keywords|);
    assert (a + b + c) + Bullets(e.useCases) == ls;
  }

  /** Entries that differ only in their id render blocks that differ only in the id line. */
  lemma OnlyIdLineDiffers(detailed: MetaEntry, base: MetaEntry)
    requires detailed.(id := base.id) == base
    ensures FrontmatterLines(detailed) == FrontmatterLines(base)[1 := "id: " + detailed.id]
  {
    assert HeaderLines(detailed) == HeaderLines(base)[0 := "id: " + detailed.id];
    assert ListLines(detailed) == ListLines(base);
  }

  /** A line that does not begin with `o`. */
  predicate NotOrigin(line: string) {
    line == [] || line[0] != 'o'
  }

  /** Lines none of which begins with `o`. */
  predicate NoOriginLine(ls: seq<string>) {
    forall i :: 0 <= i < |ls| ==> NotOrigin(ls[i])
  }

  lemma NoOriginLineAppend(a: seq<string>, b: seq<string>)
    requires NoOriginLine(a) && NoOriginLine(b)
    ensures NoOriginLine(a + b)
  {
    forall i | 0 <= i < |a + b| ensures NotOrigin((a + b)[i]) {
      if i < |a| {
        assert (a + b)[i] == a[i];
      } else {
        assert (a + b)[i] == b[i - |a|];
      }
    }
  }

  /** No line of the lists begins with `o`. */
  lemma ListsNotOrigin(e: MetaEntry)
    ensures NoOriginLine(Lists(e))
  {
    var c := Bullets(e.related) + ["", "complementary_methods:"];
    NoOriginLineAppend(Bullets(e.related), ["", "complementary_methods:"]);
    NoOriginLineAppend(c, Bullets(e.complementary));
    var k := c + Bullets(e.complementary) + ["", "keywords:"];
    NoOriginLineAppend(c + Bullets(e.complementary), ["", "keywords:"]);
    NoOriginLineAppend(k, Bullets(e.keywords));
    var u := k + Bullets(e.keywords) + ["", "use_cases:"];
    NoOriginLineAppend(k + Bullets(e.keywords), ["", "use_cases:"]);
    NoOriginLineAppend(u, Bullets(e.useCases));
  }

  /** The lines other than the origin line: none begins with `o`. */
  lemma OthersAreNotOrigin(e: MetaEntry)
    ensures NoOriginLine([Delimiter] + HeaderLines(e) + Lists(e))
    ensures NoOriginLine([Delimiter, ""])
  {
    assert NoOriginLine(HeaderLines(e));
    NoOriginLineAppend([Delimiter], HeaderLines(e));
    ListsNotOrigin(e);
    NoOriginLineAppend([Delimiter] + HeaderLines(e), Lists(e));
  }

  /** The block has an `origin:` line exactly when the entry has an origin. */
  lemma OriginLineIffOrigin(e: MetaEntry)
    ensures (exists i :: 0 <= i < |FrontmatterLines(e)| && StartsWith(FrontmatterLines(e)[i], "origin: "))
            <==> e.origin != ""
  {
    var ls := FrontmatterLines(e);
    var pre := [Delimiter] + HeaderLines(e) + Lists(e);
    assert ls == pre + OriginLines(e.origin) + [Delimiter, ""];
    OthersAreNotOrigin(e);
    if e.origin != "" {
      assert ls[|pre| + 1] == "origin: " + e.origin;
      assert StartsWith(ls[|pre| + 1], "origin: ");
    } else {
      NoOriginLineAppend(pre, [Delimiter, ""]);
      assert ls == pre + [Delimiter, ""];
      forall i | 0 <= i < |ls| ensures !StartsWith(ls[i], "origin: ") {
        assert NotOrigin(ls[i]);
      }
    }
  }

  /* ---------------------------------------------------------------------- */
  /* Replacing the block of a file                                           */
  /* ---------------------------------------------------------------------- */

  /** The content with an existing block removed: from the start through the next `---` after index 3, then leading space. */
  function StripFrontmatter(content: string): (r: string)
    ensures !StartsWith(content, Delimiter) ==> r == content
  {
    if StartsWith(content, Delimiter) then
      var close := Find(content, Delimiter, 3);
      if close != -1 then LStrip(content[close + 3..]) else content
    else content
  }

  /** The file with its block replaced by `frontmatter`. */
  function ReplaceFrontmatter(frontmatter: string, content: string): (r: string)
    ensures StartsWith(r, frontmatter)
  {
    frontmatter + StripFrontmatter(content)
  }

  /** `process_file` on a file's content: nothing for a file without metadata. */
  function ProcessContent(meta: map<string, MetaEntry>, key: string, content: string): (r: Option<string>)
    ensures r.None? <==> key !in meta
    ensures r.Some? ==> StartsWith(r.value, Render(meta[key]))
  {
    var frontmatter :- GenerateFrontmatter(meta, key);
    Some(ReplaceFrontmatter(frontmatter, content))
  }

  /* ---------------------------------------------------------------------- */
  /* Running the replacement twice                                           */
  /* ---------------------------------------------------------------------- */

  ghost predicate Clean(s: string) {
    !Occurs(s, Delimiter)
  }

  ghost predicate AllClean(xs: seq<string>) {
    forall i :: 0 <= i < |xs| ==> Clean(xs[i])
  }

  /** No value of the entry holds `---`. */
  ghost predicate NoDelimiter(e: MetaEntry) {
    && Clean(e.id) && Clean(e.title) && Clean(e.category) && Clean(e.difficulty)
    && Clean(e.timeRequired) && Clean(e.groupSize) && Clean(e.origin)
    && AllClean(e.related) && AllClean(e.complementary) && AllClean(e.keywords) && AllClean(e.useCases)
  }

  /** A text without `-` holds no `---`. */
  lemma DashFree(s: string)
    requires forall i :: 0 <= i < |s| ==> s[i] != '-'
    ensures Clean(s)
  {
    AbsentChar(s, Delimiter, 0);
  }

  /** A character not in the pattern separates: no occurrence can cross it. */
  lemma Separated(a: string, c: char, b: string, t: string)
    requires !Occurs(a, t) && !Occurs(b, t)
    requires forall k :: 0 <= k < |t| ==> t[k] != c
    ensures !Occurs(a + [c] + b, t)
  {
    var s := a + [c] + b;
    forall i | 0 <= i && i + |t| <= |s| ensures !OccursAt(s, t, i) {
      if i + |t| <= |a| {
        assert s[i..i + |t|] == a[i..i + |t|];
        assert !OccursAt(a, t, i);
      } else if i > |a| {
        assert s[i..i + |t|] == b[i - |a| - 1..i - |a| - 1 + |t|];
        assert !OccursAt(b, t, i - |a| - 1);
      } else {
        assert s[i..i + |t|][|a| - i] == c;
      }
    }
  }

  /** A key without `-`, ending in a space, followed by a clean value is clean. */
  lemma KeyValueClean(key: string, value: string)
    requires key != [] && key[|key| - 1] == ' '
    requires forall i :: 0 <= i < |key| ==> key[i] != '-'
    requires Clean(value)
    ensures Clean(key + value)
  {
    var k := key[..|key| - 1];
    DashFree(k);
    Separated(k, ' ', value, Delimiter);
    assert key + value == k + [' '] + value;
  }

  /** Joining clean lines with newlines gives a clean text. */
  lemma {:induction false} JoinClean(xs: seq<string>)
    requires AllClean(xs)
    ensures Clean(Join("\n", xs))
    decreases |xs|
  {
    if xs == [] {
      TooLong([], Delimiter);
    } else if |xs| > 1 {
      JoinClean(xs[1..]);
      Separated(xs[0], '\n', Join("\n", xs[1..]), Delimiter);
      assert xs[0] + "\n" + Join("\n", xs[1..]) == xs[0] + ['\n'] + Join("\n", xs[1..]);
    }
  }

  lemma AllCleanAppend(xs: seq<string>, ys: seq<string>)
    requires AllClean(xs) && AllClean(ys)
    ensures AllClean(xs + ys)
  {
  }

  /** The Korean category names hold no `-`. */
  lemma CategoryNamesClean(category: string)
    requires Clean(category)
    ensures Clean(CategoryKr(category))
  {
    if category in Categories {
      var name := Categories[category];
      assert forall i :: 0 <= i < |name| ==> name[i] != '-';
      DashFree(name);
    }
  }

  lemma BulletsClean(xs: seq<string>)
    requires AllClean(xs)
    ensures AllClean(Bullets(xs))
  {
    var dash := "  -";
    forall i | 0 <= i && i + 3 <= |dash| ensures !OccursAt(dash, Delimiter, i) {
      assert dash[i..i + 3][0] == ' ';
    }
    forall i | 0 <= i < |xs| ensures Clean(Bullets(xs)[i]) {
      Separated(dash, ' ', xs[i], Delimiter);
      assert Bullets(xs)[i] == dash + [' '] + xs[i];
    }
  }

  lemma HeaderClean(e: MetaEntry)
    requires NoDelimiter(e)
    ensures AllClean(HeaderLines(e))
  {
    KeyValueClean("id: ", e.id);
    KeyValueClean("title: ", e.title);
    KeyValueClean("category: ", e.category);
    CategoryNamesClean(e.category);
    KeyValueClean("category_kr: ", CategoryKr(e.category));
    KeyValueClean("difficulty: ", e.difficulty);
    KeyValueClean("time_required: ", e.timeRequired);
    KeyValueClean("group_size: ", e.groupSize);
    DashFree("");
    DashFree("related_methods:");
  }

  /** Headings and blank lines hold no `-`. */
  lemma HeadingsClean()
    ensures AllClean(["", "complementary_methods:"]) && AllClean(["", "keywords:"]) && AllClean(["", "use_cases:"])
  {
    DashFree("");
    DashFree("complementary_methods:");
    DashFree("keywords:");
    DashFree("use_cases:");
    assert ["", "complementary_methods:"][1] == "complementary_methods:";
    assert ["", "keywords:"][1] == "keywords:";
    assert ["", "use_cases:"][1] == "use_cases:";
  }

  lemma OriginClean(origin: string)
    requires Clean(origin)
    ensures AllClean(OriginLines(origin))
  {
    if origin != "" {
      DashFree("");
      KeyValueClean("origin: ", origin);
    }
  }

  /** An entry without `---` in its values has list lines without `---`. */
  lemma ListsClean(e: MetaEntry)
    requires NoDelimiter(e)
    ensures AllClean(Lists(e))
  {
    HeadingsClean();
    BulletsClean(e.related);
    BulletsClean(e.complementary);
    BulletsClean(e.keywords);
    BulletsClean(e.useCases);
    var a := Bullets(e.related) + ["", "complementary_methods:"];
    AllCleanAppend(Bullets(e.related), ["", "complementary_methods:"]);
    var b := a + Bullets(e.complementary);
    AllCleanAppend(a, Bullets(e.complementary));
    var c := b + ["", "keywords:"];
    AllCleanAppend(b, ["", "keywords:"]);
    var d := c + Bullets(e.keywords);
    AllCleanAppend(c, Bullets(e.keywords));
    var f := d + ["", "use_cases:"];
    AllCleanAppend(d, ["", "use_cases:"]);
    AllCleanAppend(f, Bullets(e.useCases));
    assert Lists(e) == f + Bullets(e.useCases);
  }

  /** An entry without `---` in its values renders a body without `---`. */
  lemma BodyClean(e: MetaEntry)
    requires NoDelimiter(e)
    ensures Clean(Join("\n", BodyLines(e)))
  {
    HeaderClean(e);
    ListsClean(e);
    OriginClean(e.origin);
    AllCleanAppend(HeaderLines(e), Lists(e));
    AllCleanAppend(HeaderLines(e) + Lists(e), OriginLines(e.origin));
    assert BodyLines(e) == HeaderLines(e) + Lists(e) + OriginLines(e.origin);
    JoinClean(BodyLines(e));
  }

  /** Between index 3 and the closing delimiter of a rendered block there is no `---`. */
  lemma NoDelimiterInside(j: string, rest: string)
    requires Clean(j)
    ensures forall i :: 3 <= i < |j| + 5 ==> !OccursAt("---\n" + j + "\n---\n" + rest, Delimiter, i)
  {
    var s := "---\n" + j + "\n---\n" + rest;
    forall i | 3 <= i < |j| + 5 ensures !OccursAt(s, Delimiter, i) {
      if i == 3 {
        assert s[i..i + 3][0] == '\n';
      } else if i + 3 <= |j| + 4 {
        assert s[i..i + 3] == j[i - 4..i - 1];
        assert !OccursAt(j, Delimiter, i - 4);
      } else {
        assert s[i..i + 3][|j| + 4 - i] == '\n';
      }
    }
  }

  /** In a file that starts with a rendered block, the closing delimiter found is the block's own. */
  lemma FindsClosingDelimiter(j: string, rest: string)
    requires Clean(j)
    ensures Find("---\n" + j + "\n---\n" + rest, Delimiter, 3) == |j| + 5
  {
    var s := "---\n" + j + "\n---\n" + rest;
    assert s == ("---\n" + j + "\n") + ("---\n" + rest);
    assert OccursAt(s, Delimiter, |j| + 5);
    NoDelimiterInside(j, rest);
    FindIsFirst(s, Delimiter, 3, |j| + 5);
  }

  /** A space character in front does not change the left strip. */
  lemma LStripSpace(c: char, rest: string)
    requires IsSpace(c)
    ensures LStrip([c] + rest) == LStrip(rest)
  {
    assert ([c] + rest)[1..] == rest;
  }

  /** Removing a block whose body holds no `---` leaves what follows it, without its leading space. */
  lemma StripBlock(j: string, rest: string)
    requires Clean(j)
    ensures StripFrontmatter("---\n" + j + "\n---\n" + rest) == LStrip(rest)
  {
    var s := "---\n" + j + "\n---\n" + rest;
    FindsClosingDelimiter(j, rest);
    assert s[..3] == Delimiter;
    assert s[|j| + 8..] == ['\n'] + rest;
    LStripSpace('\n', rest);
  }

  /** Removing a rendered block from the front leaves the rest without its leading space. */
  lemma StripRendered(e: MetaEntry, rest: string)
    requires NoDelimiter(e)
    ensures StripFrontmatter(Render(e) + rest) == LStrip(rest)
  {
    RenderFrame(e);
    var j := Join("\n", BodyLines(e));
    BodyClean(e);
    assert Render(e) + rest == "---\n" + j + "\n---\n" + rest;
    StripBlock(j, rest);
  }

  /** What is left after stripping starts with no space unless the content was left as it was. */
  lemma StrippedStart(content: string)
    ensures var r := StripFrontmatter(content);
            r == content || r == [] || !IsSpace(r[0])
  {
  }

  /** A text that starts with no space is its own left strip. */
  lemma LStripUnchanged(s: string)
    requires s == [] || !IsSpace(s[0])
    ensures LStrip(s) == s
  {
  }

  /** The second run starts from the block followed by the first run's remainder, and strips that remainder. */
  lemma SecondRun(e: MetaEntry, content: string)
    requires NoDelimiter(e)
    ensures var r := StripFrontmatter(content);
            var once := ReplaceFrontmatter(Render(e), content);
            once == Render(e) + r && ReplaceFrontmatter(Render(e), once) == Render(e) + LStrip(r)
  {
    StripRendered(e, StripFrontmatter(content));
  }

  /** Content that starts with no space comes through the second run unchanged. */
  lemma SecondRunKeeps(e: MetaEntry, content: string)
    requires NoDelimiter(e)
    requires content == [] || !IsSpace(content[0])
    ensures var once := ReplaceFrontmatter(Render(e), content);
            ReplaceFrontmatter(Render(e), once) == once
  {
    SecondRun(e, content);
    StrippedStart(content);
    LStripUnchanged(StripFrontmatter(content));
  }

  /** Content that starts with a space loses it on the second run. */
  lemma SecondRunStrips(e: MetaEntry, content: string)
    requires NoDelimiter(e)
    requires content != [] && IsSpace(content[0])
    ensures var once := ReplaceFrontmatter(Render(e), content);
            ReplaceFrontmatter(Render(e), once) != once
  {
    SecondRun(e, content);
    assert !StartsWith(content, Delimiter) by {
      if |content| >= 3 {
        assert content[..3][0] == content[0];
        assert Delimiter[0] == '-';
      }
    }
    LStripShortens(content);
  }

  /** Leading space makes the left strip shorter. */
  lemma LStripShortens(s: string)
    requires s != [] && IsSpace(s[0])
    ensures |LStrip(s)| < |s|
  {
    assert EndsWith(s[1..], LStrip(s[1..]));
  }

  /**
   * Running the replacement a second time with the same block changes the
   * file exactly when the original content started with a space and had no
   * block: the second run strips that leading space.
   */
  lemma ReplaceTwice(e: MetaEntry, content: string)
    requires NoDelimiter(e)
    ensures var once := ReplaceFrontmatter(Render(e), content);
            (ReplaceFrontmatter(Render(e), once) == once) <==> (content == [] || !IsSpace(content[0]))
  {
    if content == [] || !IsSpace(content[0]) {
      SecondRunKeeps(e, content);
    } else {
      SecondRunStrips(e, content);
    }
  }

  /** A third run never changes what the second produced. */
  lemma ReplaceSettles(e: MetaEntry, content: string)
    requires NoDelimiter(e)
    ensures var once := ReplaceFrontmatter(Render(e), content);
            var twice := ReplaceFrontmatter(Render(e), once);
            ReplaceFrontmatter(Render(e), twice) == twice
  {
    var r := StripFrontmatter(content);
    StripRendered(e, r);
    var l := LStrip(r);
    StripRendered(e, l);
    LStripUnchanged(l);
  }
}
