/**
 * Preparing a parsed knowledge file for upload (`prepare_document`).
 *
 * A parsed file is its front matter (any field may be missing), its body and
 * its file name. The prepared document fills the missing fields with
 * defaults, derives an id from the file name when there is none, splits the
 * Korean title out of a `Title (한국어)` title, and builds the text the
 * search index is fed. The embedding and the upload itself are outside the
 * model.
 */
module UploadKnowledge {
  import opened Basics
  import opened Strings

  /** The front matter of a file; `None` is a missing key. */
  datatype FrontMatter = FrontMatter(
    id: Option<string>,
    title: Option<string>,
    category: Option<string>,
    categoryKr: Option<string>,
    difficulty: Option<string>,
    timeRequired: Option<string>,
    groupSize: Option<string>,
    origin: Option<string>,
    keywords: Option<seq<string>>,
    useCases: Option<seq<string>>,
    relatedMethods: Option<seq<string>>,
    complementaryMethods: Option<seq<string>>
  )

  /** A file after parsing: front matter, body, and the file name without extension. */
  datatype Parsed = Parsed(meta: FrontMatter, content: string, filename: string)

  /** The row uploaded for a file. */
  datatype Document = Document(
    id: string,
    title: string,
    titleKr: Option<string>,
    category: string,
    categoryKr: string,
    difficulty: string,
    timeRequired: string,
    groupSize: string,
    origin: string,
    content: string,
    keywords: seq<string>,
    useCases: seq<string>,
    relatedMethods: seq<string>,
    complementaryMethods: seq<string>,
    searchText: string
  )

  /** How much of the body goes into the search text. */
  const SearchBodyLength: nat := 4000

  /* ---------------------------------------------------------------------- */
  /* Id from the file name                                                   */
  /* ---------------------------------------------------------------------- */

  /** The file name lower-cased, with every space replaced by `-`. */
  function Slug(filename: string): (r: string)
    ensures |r| == |filename|
    ensures forall i :: 0 <= i < |r| ==> r[i] != ' ' && !IsUpper(r[i])
    ensures forall i :: 0 <= i < |r| && filename[i] != ' ' ==> r[i] == LowerChar(filename[i])
    ensures forall i :: 0 <= i < |r| && filename[i] == ' ' ==> r[i] == '-'
  {
    var lowered := Lower(filename);
    seq(|lowered|, i requires 0 <= i < |lowered| => if lowered[i] == ' ' then '-' else lowered[i])
  }

  /** A slug is its own slug. */
  lemma SlugIdempotent(filename: string)
    ensures Slug(Slug(filename)) == Slug(filename)
  {
    var s := Slug(filename);
    forall i | 0 <= i < |s| ensures Slug(s)[i] == s[i] {
      assert LowerChar(s[i]) == s[i];
    }
  }

  /* ---------------------------------------------------------------------- */
  /* Korean title                                                            */
  /* ---------------------------------------------------------------------- */

  /** What follows the last `c` in `s`, or all of `s` when there is none (`s.split(c)[-1]`). */
  function AfterLast(s: string, c: char): (r: string)
    ensures EndsWith(s, r)
    ensures forall i :: 0 <= i < |r| ==> r[i] != c
    ensures |r| < |s| ==> s[|s| - |r| - 1] == c
    decreases |s|
  {
    if s == [] then []
    else if s[|s| - 1] == c then []
    else
      var r := AfterLast(s[..|s| - 1], c);
      assert s[..|s| - 1][|s| - 1 - |r|..] == r;
      r + [s[|s| - 1]]
  }

  /**
   * `title` has its last `(` at `k`, `kr` right after it, and nothing but `)` after `kr`.
   */
  predicate TitleSplitAt(title: string, k: nat, kr: string) {
    k + 1 + |kr| <= |title| && title[k] == '('
    && title[k + 1..k + 1 + |kr|] == kr
    && (forall i :: k < i < |title| ==> title[i] != '(')
    && (forall i :: k + 1 + |kr| <= i < |title| ==> title[i] == ')')
  }

  /** The part of a title in its last parentheses, without the closing ones; nothing without `(`. */
  function TitleKr(title: string): (r: Option<string>)
    ensures r.None? <==> forall i :: 0 <= i < |title| ==> title[i] != '('
    ensures r.Some? ==> forall i :: 0 <= i < |r.value| ==> r.value[i] != '('
    ensures r.Some? ==> r.value == [] || r.value[|r.value| - 1] != ')'
    ensures r.Some? ==> exists k :: TitleSplitAt(title, k, r.value)
  {
    if exists i :: 0 <= i < |title| && title[i] == '(' then
      var after := AfterLast(title, '(');
      var kr := RStripChar(after, ')');
      assert forall i :: 0 <= i < |kr| ==> kr[i] == after[i];
      var k := |title| - |after| - 1;
      assert title[k + 1..] == after;
      assert title[k + 1..k + 1 + |kr|] == kr;
      assert TitleSplitAt(title, k, kr);
      Some(kr)
    else None
  }

  /** A title written `English (한국어)` gives back the Korean part. */
  lemma TitleKrOfParenthesised(english: string, korean: string)
    requires forall i :: 0 <= i < |korean| ==> korean[i] != '('
    requires korean == [] || korean[|korean| - 1] != ')'
    ensures TitleKr(english + "(" + korean + ")") == Some(korean)
  {
    var t := english + "(" + korean + ")";
    assert t[|english|] == '(';
    var tail := korean + ")";
    assert t == english + "(" + tail;
    AfterLastOfTail(english + "(", tail, '(');
    assert RStripChar(tail, ')') == RStripChar(korean, ')') == korean;
    assert TitleKr(t) == Some(RStripChar(AfterLast(t, '('), ')'));
  }

  /** The Korean title of the Lean Canvas file. */
  lemma LeanCanvasTitleKr()
    ensures TitleKr("Lean Canvas (린 캔버스)") == Some("린 캔버스")
  {
    LeanCanvasSplit("Lean Canvas (린 캔버스)", "Lean Canvas ", "린 캔버스");
  }

  /** The Lean Canvas title in its two parts. */
  lemma LeanCanvasSplit(title: string, english: string, korean: string)
    requires title == "Lean Canvas (린 캔버스)" && english == "Lean Canvas " && korean == "린 캔버스"
    ensures TitleKr(title) == Some(korean)
  {
    assert title == english + "(" + korean + ")";
    TitleKrOfParenthesised(english, korean);
  }

  /** After a `c`, the part without `c` is what follows the last one. */
  lemma {:induction false} AfterLastOfTail(head: string, tail: string, c: char)
    requires head != [] && head[|head| - 1] == c
    requires forall i :: 0 <= i < |tail| ==> tail[i] != c
    ensures AfterLast(head + tail, c) == tail
    decreases |tail|
  {
    if tail == [] {
      assert head + tail == head;
    } else {
      var s := head + tail;
      assert s[..|s| - 1] == head + tail[..|tail| - 1];
      AfterLastOfTail(head, tail[..|tail| - 1], c);
      assert tail[..|tail| - 1] + [tail[|tail| - 1]] == tail;
    }
  }

  /* ---------------------------------------------------------------------- */
  /* Search text and the document                                            */
  /* ---------------------------------------------------------------------- */

  /** The non-empty elements, in order (`filter(None, xs)`). */
  function NonEmpty(xs: seq<string>): (r: seq<string>)
    ensures |r| <= |xs|
    ensures forall i :: 0 <= i < |r| ==> r[i] != []
    ensures forall x :: x in r <==> x in xs && x != []
  {
    if xs == [] then []
    else if xs[0] == [] then NonEmpty(xs[1..])
    else
      var rest := NonEmpty(xs[1..]);
      assert forall x :: x in xs <==> x == xs[0] || x in xs[1..];
      [xs[0]] + rest
  }

  /** The positions from `from` on whose element is non-empty, in increasing order. */
  function NonEmptyPositions(xs: seq<string>, from: nat): (ps: seq<nat>)
    requires from <= |xs|
    ensures forall k :: 0 <= k < |ps| ==> from <= ps[k] < |xs| && xs[ps[k]] != []
    ensures forall k, l :: 0 <= k < l < |ps| ==> ps[k] < ps[l]
    ensures forall i :: from <= i < |xs| && xs[i] != [] ==> i in ps
    decreases |xs| - from
  {
    if from == |xs| then []
    else
      var rest := NonEmptyPositions(xs, from + 1);
      if xs[from] != [] then
        var ps := [from] + rest;
        assert forall k :: 0 < k < |ps| ==> ps[k] == rest[k - 1];
        assert forall i :: i in rest ==> i in ps;
        ps
      else rest
  }

  /** `r` is the elements of `xs` at the positions `ps`, in that order. */
  predicate Picks(r: seq<string>, xs: seq<string>, ps: seq<nat>) {
    |r| == |ps| && forall k :: 0 <= k < |r| ==> ps[k] < |xs| && r[k] == xs[ps[k]]
  }

  /** Picking one more element in front. */
  lemma PicksCons(r: seq<string>, xs: seq<string>, ps: seq<nat>, p: nat)
    requires Picks(r, xs, ps) && p < |xs|
    ensures Picks([xs[p]] + r, xs, [p] + ps)
  {
    var r', ps' := [xs[p]] + r, [p] + ps;
    forall k | 0 < k < |r'| ensures ps'[k] < |xs| && r'[k] == xs[ps'[k]] {
      assert r'[k] == r[k - 1] && ps'[k] == ps[k - 1];
    }
  }

  /**
   * Filtering keeps exactly the non-empty elements, in their order and with
   * their repeats: the k-th kept element is the one at the k-th non-empty position.
   */
  lemma {:induction false} NonEmptyAt(xs: seq<string>, from: nat)
    requires from <= |xs|
    ensures Picks(NonEmpty(xs[from..]), xs, NonEmptyPositions(xs, from))
    decreases |xs| - from
  {
    if from < |xs| {
      NonEmptyAt(xs, from + 1);
      NonEmptyStep(xs, from);
      if xs[from] != [] {
        PicksCons(NonEmpty(xs[from + 1..]), xs, NonEmptyPositions(xs, from + 1), from);
      }
    }
  }

  /** Filtering from `from` is filtering from `from + 1`, with the element at `from` in front when it is non-empty. */
  lemma NonEmptyStep(xs: seq<string>, from: nat)
    requires from < |xs|
    ensures NonEmpty(xs[from..]) == if xs[from] == [] then NonEmpty(xs[from + 1..]) else [xs[from]] + NonEmpty(xs[from + 1..])
  {
    var ys := xs[from..];
    assert ys[0] == xs[from] && ys[1..] == xs[from + 1..];
  }

  /** The text the search index is fed: title, keywords and the head of the body, where present. */
  function SearchText(meta: FrontMatter, content: string): string {
    var parts := [meta.title.GetOr(""), Join(" ", meta.keywords.GetOr([])), Take(content, SearchBodyLength)];
    Join("\n", NonEmpty(parts))
  }

  /** `prepare_document`. */
  function PrepareDocument(p: Parsed): (d: Document)
    // the id is the front matter's, or else derived from the file name
    ensures p.meta.id.Some? ==> d.id == p.meta.id.value
    ensures p.meta.id.None? ==> d.id == Slug(p.filename)
    // missing fields take their defaults
    ensures d.title == (if p.meta.title.Some? then p.meta.title.value else p.filename)
    ensures p.meta.category.None? ==> d.category == "uncategorized"
    ensures p.meta.difficulty.None? ==> d.difficulty == "intermediate"
    ensures p.meta.categoryKr.None? ==> d.categoryKr == ""
    ensures p.meta.timeRequired.None? ==> d.timeRequired == ""
    ensures p.meta.groupSize.None? ==> d.groupSize == ""
    ensures p.meta.origin.None? ==> d.origin == ""
    ensures p.meta.keywords.None? ==> d.keywords == []
    ensures p.meta.useCases.None? ==> d.useCases == []
    ensures p.meta.relatedMethods.None? ==> d.relatedMethods == []
    ensures p.meta.complementaryMethods.None? ==> d.complementaryMethods == []
    // present fields are copied as they are
    ensures p.meta.category.Some? ==> d.category == p.meta.category.value
    ensures p.meta.categoryKr.Some? ==> d.categoryKr == p.meta.categoryKr.value
    ensures p.meta.difficulty.Some? ==> d.difficulty == p.meta.difficulty.value
    ensures p.meta.timeRequired.Some? ==> d.timeRequired == p.meta.timeRequired.value
    ensures p.meta.groupSize.Some? ==> d.groupSize == p.meta.groupSize.value
    ensures p.meta.origin.Some? ==> d.origin == p.meta.origin.value
    ensures p.meta.keywords.Some? ==> d.keywords == p.meta.keywords.value
    ensures p.meta.useCases.Some? ==> d.useCases == p.meta.useCases.value
    ensures p.meta.relatedMethods.Some? ==> d.relatedMethods == p.meta.relatedMethods.value
    ensures p.meta.complementaryMethods.Some? ==> d.complementaryMethods == p.meta.complementaryMethods.value
    // the Korean title comes from the front matter's title only
    ensures p.meta.title.None? ==> d.titleKr.None?
    ensures p.meta.title.Some? ==> d.titleKr == TitleKr(p.meta.title.value)
    // the body is kept whole
    ensures d.content == p.content
    // the search text: the non-empty ones of title, joined keywords and body head, one per line
    ensures d.searchText == Join("\n", NonEmpty([p.meta.title.GetOr(""), Join(" ", p.meta.keywords.GetOr([])),
                                                 Take(p.content, SearchBodyLength)]))
  {
    var meta := p.meta;
    Document(
      meta.id.GetOr(Slug(p.filename)),
      meta.title.GetOr(p.filename),
      TitleKr(meta.title.GetOr("")),
      meta.category.GetOr("uncategorized"),
      meta.categoryKr.GetOr(""),
      meta.difficulty.GetOr("intermediate"),
      meta.timeRequired.GetOr(""),
      meta.groupSize.GetOr(""),
      meta.origin.GetOr(""),
      p.content,
      meta.keywords.GetOr([]),
      meta.useCases.GetOr([]),
      meta.relatedMethods.GetOr([]),
      meta.complementaryMethods.GetOr([]),
      SearchText(meta, p.content)
    )
  }

  /** With a title, keywords and a body, the search text is the three parts on three lines, the body cut at 4000 characters. */
  lemma SearchTextOfFullDocument(p: Parsed)
    requires p.meta.title.Some? && p.meta.title.value != []
    requires p.meta.keywords.Some? && Join(" ", p.meta.keywords.value) != []
    requires p.content != []
    ensures PrepareDocument(p).searchText
            == p.meta.title.value + "\n" + Join(" ", p.meta.keywords.value) + "\n" + Take(p.content, SearchBodyLength)
  {
    var parts := [p.meta.title.value, Join(" ", p.meta.keywords.value), Take(p.content, SearchBodyLength)];
    assert Take(p.content, SearchBodyLength) != [];
    assert NonEmpty(parts) == parts by {
      assert parts[1..] == [parts[1], parts[2]];
      assert parts[1..][1..] == [parts[2]];
      assert NonEmpty([parts[2]]) == [parts[2]] by {
        assert [parts[2]][1..] == [];
      }
      assert NonEmpty(parts[1..]) == [parts[1]] + [parts[2]];
    }
    assert Join("\n", parts) == parts[0] + "\n" + (parts[1] + "\n" + parts[2]) by {
      assert parts[1..] == [parts[1], parts[2]];
      assert Join("\n", [parts[1], parts[2]]) == parts[1] + "\n" + parts[2] by {
        assert [parts[1], parts[2]][1..] == [parts[2]];
      }
    }
  }

  /** The search text is empty exactly when the title, the keywords and the body are all empty. */
  lemma SearchTextEmpty(p: Parsed)
    ensures PrepareDocument(p).searchText == []
            <==> p.meta.title.GetOr("") == [] && Join(" ", p.meta.keywords.GetOr([])) == [] && p.content == []
  {
    var parts := [p.meta.title.GetOr(""), Join(" ", p.meta.keywords.GetOr([])), Take(p.content, SearchBodyLength)];
    var kept := NonEmpty(parts);
    if kept != [] {
      assert kept[0] in kept;
      JoinOfNonEmptyHead(kept);
    }
    var allEmpty := parts[0] == [] && parts[1] == [] && parts[2] == [];
    if allEmpty {
      if kept != [] {
        assert kept[0] in parts;
      }
    } else {
      var i :| 0 <= i < 3 && parts[i] != [];
      assert parts[i] in kept;
    }
    assert parts[2] == [] <==> p.content == [];
  }

  /** Joining a list whose first element is non-empty gives a non-empty text. */
  lemma JoinOfNonEmptyHead(xs: seq<string>)
    requires xs != [] && xs[0] != []
    ensures Join("\n", xs) != []
  {
    if |xs| > 1 {
      assert Join("\n", xs) == xs[0] + "\n" + Join("\n", xs[1..]);
    }
  }

  /** A document from an empty front matter: every default, the id from the file name. */
  lemma DefaultsOfBareFile(content: string, filename: string)
    ensures var d := PrepareDocument(Parsed(FrontMatter(None, None, None, None, None, None, None, None, None, None, None, None),
                                            content, filename));
            && d.id == Slug(filename) && d.title == filename && d.titleKr == None
            && d.category == "uncategorized" && d.difficulty == "intermediate"
            && d.categoryKr == "" && d.timeRequired == "" && d.groupSize == "" && d.origin == ""
            && d.keywords == [] && d.useCases == [] && d.relatedMethods == [] && d.complementaryMethods == []
            && d.content == content
            && d.searchText == Take(content, SearchBodyLength)
  {
    var t := Take(content, SearchBodyLength);
    var parts: seq<string> := ["", Join(" ", []), t];
    assert parts[1..][1..] == [t];
    assert NonEmpty(parts) == NonEmpty([t]);
    assert [t][1..] == [];
    assert NonEmpty([t]) == if t == [] then [] else [t];
  }
}
