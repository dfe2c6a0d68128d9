/**
 * The regulation chunker of src/service/document/pipeliner.rs: the marker
 * offsets become sections, the sections are sorted in place by offset, and
 * a walk over them cuts the text into articles, each tagged with the
 * chapter it falls under.
 */
module Chunker {
  import opened Wrappers
  import opened Json
  import opened Strings
  import opened ErrChain
  import opened Markers

  /** A chunk of text: its article text, its chapter and its document type. */
  datatype Article = Article(article: string, chapter: string, doctype: string)

  /** `Article::serialize`: the three fields as a JSON object. */
  function Serialize(a: Article): (r: Json)
    ensures r.Object? && r.fields.Keys == {"article", "chapter", "doctype"}
  {
    Object(map["article" := String(a.article), "chapter" := String(a.chapter), "doctype" := String(a.doctype)])
  }

  /** Reads an article back from its JSON form. */
  function Deserialize(j: Json): Option<Article> {
    if j.Object? && "article" in j.fields && "chapter" in j.fields && "doctype" in j.fields
      && j.fields["article"].String? && j.fields["chapter"].String? && j.fields["doctype"].String?
    then Some(Article(j.fields["article"].s, j.fields["chapter"].s, j.fields["doctype"].s))
    else None
  }

  /** The serialised form loses nothing. */
  lemma SerializeRoundTrip(a: Article)
    ensures Deserialize(Serialize(a)) == Some(a)
  {
  }

  /** A marker offset and its kind. */
  datatype Section = Section(offset: nat, kind: Kind)

  function AsSections(offsets: seq<nat>, kind: Kind): (r: seq<Section>)
    ensures |r| == |offsets|
    ensures forall k :: 0 <= k < |r| ==> r[k] == Section(offsets[k], kind)
  {
    seq(|offsets|, k requires 0 <= k < |offsets| => Section(offsets[k], kind))
  }

  predicate StrictlyAscending(s: seq<Section>) {
    forall j, k :: 0 <= j < k < |s| ==> s[j].offset < s[k].offset
  }

  predicate Ascending(s: seq<Section>) {
    forall j, k :: 0 <= j < k < |s| ==> s[j].offset <= s[k].offset
  }

  predicate WithinText(s: seq<Section>, content: string) {
    forall k :: 0 <= k < |s| ==> s[k].offset <= |content|
  }

  /** Article and chapter sections of the text, each list in the order `find_iter` reports them. */
  function ArticleSections(content: string): seq<Section> {
    AsSections(Matches(content, ArticleKind), ArticleKind)
  }

  function ChapterSections(content: string): seq<Section> {
    AsSections(Matches(content, ChapterKind), ChapterKind)
  }

  /** Reference merge of two offset-ascending section lists. */
  function MergeSections(xs: seq<Section>, ys: seq<Section>): (r: seq<Section>)
    ensures |r| == |xs| + |ys|
    decreases |xs| + |ys|
  {
    if xs == [] then ys
    else if ys == [] then xs
    else if xs[0].offset <= ys[0].offset then [xs[0]] + MergeSections(xs[1..], ys)
    else [ys[0]] + MergeSections(xs, ys[1..])
  }

  /** Merging keeps every section and adds none. */
  lemma {:induction false} MergeSectionsKeeps(xs: seq<Section>, ys: seq<Section>)
    ensures multiset(MergeSections(xs, ys)) == multiset(xs) + multiset(ys)
    decreases |xs| + |ys|
  {
    if xs != [] && ys != [] {
      if xs[0].offset <= ys[0].offset {
        MergeSectionsKeeps(xs[1..], ys);
        assert MergeSections(xs, ys) == [xs[0]] + MergeSections(xs[1..], ys);
        assert xs == [xs[0]] + xs[1..];
        assert multiset(xs) == multiset{xs[0]} + multiset(xs[1..]);
      } else {
        MergeSectionsKeeps(xs, ys[1..]);
        assert MergeSections(xs, ys) == [ys[0]] + MergeSections(xs, ys[1..]);
        assert ys == [ys[0]] + ys[1..];
        assert multiset(ys) == multiset{ys[0]} + multiset(ys[1..]);
      }
    }
  }

  /** Two strictly ascending lists with no common offset merge into a strictly ascending list. */
  lemma {:induction false} MergeSectionsSorted(xs: seq<Section>, ys: seq<Section>)
    requires StrictlyAscending(xs) && StrictlyAscending(ys)
    requires forall j, k :: 0 <= j < |xs| && 0 <= k < |ys| ==> xs[j].offset != ys[k].offset
    ensures StrictlyAscending(MergeSections(xs, ys))
    decreases |xs| + |ys|
  {
    if xs != [] && ys != [] {
      if xs[0].offset <= ys[0].offset {
        MergeSectionsSorted(xs[1..], ys);
        HeadBelowMerge(xs[0], xs[1..], ys);
      } else {
        MergeSectionsSorted(xs, ys[1..]);
        HeadBelowMerge(ys[0], xs, ys[1..]);
      }
    }
  }

  /** A section below everything in both lists stays below everything in their merge. */
  lemma HeadBelowMerge(h: Section, xs: seq<Section>, ys: seq<Section>)
    requires forall k :: 0 <= k < |xs| ==> h.offset < xs[k].offset
    requires forall k :: 0 <= k < |ys| ==> h.offset < ys[k].offset
    ensures forall k :: 0 <= k < |MergeSections(xs, ys)| ==> h.offset < MergeSections(xs, ys)[k].offset
  {
    var r := MergeSections(xs, ys);
    MergeSectionsKeeps(xs, ys);
    forall k | 0 <= k < |r| ensures h.offset < r[k].offset {
      assert r[k] in multiset(r);
      assert r[k] in multiset(xs) || r[k] in multiset(ys);
    }
  }

  /** An ascending list and a strictly ascending list holding the same sections are the same list. */
  lemma {:induction false} SortedIsUnique(s: seq<Section>, t: seq<Section>)
    requires Ascending(s) && StrictlyAscending(t) && multiset(s) == multiset(t)
    ensures s == t
    decreases |s|
  {
    assert |s| == |multiset(s)| == |t|;
    if s != [] {
      HeadsAgree(s, t);
      TailsSameSections(s, t);
      SortedIsUnique(s[1..], t[1..]);
    }
  }

  /** Both lists start with their smallest offset, which the strict list holds once. */
  lemma HeadsAgree(s: seq<Section>, t: seq<Section>)
    requires Ascending(s) && StrictlyAscending(t) && multiset(s) == multiset(t) && s != []
    ensures t != [] && s[0] == t[0]
  {
    assert s[0] in multiset(t);
    var j :| 0 <= j < |t| && t[j] == s[0];
    assert t[0] in multiset(s);
    var i :| 0 <= i < |s| && s[i] == t[0];
    assert t[0].offset <= t[j].offset == s[0].offset <= s[i].offset == t[0].offset;
  }

  lemma TailsSameSections(s: seq<Section>, t: seq<Section>)
    requires s != [] && t != [] && s[0] == t[0] && multiset(s) == multiset(t)
    ensures multiset(s[1..]) == multiset(t[1..])
  {
    assert s == [s[0]] + s[1..] && t == [t[0]] + t[1..];
    assert multiset(s) == multiset{s[0]} + multiset(s[1..]);
    assert multiset(t) == multiset{s[0]} + multiset(t[1..]);
    forall x ensures multiset(s[1..])[x] == multiset(t[1..])[x] {
      assert multiset(s)[x] == multiset{s[0]}[x] + multiset(s[1..])[x];
      assert multiset(t)[x] == multiset{s[0]}[x] + multiset(t[1..])[x];
    }
  }

  /** The first `i` sections are in offset order. */
  predicate SortedPrefix(s: seq<Section>, i: nat) {
    forall j, k :: 0 <= j < k < i <= |s| ==> s[j].offset <= s[k].offset
  }

  /** No section before `i` has a larger offset than a section from `i` on. */
  predicate Partitioned(s: seq<Section>, i: nat) {
    forall j, k :: 0 <= j < i <= k < |s| ==> s[j].offset <= s[k].offset
  }

  /** One selection step: swapping the smallest remaining section into place `i` grows the sorted prefix. */
  lemma SelectionStep(s: seq<Section>, i: nat, m: nat)
    requires i <= m < |s| && SortedPrefix(s, i) && Partitioned(s, i)
    requires forall k :: i <= k < |s| ==> s[m].offset <= s[k].offset
    ensures var t := s[i := s[m]][m := s[i]];
      SortedPrefix(t, i + 1) && Partitioned(t, i + 1) && multiset(t) == multiset(s)
  {
    var t := s[i := s[m]][m := s[i]];
    forall j, k | 0 <= j < k < i + 1
      ensures t[j].offset <= t[k].offset
    {
      if k < i {
        assert t[j] == s[j] && t[k] == s[k];
      }
    }
    forall j, k | 0 <= j < i + 1 <= k < |s|
      ensures t[j].offset <= t[k].offset
    {
      assert t[k] == s[k] || t[k] == s[i];
    }
  }

  /** The index of a smallest-offset section among `a[i..]`. */
  method MinFrom(a: array<Section>, i: nat) returns (m: nat)
    requires i < a.Length
    ensures i <= m < a.Length
    ensures forall k :: i <= k < a.Length ==> a[m].offset <= a[k].offset
  {
    m := i;
    var j := i + 1;
    while j < a.Length
      invariant i <= m < a.Length && i < j <= a.Length
      invariant forall k :: i <= k < j ==> a[m].offset <= a[k].offset
    {
      if a[j].offset < a[m].offset {
        m := j;
      }
      j := j + 1;
    }
  }

  /** `sections.sort_by(|a, b| a.0.cmp(&b.0))`, in place: ascending by offset, the same sections. */
  method SortByOffset(a: array<Section>)
    modifies a
    ensures Ascending(a[..])
    ensures multiset(a[..]) == multiset(old(a[..]))
  {
    var i := 0;
    while i < a.Length
      invariant 0 <= i <= a.Length
      invariant SortedPrefix(a[..], i) && Partitioned(a[..], i)
      invariant multiset(a[..]) == multiset(old(a[..]))
    {
      var m := MinFrom(a, i);
      ghost var s := a[..];
      a[i], a[m] := a[m], a[i];
      assert a[..] == s[i := s[m]][m := s[i]];
      SelectionStep(s, i, m);
      i := i + 1;
    }
    assert SortedPrefix(a[..], a.Length);
  }

  /** Where section `i`'s span ends: at the next section, or at the end of the text for the last one. */
  function SpanEnd(content: string, sections: seq<Section>, i: nat): (e: nat)
    requires Ascending(sections) && WithinText(sections, content) && i < |sections|
    ensures sections[i].offset <= e <= |content|
  {
    if i + 1 < |sections| then sections[i + 1].offset else |content|
  }

  /** The trimmed text of section `i`'s span. */
  function SpanText(content: string, sections: seq<Section>, i: nat): string
    requires Ascending(sections) && WithinText(sections, content) && i < |sections|
  {
    Trim(content[sections[i].offset..SpanEnd(content, sections, i)])
  }

  /** The last chapter section before section `i`, if any. */
  function LastChapter(sections: seq<Section>, i: nat): (r: Option<nat>)
    requires i <= |sections|
    ensures r.Some? ==> r.value < i && sections[r.value].kind == ChapterKind
    ensures r.Some? ==> forall l :: r.value < l < i ==> sections[l].kind != ChapterKind
    ensures r.None? ==> forall l :: 0 <= l < i ==> sections[l].kind != ChapterKind
  {
    if i == 0 then None
    else if sections[i - 1].kind == ChapterKind then Some(i - 1)
    else LastChapter(sections, i - 1)
  }

  /** The chapter section `i` falls under: the span text of the last chapter before it, or "" when there is none. */
  function ChapterOf(content: string, sections: seq<Section>, i: nat): string
    requires Ascending(sections) && WithinText(sections, content) && i <= |sections|
  {
    match LastChapter(sections, i)
    case None => ""
    case Some(k) => SpanText(content, sections, k)
  }

  /** The number of article sections among the first `n`. */
  function ArticleCount(sections: seq<Section>, n: nat): (c: nat)
    requires n <= |sections|
    ensures c <= n
  {
    if n == 0 then 0
    else ArticleCount(sections, n - 1) + (if sections[n - 1].kind == ArticleKind then 1 else 0)
  }

  /** The article built for article section `i`. */
  function ArticleAt(content: string, sections: seq<Section>, i: nat): Article
    requires Ascending(sections) && WithinText(sections, content) && i < |sections|
  {
    Article(SpanText(content, sections, i), ChapterOf(content, sections, i), "")
  }

  /** Reference definition of the walk: the articles of the first `n` sections. */
  function ArticlesUpTo(content: string, sections: seq<Section>, n: nat): (r: seq<Article>)
    requires Ascending(sections) && WithinText(sections, content) && n <= |sections|
    ensures |r| == ArticleCount(sections, n)
  {
    if n == 0 then []
    else if sections[n - 1].kind == ArticleKind then
      ArticlesUpTo(content, sections, n - 1) + [ArticleAt(content, sections, n - 1)]
    else ArticlesUpTo(content, sections, n - 1)
  }

  function ArticlesOf(content: string, sections: seq<Section>): seq<Article>
    requires Ascending(sections) && WithinText(sections, content)
  {
    ArticlesUpTo(content, sections, |sections|)
  }

  /**
   * `construct_document_by_article`: a walk over the sections with a peek at
   * the next one, keeping the current chapter and pushing one article per
   * article section.
   */
  method ConstructDocumentByArticle(content: string, sections: seq<Section>) returns (articles: seq<Article>)
    requires Ascending(sections) && WithinText(sections, content)
    ensures articles == ArticlesOf(content, sections)
  {
    var chapter := "";
    articles := [];
    var idx := 0;
    while idx < |sections|
      invariant 0 <= idx <= |sections|
      invariant articles == ArticlesUpTo(content, sections, idx)
      invariant idx < |sections| ==> chapter == ChapterOf(content, sections, idx)
    {
      WalkStep(content, sections, idx);
      var section := sections[idx];
      if idx + 1 < |sections| {
        var article := Trim(content[section.offset..sections[idx + 1].offset]);
        match section.kind {
          case ChapterKind =>
            chapter := article;
          case ArticleKind =>
            articles := articles + [Article(article, chapter, "")];
        }
      } else {
        if section.kind == ArticleKind {
          articles := articles + [Article(Trim(content[section.offset..]), chapter, "")];
        }
      }
      idx := idx + 1;
    }
  }

  /** One step of the walk: the next article, and the chapter in force for the following section. */
  lemma WalkStep(content: string, sections: seq<Section>, idx: nat)
    requires Ascending(sections) && WithinText(sections, content) && idx < |sections|
    ensures idx + 1 < |sections| ==>
      SpanText(content, sections, idx) == Trim(content[sections[idx].offset..sections[idx + 1].offset])
    ensures idx + 1 == |sections| ==> SpanText(content, sections, idx) == Trim(content[sections[idx].offset..])
    ensures sections[idx].kind == ChapterKind ==> ChapterOf(content, sections, idx + 1) == SpanText(content, sections, idx)
    ensures sections[idx].kind == ArticleKind ==> ChapterOf(content, sections, idx + 1) == ChapterOf(content, sections, idx)
  {
    assert content[sections[idx].offset..|content|] == content[sections[idx].offset..];
  }

  /** Exactly one article per article section, in section order: the `m`-th article comes from the `m`-th article section. */
  lemma {:induction false} ArticlePerSection(content: string, sections: seq<Section>, n: nat, i: nat)
    requires Ascending(sections) && WithinText(sections, content)
    requires i < n <= |sections| && sections[i].kind == ArticleKind
    ensures ArticleCount(sections, i) < ArticleCount(sections, n)
    ensures ArticlesUpTo(content, sections, n)[ArticleCount(sections, i)] == ArticleAt(content, sections, i)
  {
    ArticlesUpToStep(content, sections, n);
    if i < n - 1 {
      ArticlePerSection(content, sections, n - 1, i);
    }
  }

  /** One step of the reference walk, with the new article kept apart. */
  lemma ArticlesUpToStep(content: string, sections: seq<Section>, n: nat)
    requires Ascending(sections) && WithinText(sections, content) && 0 < n <= |sections|
    ensures var prev := ArticlesUpTo(content, sections, n - 1);
      (sections[n - 1].kind == ArticleKind ==>
         |ArticlesUpTo(content, sections, n)| == |prev| + 1
         && ArticlesUpTo(content, sections, n)[|prev|] == ArticleAt(content, sections, n - 1))
      && forall k :: 0 <= k < |prev| ==> ArticlesUpTo(content, sections, n)[k] == prev[k]
  {
  }

  /** Chapter sections are never emitted: a text whose sections are all chapters yields no article. */
  lemma {:induction false} OnlyChaptersGiveNothing(content: string, sections: seq<Section>, n: nat)
    requires Ascending(sections) && WithinText(sections, content) && n <= |sections|
    requires forall k :: 0 <= k < n ==> sections[k].kind == ChapterKind
    ensures ArticlesUpTo(content, sections, n) == []
  {
    if n > 0 {
      OnlyChaptersGiveNothing(content, sections, n - 1);
    }
  }

  /** Every emitted article is trimmed and carries the empty document type. */
  lemma {:induction false} ArticlesAreTrimmed(content: string, sections: seq<Section>, n: nat, m: nat)
    requires Ascending(sections) && WithinText(sections, content) && n <= |sections|
    requires m < |ArticlesUpTo(content, sections, n)|
    ensures IsTrimmed(ArticlesUpTo(content, sections, n)[m].article)
    ensures ArticlesUpTo(content, sections, n)[m].doctype == ""
  {
    if m < |ArticlesUpTo(content, sections, n - 1)| {
      ArticlesAreTrimmed(content, sections, n - 1, m);
    }
  }

  predicate IsTrimmed(t: string) {
    t == "" || (!IsWhitespace(t[0]) && !IsWhitespace(t[|t| - 1]))
  }

  /** An article's chapter is "" or the span text of a chapter section before it. */
  lemma ChapterIsEarlierChapter(content: string, sections: seq<Section>, i: nat)
    requires Ascending(sections) && WithinText(sections, content) && i < |sections|
    ensures ArticleAt(content, sections, i).chapter == ""
      || exists k :: 0 <= k < i && sections[k].kind == ChapterKind
           && ArticleAt(content, sections, i).chapter == SpanText(content, sections, k)
  {
  }

  /** The sections of a text: article and chapter sections merged by offset. */
  function Sections(content: string): seq<Section> {
    MergeSections(ArticleSections(content), ChapterSections(content))
  }

  /** Article and chapter offsets never coincide. */
  lemma KindsDisjoint(content: string)
    ensures forall j, k :: 0 <= j < |ArticleSections(content)| && 0 <= k < |ChapterSections(content)| ==>
      ArticleSections(content)[j].offset != ChapterSections(content)[k].offset
  {
    var arts, chaps := ArticleSections(content), ChapterSections(content);
    forall j, k | 0 <= j < |arts| && 0 <= k < |chaps| ensures arts[j].offset != chaps[k].offset {
      KindsNeverShareStart(content, arts[j].offset);
    }
  }

  /** The merged sections are strictly ascending and inside the text, and hold both lists' sections. */
  lemma SectionsSorted(content: string)
    ensures StrictlyAscending(Sections(content))
    ensures forall k :: 0 <= k < |Sections(content)| ==> Sections(content)[k].offset < |content|
    ensures multiset(Sections(content)) == multiset(ArticleSections(content)) + multiset(ChapterSections(content))
  {
    var arts, chaps := ArticleSections(content), ChapterSections(content);
    MatchesAreMarkers(content, ArticleKind, 0);
    MatchesAreMarkers(content, ChapterKind, 0);
    KindsDisjoint(content);
    MergeSectionsSorted(arts, chaps);
    MergeSectionsKeeps(arts, chaps);
    var r := Sections(content);
    forall k | 0 <= k < |r| ensures r[k].offset < |content| {
      assert r[k] in multiset(r);
    }
  }

  /** A section of the given kind is in the list built from `offsets` exactly when its offset is. */
  lemma InAsSections(offsets: seq<nat>, kind: Kind, x: Section)
    ensures x in AsSections(offsets, kind) <==> x.kind == kind && x.offset in offsets
  {
    var r := AsSections(offsets, kind);
    if x in r {
      var k :| 0 <= k < |r| && r[k] == x;
    }
    if x.kind == kind && x.offset in offsets {
      var k :| 0 <= k < |offsets| && offsets[k] == x.offset;
      assert r[k] == x;
    }
  }

  /** The sections are exactly the markers of the text, each with its kind. */
  lemma SectionsAreMarkers(content: string, x: Section)
    ensures x in Sections(content) <==> MarkerAt(content, x.offset, x.kind)
  {
    SectionsSorted(content);
    var r := Sections(content);
    assert x in r <==> x in multiset(r);
    InAsSections(Matches(content, ArticleKind), ArticleKind, x);
    InAsSections(Matches(content, ChapterKind), ChapterKind, x);
    MatchesAreMarkers(content, ArticleKind, x.offset);
    MatchesAreMarkers(content, ChapterKind, x.offset);
  }

  function ThresholdMessage(threshold: nat): string {
    "章节条款总数少于" + NatToString(threshold) + "个"
  }

  /** What the regulation chunker yields for a text and a threshold. */
  function RegulationOutcome(content: string, threshold: nat): Result<seq<Article>, Error> {
    if |Matches(content, ArticleKind)| + |Matches(content, ChapterKind)| < threshold then
      Err(Plain(ThresholdMessage(threshold)))
    else
      SectionsSorted(content);
      Ok(ArticlesOf(content, Sections(content)))
  }

  /**
   * `splitting_regulation_document`: collect the article and chapter sections,
   * refuse when there are fewer than `threshold`, sort them in place and walk them.
   */
  method SplittingRegulationDocument(content: string, threshold: nat) returns (r: Result<seq<Article>, Error>)
    ensures r.Err? <==> |Matches(content, ArticleKind)| + |Matches(content, ChapterKind)| < threshold
    ensures r.Err? ==> r.error == Plain(ThresholdMessage(threshold))
    ensures r.Ok? ==> StrictlyAscending(Sections(content)) && WithinText(Sections(content), content)
    ensures r.Ok? ==> r.value == ArticlesOf(content, Sections(content))
    ensures r == RegulationOutcome(content, threshold)
  {
    var arts, chaps := ArticleSections(content), ChapterSections(content);
    var sections := new Section[|arts| + |chaps|](k requires 0 <= k < |arts| + |chaps| =>
      if k < |arts| then arts[k] else chaps[k - |arts|]);
    assert sections[..] == arts + chaps;
    if sections.Length < threshold {
      return Err(Plain(ThresholdMessage(threshold)));
    }
    SortByOffset(sections);
    SectionsSorted(content);
    SortedIsUnique(sections[..], Sections(content));
    var articles := ConstructDocumentByArticle(content, sections[..]);
    r := Ok(articles);
  }

  /** Meeting the threshold does not promise articles: a text with only chapter markers yields none. */
  lemma ChaptersOnlyYieldNothing(content: string, threshold: nat)
    requires Matches(content, ArticleKind) == [] && |Matches(content, ChapterKind)| >= threshold
    ensures RegulationOutcome(content, threshold) == Ok([])
  {
    SectionsSorted(content);
    var sections := Sections(content);
    assert sections == ChapterSections(content);
    OnlyChaptersGiveNothing(content, sections, |sections|);
  }
}
