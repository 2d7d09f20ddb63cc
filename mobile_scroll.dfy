/**
 * The mobile chapter tracker of assets/js/mobile-scroll.js. On a narrow
 * viewport the script builds a chapter navigation bar from a fixed registry
 * of 21 chapters, labels the slides with their chapter, highlights the
 * chapter being read as the page scrolls, scrolls to a chapter when its link
 * is tapped and shows a back-to-top button once the reader is far enough
 * down. This registry is independent of the desktop deck's 24 slides.
 *
 * The document is given as values: `offsets` maps the id of every slide
 * element present to its `offsetTop`, and `labels` maps slide ids to their
 * `data-chapter` attribute.
 */
module MobileScroll {
  import opened Options
  import opened Text
  import opened Marks

  /** The widest viewport, in CSS pixels, that counts as mobile. */
  const MobileMaxWidth := 768
  /** A chapter becomes current once the page is scrolled to within this many pixels above its slide. */
  const ActivationMargin := 200
  /** Height of the fixed header a tapped chapter is scrolled below. */
  const HeaderHeight := 120
  /** The back-to-top button shows once the page is scrolled further than this. */
  const BackToTopThreshold := 500.0

  predicate IsMobile(innerWidth: int) {
    innerWidth <= MobileMaxWidth
  }

  datatype Chapter = Chapter(index: nat, title: string, id: string)

  /** The chapter registry, in navigation order. */
  const Chapters: seq<Chapter> := [
    Chapter(0, "引言", "slide-0"),
    Chapter(1, "1.0 认知重启", "slide-1"),
    Chapter(2, "1.1 核心原理", "slide-2"),
    Chapter(3, "1.2 真相", "slide-3"),
    Chapter(4, "1.3 缺陷一", "slide-4"),
    Chapter(5, "1.4 缺陷二", "slide-5"),
    Chapter(6, "1.5 缺陷三", "slide-6"),
    Chapter(7, "2.0 入门教程", "slide-7"),
    Chapter(8, "2.1 核心法则", "slide-8"),
    Chapter(9, "2.2 系统提示词", "slide-9"),
    Chapter(10, "2.3 元提示词", "slide-10"),
    Chapter(11, "2.4 工具落地", "slide-11"),
    Chapter(12, "2.5 创作公式", "slide-12"),
    Chapter(13, "3.0 进阶教程", "slide-13"),
    Chapter(14, "3.1 知识库检索", "slide-14"),
    Chapter(15, "3.2 工作流编排", "slide-15"),
    Chapter(16, "3.3 Skill范式", "slide-16"),
    Chapter(17, "4.0 创作灵魂", "slide-17"),
    Chapter(18, "4.1 人的价值", "slide-18"),
    Chapter(19, "4.2 AI的边界", "slide-19"),
    Chapter(20, "4.3 协作之道", "slide-20")
  ]

  predicate DistinctIds(chs: seq<Chapter>) {
    forall i, j :: 0 <= i < j < |chs| ==> chs[i].id != chs[j].id
  }

  // ---------------------------------------------------------------------------
  // The registry

  /** Entry k of the registry has index k and id "slide-k"; there are 21 of them. */
  lemma RegistryShape()
    ensures |Chapters| == 21
    ensures forall k :: 0 <= k < |Chapters| ==>
      Chapters[k].index == k && Chapters[k].id == "slide-" + NatToString(k)
  {
    forall k | 0 <= k < |Chapters|
      ensures Chapters[k].index == k && Chapters[k].id == "slide-" + NatToString(k)
    {
      if k < 10 {
        assert NatToString(k) == [DigitChar(k)];
      } else {
        assert NatToString(k) == [DigitChar(k / 10), DigitChar(k % 10)];
      }
    }
  }

  /** No two chapters share a slide: the number after "slide-" reads back as the index. */
  lemma RegistryIdsDistinct()
    ensures DistinctIds(Chapters)
  {
    RegistryShape();
    forall i, j | 0 <= i < j < |Chapters|
      ensures Chapters[i].id != Chapters[j].id
    {
      SlideIdsDiffer(i, j);
    }
  }

  /** Ids "slide-i" and "slide-j" differ for different indices. */
  lemma SlideIdsDiffer(i: nat, j: nat)
    requires i != j
    ensures "slide-" + NatToString(i) != "slide-" + NatToString(j)
  {
    ParseIntOfNatToString(i);
    ParseIntOfNatToString(j);
    assert ("slide-" + NatToString(i))[6..] == NatToString(i);
    assert ("slide-" + NatToString(j))[6..] == NatToString(j);
  }

  // ---------------------------------------------------------------------------
  // Navigation links and taps

  /** The data of one `.chapter-nav-item` link. */
  datatype NavLink = NavLink(href: string, text: string, dataIndex: string)

  /** `href = '#' + id`, text the label, `dataset.index = index` (stored as its decimal text). */
  function LinkFor(c: Chapter): (link: NavLink)
    ensures HrefTarget(link.href) == c.id
    ensures link.text == c.title
  {
    HrefRoundTrip(c.id);
    NavLink("#" + c.id, c.title, NatToString(c.index))
  }

  /** `href.substring(1)`: everything after the first character ("" for an empty string). */
  function HrefTarget(href: string): (r: string)
    ensures |href| >= 1 ==> href == [href[0]] + r
    ensures |href| == 0 ==> r == []
  {
    if |href| >= 1 then href[1..] else ""
  }

  /** The tap handler recovers from a link's href exactly the id the link was built from. */
  lemma HrefRoundTrip(id: string)
    ensures HrefTarget("#" + id) == id
  {
    assert ("#" + id)[1..] == id;
  }

  /** createChapterNav: one link per chapter, in registry order. */
  method CreateChapterNav(chs: seq<Chapter>) returns (links: seq<NavLink>)
    ensures |links| == |chs|
    ensures forall k :: 0 <= k < |chs| ==> links[k] == LinkFor(chs[k])
    ensures forall k :: 0 <= k < |chs| ==>
      HrefTarget(links[k].href) == chs[k].id && ParseInt(links[k].dataIndex) == Some(chs[k].index)
  {
    links := [];
    for k := 0 to |chs|
      invariant |links| == k
      invariant forall j :: 0 <= j < k ==> links[j] == LinkFor(chs[j])
    {
      var link := LinkFor(chs[k]);
      links := links + [link];
    }
    LinksReadBack(chs, links);
  }

  /** Every link built for a chapter reads back to that chapter's id and index. */
  lemma LinksReadBack(chs: seq<Chapter>, links: seq<NavLink>)
    requires |links| == |chs|
    requires forall k :: 0 <= k < |chs| ==> links[k] == LinkFor(chs[k])
    ensures forall k :: 0 <= k < |chs| ==>
      HrefTarget(links[k].href) == chs[k].id && ParseInt(links[k].dataIndex) == Some(chs[k].index)
  {
    forall k | 0 <= k < |chs|
      ensures HrefTarget(links[k].href) == chs[k].id && ParseInt(links[k].dataIndex) == Some(chs[k].index)
    {
      assert links[k] == LinkFor(chs[k]);
      ParseIntOfNatToString(chs[k].index);
    }
  }

  /** scrollToChapter: the scroll target, the slide's top less the header height; nothing when there is no such slide. */
  function ScrollToChapter(offsets: map<string, int>, id: string): (top: Option<int>)
    ensures top.Some? <==> id in offsets
    ensures top.Some? ==> top.value + HeaderHeight == offsets[id]
  {
    if id in offsets then Some(offsets[id] - HeaderHeight) else None
  }

  /** The element a tap lands on: whether it is a chapter link, and its href attribute. */
  datatype ClickTarget = ClickTarget(isNavItem: bool, href: string)

  /** handleChapterNavClick: the default is always prevented; a tap on a chapter link scrolls to that chapter. */
  function HandleChapterNavClick(offsets: map<string, int>, target: ClickTarget): (r: (bool, Option<int>))
    ensures r.0
    ensures r.1.Some? <==> target.isNavItem && HrefTarget(target.href) in offsets
    ensures r.1.Some? ==> r.1.value == offsets[HrefTarget(target.href)] - HeaderHeight
  {
    if target.isNavItem then (true, ScrollToChapter(offsets, HrefTarget(target.href))) else (true, None)
  }

  /** Tapping the link built for a chapter scrolls 120 pixels above that chapter's slide, if it exists. */
  lemma TapScrollsToChapter(offsets: map<string, int>, c: Chapter)
    ensures var r := HandleChapterNavClick(offsets, ClickTarget(true, LinkFor(c).href));
      r.0 && (r.1.Some? <==> c.id in offsets)
      && (c.id in offsets ==> r.1 == Some(offsets[c.id] - 120))
  {
    HrefRoundTrip(c.id);
  }

  /** A tap on anything but a chapter link prevents the default and scrolls nowhere. */
  lemma TapElsewhereDoesNothing(offsets: map<string, int>, href: string)
    ensures HandleChapterNavClick(offsets, ClickTarget(false, href)) == (true, None)
  {
  }

  // ---------------------------------------------------------------------------
  // Back-to-top button

  /** The button's `display` after a scroll event. */
  function BackToTopDisplay(scrollTop: real): (display: string)
    ensures display == "block" || display == "none"
    ensures display == "block" <==> scrollTop > 500.0
  {
    if scrollTop > BackToTopThreshold then "block" else "none"
  }

  /** Once shown, the button stays shown as the page is scrolled further down. */
  lemma BackToTopShown(scrollTop: real, further: real)
    ensures scrollTop <= further && BackToTopDisplay(scrollTop) == "block" ==> BackToTopDisplay(further) == "block"
  {
  }

  // ---------------------------------------------------------------------------
  // Active chapter

  /** A chapter's slide exists and the page is scrolled to within 200 pixels above it. */
  predicate Reached(c: Chapter, offsets: map<string, int>, scrollTop: real) {
    c.id in offsets && scrollTop >= (offsets[c.id] - ActivationMargin) as real
  }

  /** Position of the last reached chapter, or -1 when none is reached. */
  function LastReached(chs: seq<Chapter>, offsets: map<string, int>, scrollTop: real): (r: int)
    ensures -1 <= r < |chs|
    ensures r >= 0 ==> Reached(chs[r], offsets, scrollTop)
    ensures forall k :: r < k < |chs| ==> !Reached(chs[k], offsets, scrollTop)
    decreases |chs|
  {
    if chs == [] then -1
    else if Reached(chs[|chs| - 1], offsets, scrollTop) then |chs| - 1
    else LastReached(chs[..|chs| - 1], offsets, scrollTop)
  }

  /** The chapter to highlight: the last reached one, or the first when none is reached. */
  function ActiveIndex(chs: seq<Chapter>, offsets: map<string, int>, scrollTop: real): nat {
    var r := LastReached(chs, offsets, scrollTop);
    if r < 0 then 0 else r
  }

  /** The scan in updateActiveChapter. */
  method ActiveChapter(chs: seq<Chapter>, offsets: map<string, int>, scrollTop: real) returns (activeIndex: nat)
    ensures activeIndex == ActiveIndex(chs, offsets, scrollTop)
    ensures chs != [] ==> activeIndex < |chs|
    ensures activeIndex > 0 ==> Reached(chs[activeIndex], offsets, scrollTop)
    ensures forall k :: activeIndex < k < |chs| ==> !Reached(chs[k], offsets, scrollTop)
  {
    activeIndex := 0;
    for k := 0 to |chs|
      invariant activeIndex == ActiveIndex(chs[..k], offsets, scrollTop)
    {
      assert chs[..k + 1][..k] == chs[..k];
      var c := chs[k];
      if c.id in offsets {
        var slideTop := offsets[c.id];
        if scrollTop >= (slideTop - ActivationMargin) as real {
          activeIndex := k;
        }
      }
    }
    assert chs[..|chs|] == chs;
  }

  /** Scrolling further down never moves the highlight to an earlier chapter. */
  lemma {:induction false} ActiveIndexMonotone(chs: seq<Chapter>, offsets: map<string, int>, lo: real, hi: real)
    requires lo <= hi
    ensures LastReached(chs, offsets, lo) <= LastReached(chs, offsets, hi)
    ensures ActiveIndex(chs, offsets, lo) <= ActiveIndex(chs, offsets, hi)
    decreases |chs|
  {
    if chs != [] && !Reached(chs[|chs| - 1], offsets, hi) {
      ActiveIndexMonotone(chs[..|chs| - 1], offsets, lo, hi);
    }
  }

  /** updateActiveChapter: compute the active chapter, then make exactly its nav item active. */
  method UpdateActiveChapter(navItems: array<bool>, chs: seq<Chapter>, offsets: map<string, int>, scrollTop: real)
    returns (activeIndex: nat)
    modifies navItems
    ensures activeIndex == ActiveIndex(chs, offsets, scrollTop)
    ensures chs != [] ==> activeIndex < |chs|
    ensures navItems[..] == Highlighted(navItems.Length, activeIndex)
  {
    activeIndex := ActiveChapter(chs, offsets, scrollTop);
    MarkOnly(navItems, activeIndex);
  }

  /** After the highlight, exactly one nav item is active whenever there is one per chapter. */
  lemma HighlightExactlyOne(chs: seq<Chapter>, offsets: map<string, int>, scrollTop: real)
    requires chs != []
    ensures ActiveCount(Highlighted(|chs|, ActiveIndex(chs, offsets, scrollTop))) == 1
  {
    HighlightedCount(|chs|, ActiveIndex(chs, offsets, scrollTop));
  }

  // ---------------------------------------------------------------------------
  // Chapter labels

  /** `part` occurs in `s` starting at position `i`. */
  predicate OccursAt(s: string, part: string, i: int) {
    0 <= i <= |s| - |part| && s[i..i + |part|] == part
  }

  /** `s.includes(part)`. */
  function Contains(s: string, part: string): bool
    decreases |s|
  {
    if |s| < |part| then false
    else if s[..|part|] == part then true
    else Contains(s[1..], part)
  }

  /** A slice of `s` read through `s[1..]`, one position to the left. */
  lemma DropFirstSlice(s: string, a: int, b: int)
    requires 1 <= a <= b <= |s|
    ensures s[a..b] == s[1..][a - 1..b - 1]
  {
    forall k | a <= k < b
      ensures s[k] == s[1..][k - 1]
    {
    }
  }

  /** `Contains` finds `part` exactly when it occurs somewhere in `s`. */
  lemma {:induction false} ContainsOccurs(s: string, part: string)
    ensures Contains(s, part) <==> exists i :: OccursAt(s, part, i)
    decreases |s|
  {
    if |s| >= |part| && s[..|part|] != part {
      ContainsOccurs(s[1..], part);
      forall i | 1 <= i <= |s| - |part|
        ensures OccursAt(s, part, i) <==> OccursAt(s[1..], part, i - 1)
      {
        DropFirstSlice(s, i, i + |part|);
      }
      if Contains(s, part) {
        var j :| OccursAt(s[1..], part, j);
        assert OccursAt(s, part, j + 1);
      }
      if exists i :: OccursAt(s, part, i) {
        var i :| OccursAt(s, part, i);
        assert i != 0;
        assert OccursAt(s[1..], part, i - 1);
      }
    } else if |s| >= |part| {
      assert OccursAt(s, part, 0);
    }
  }

  /** Digits, a dot, digits: what `(\d+\.\d+)` matches, with the first run ending at the dot. */
  predicate IsSectionNumber(p: string) {
    var a := DigitRun(p);
    0 < a && a + 1 < |p| && p[a] == '.' && AllDigits(p[a + 1..])
  }

  /** `label.match(/^(\d+\.\d+)/)[1]`: the leading section number, digit runs taken greedily. */
  function SectionNumber(title: string): (r: Option<string>)
    ensures r.Some? ==> |r.value| <= |title| && r.value == title[..|r.value|] && IsSectionNumber(r.value)
    ensures r.Some? ==> |r.value| == |title| || !IsDigit(title[|r.value|])
  {
    var a := DigitRun(title);
    if a == 0 || a + 1 >= |title| || title[a] != '.' then None
    else
      var b := DigitRun(title[a + 1..]);
      if b == 0 then None
      else
        var p := title[..a + 1 + b];
        DigitRunPrefix(title, a + 1 + b);
        assert DigitRun(p) == a;
        assert p[a + 1..] == title[a + 1..][..b];
        Some(p)
  }

  /** The digit run of a prefix is the digit run of the whole, cut at the prefix. */
  lemma {:induction false} DigitRunPrefix(s: string, n: nat)
    requires n <= |s|
    ensures DigitRun(s[..n]) == if DigitRun(s) < n then DigitRun(s) else n
    decreases n
  {
    if n > 0 && IsDigit(s[0]) {
      assert s[..n][1..] == s[1..][..n - 1];
      DigitRunPrefix(s[1..], n - 1);
    }
  }

  /** When the regular expression finds no match, no prefix of the title is a section number. */
  lemma NoSectionNumber(title: string)
    ensures SectionNumber(title).None? ==> forall n :: 0 <= n <= |title| ==> !IsSectionNumber(title[..n])
  {
    forall n | 0 <= n <= |title|
      ensures IsSectionNumber(title[..n]) ==> SectionNumber(title).Some?
    {
      var p := title[..n];
      if IsSectionNumber(p) {
        var a := DigitRun(p);
        DigitRunPrefix(title, n);
        assert DigitRun(title) == a && title[a] == '.' && a + 1 < |title|;
        assert IsDigit(p[a + 1..][0]) && p[a + 1] == title[a + 1];
        assert DigitRun(title[a + 1..]) > 0;
      }
    }
  }

  /** The `data-chapter` attribute of the slides, by slide id. */
  type Labels = map<string, string>

  /** `!slide.dataset.chapter`: the attribute is missing or empty. */
  predicate Unset(labels: Labels, id: string) {
    id !in labels || labels[id] == ""
  }

  /** One step of the first pass: a chapter whose title contains ".0" labels its slide, if present, with the full title. */
  function MainStep(labels: Labels, present: set<string>, c: Chapter): Labels {
    if Contains(c.title, ".0") && c.id in present then labels[c.id := c.title] else labels
  }

  /** One step of the second pass: a present slide still without a label gets its section number followed by " 章节". */
  function FallbackStep(labels: Labels, present: set<string>, c: Chapter): Labels {
    if c.id in present && Unset(labels, c.id) then
      match SectionNumber(c.title)
      case Some(p) => labels[c.id := p + " 章节"]
      case None => labels
    else labels
  }

  /** The first pass over the chapters, in order. */
  function MainPass(chs: seq<Chapter>, present: set<string>, labels: Labels): Labels
    decreases |chs|
  {
    if chs == [] then labels
    else MainStep(MainPass(chs[..|chs| - 1], present, labels), present, chs[|chs| - 1])
  }

  /** The second pass over the chapters, in order. */
  function FallbackPass(chs: seq<Chapter>, present: set<string>, labels: Labels): Labels
    decreases |chs|
  {
    if chs == [] then labels
    else FallbackStep(FallbackPass(chs[..|chs| - 1], present, labels), present, chs[|chs| - 1])
  }

  /** A step for one chapter leaves every other slide's label alone. */
  lemma StepsKeepOthers(labels: Labels, present: set<string>, c: Chapter, id: string)
    requires c.id != id
    ensures var m := MainStep(labels, present, c);
      (id in m <==> id in labels) && (id in labels ==> m[id] == labels[id])
    ensures var f := FallbackStep(labels, present, c);
      (id in f <==> id in labels) && (id in labels ==> f[id] == labels[id])
  {
  }

  /** addChapterLabels, both passes. */
  method AddChapterLabels(chs: seq<Chapter>, present: set<string>, labels: Labels) returns (r: Labels)
    ensures r == FallbackPass(chs, present, MainPass(chs, present, labels))
  {
    r := labels;
    for k := 0 to |chs|
      invariant r == MainPass(chs[..k], present, labels)
    {
      assert chs[..k + 1][..k] == chs[..k];
      var c := chs[k];
      if Contains(c.title, ".0") && c.id in present {
        r := r[c.id := c.title];
      }
    }
    assert chs[..|chs|] == chs;
    ghost var afterMain := r;
    for k := 0 to |chs|
      invariant r == FallbackPass(chs[..k], present, afterMain)
    {
      assert chs[..k + 1][..k] == chs[..k];
      var c := chs[k];
      if c.id in present && (c.id !in r || r[c.id] == "") {
        var m := SectionNumber(c.title);
        if m.Some? {
          r := r[c.id := m.value + " 章节"];
        }
      }
    }
    assert chs[..|chs|] == chs;
  }

  /** The second pass never overwrites a label that is already set. */
  lemma {:induction false} FallbackKeepsLabels(chs: seq<Chapter>, present: set<string>, labels: Labels, id: string)
    requires !Unset(labels, id)
    ensures id in FallbackPass(chs, present, labels)
    ensures FallbackPass(chs, present, labels)[id] == labels[id]
    decreases |chs|
  {
    if chs != [] {
      FallbackKeepsLabels(chs[..|chs| - 1], present, labels, id);
    }
  }

  /** Neither pass touches a slide no chapter of the list names. */
  lemma {:induction false} PassesKeepOthers(chs: seq<Chapter>, present: set<string>, labels: Labels, id: string)
    requires forall k :: 0 <= k < |chs| ==> chs[k].id != id
    ensures var m := MainPass(chs, present, labels);
      (id in m <==> id in labels) && (id in labels ==> m[id] == labels[id])
    ensures var f := FallbackPass(chs, present, labels);
      (id in f <==> id in labels) && (id in labels ==> f[id] == labels[id])
    decreases |chs|
  {
    if chs != [] {
      PassesKeepOthers(chs[..|chs| - 1], present, labels, id);
      StepsKeepOthers(MainPass(chs[..|chs| - 1], present, labels), present, chs[|chs| - 1], id);
      StepsKeepOthers(FallbackPass(chs[..|chs| - 1], present, labels), present, chs[|chs| - 1], id);
    }
  }

  /** After the first pass, the slide of chapter k carries its full label when that
      label contains ".0", and whatever it had before otherwise. */
  lemma {:induction false} MainPassAt(chs: seq<Chapter>, present: set<string>, labels: Labels, k: nat)
    requires DistinctIds(chs) && k < |chs|
    ensures var c := chs[k]; var m := MainPass(chs, present, labels);
      if Contains(c.title, ".0") && c.id in present then c.id in m && m[c.id] == c.title
      else (c.id in m <==> c.id in labels) && (c.id in labels ==> m[c.id] == labels[c.id])
    decreases |chs|
  {
    var n := |chs| - 1;
    var init := chs[..n];
    if k == n {
      PassesKeepOthers(init, present, labels, chs[k].id);
    } else {
      assert DistinctIds(init);
      MainPassAt(init, present, labels, k);
      StepsKeepOthers(MainPass(init, present, labels), present, chs[n], chs[k].id);
    }
  }

  /** After the second pass, a present slide of chapter k that had no label gets its
      section number plus " 章节" when the label starts with one; otherwise it is unchanged. */
  lemma {:induction false} FallbackPassAt(chs: seq<Chapter>, present: set<string>, labels: Labels, k: nat)
    requires DistinctIds(chs) && k < |chs|
    ensures var c := chs[k]; var f := FallbackPass(chs, present, labels);
      if c.id in present && Unset(labels, c.id) && SectionNumber(c.title).Some? then
        c.id in f && f[c.id] == SectionNumber(c.title).value + " 章节"
      else (c.id in f <==> c.id in labels) && (c.id in labels ==> f[c.id] == labels[c.id])
    decreases |chs|
  {
    var n := |chs| - 1;
    var init := chs[..n];
    if k == n {
      PassesKeepOthers(init, present, labels, chs[k].id);
    } else {
      assert DistinctIds(init);
      FallbackPassAt(init, present, labels, k);
      StepsKeepOthers(FallbackPass(init, present, labels), present, chs[n], chs[k].id);
    }
  }

  /** What addChapterLabels leaves on the slide of each chapter. */
  lemma ChapterLabelOutcome(chs: seq<Chapter>, present: set<string>, labels: Labels, k: nat)
    requires DistinctIds(chs) && k < |chs| && chs[k].id in present
    ensures var c := chs[k]; var r := FallbackPass(chs, present, MainPass(chs, present, labels));
      && (Contains(c.title, ".0") ==> c.id in r && r[c.id] == c.title)
      && (!Contains(c.title, ".0") && !Unset(labels, c.id) ==> c.id in r && r[c.id] == labels[c.id])
      && (!Contains(c.title, ".0") && Unset(labels, c.id) && SectionNumber(c.title).Some? ==>
            c.id in r && r[c.id] == SectionNumber(c.title).value + " 章节")
      && (!Contains(c.title, ".0") && SectionNumber(c.title).None? ==>
            (c.id in r <==> c.id in labels) && (c.id in labels ==> r[c.id] == labels[c.id]))
  {
    var c := chs[k];
    var m := MainPass(chs, present, labels);
    MainPassAt(chs, present, labels, k);
    FallbackPassAt(chs, present, m, k);
    if Contains(c.title, ".0") {
      FallbackKeepsLabels(chs, present, m, c.id);
    }
  }

  /** The introduction has no section number and no ".0", so addChapterLabels gives it no label. */
  lemma IntroductionUnlabelled()
    ensures !Contains(Chapters[0].title, ".0") && SectionNumber(Chapters[0].title).None?
  {
    var intro := Chapters[0].title;
    assert intro == "引言" && !IsDigit(intro[0]);
    ContainsOccurs(intro, ".0");
  }

  /** "1.0 认知重启" contains ".0": it is a main chapter and keeps its full label. */
  lemma FirstChapterIsMain()
    ensures Contains(Chapters[1].title, ".0")
  {
    var first := Chapters[1].title;
    assert first == "1.0 认知重启";
    ContainsOccurs(first, ".0");
    assert OccursAt(first, ".0", 1);
  }

  /** "1.1 核心原理" does not contain ".0": it is not a main chapter. */
  lemma SecondChapterNotMain()
    ensures !Contains(Chapters[2].title, ".0")
  {
    var second := Chapters[2].title;
    assert second == "1.1 核心原理";
    ContainsOccurs(second, ".0");
    forall i | 0 <= i <= |second| - 2
      ensures !OccursAt(second, ".0", i)
    {
      assert second[i..i + 2][0] == second[i];
      assert second[i..i + 2][1] == second[i + 1];
    }
  }

  /** The section number of "1.1 核心原理" is "1.1", so its slide falls back to "1.1 章节". */
  lemma SecondChapterSection()
    ensures SectionNumber(Chapters[2].title) == Some("1.1")
  {
    var second := Chapters[2].title;
    assert second == "1.1 核心原理";
    assert second[1..] == ".1 核心原理";
    assert DigitRun(second) == 1;
    assert second[2..] == "1 核心原理";
    assert second[3..] == " 核心原理";
    assert DigitRun(second[2..]) == 1;
    assert second[..3] == "1.1";
  }

  // ---------------------------------------------------------------------------
  // Page set-up and scrolling

  /** What the script adds to a mobile page: the chapter links, the slide labels,
      the back-to-top button's display, the active chapter and the nav items' active flags. */
  datatype Overlay = Overlay(links: seq<NavLink>, labels: Labels, backToTop: string,
                             activeIndex: nat, navActive: seq<bool>)

  /** init: nothing at all on a wide viewport; on a narrow one, build the navigation,
      the progress bar and the button, label the slides, then run one scroll update. */
  method Init(innerWidth: int, offsets: map<string, int>, labels: Labels, scrollTop: real)
    returns (overlay: Option<Overlay>)
    ensures overlay.None? <==> !IsMobile(innerWidth)
    ensures overlay.Some? ==> var o := overlay.value;
      && |o.links| == |Chapters|
      && (forall k :: 0 <= k < |Chapters| ==> o.links[k] == LinkFor(Chapters[k]))
      && o.labels == FallbackPass(Chapters, offsets.Keys, MainPass(Chapters, offsets.Keys, labels))
      && o.backToTop == BackToTopDisplay(scrollTop)
      && o.activeIndex == ActiveIndex(Chapters, offsets, scrollTop) && o.activeIndex < |Chapters|
      && o.navActive == Highlighted(|Chapters|, o.activeIndex)
  {
    if !IsMobile(innerWidth) {
      return None;
    }
    var chs := Chapters;
    assert |chs| == 21;
    var links := CreateChapterNav(chs);
    var newLabels := AddChapterLabels(chs, offsets.Keys, labels);
    var navItems := new bool[|links|];
    var display := BackToTopDisplay(scrollTop);
    var activeIndex := UpdateActiveChapter(navItems, chs, offsets, scrollTop);
    overlay := Some(Overlay(links, newLabels, display, activeIndex, navItems[..]));
  }

  /** The scroll listener: update the back-to-top button and the active chapter. */
  method OnScroll(navItems: array<bool>, offsets: map<string, int>, scrollTop: real)
    returns (display: string, activeIndex: nat)
    modifies navItems
    ensures display == BackToTopDisplay(scrollTop)
    ensures activeIndex == ActiveIndex(Chapters, offsets, scrollTop)
    ensures navItems[..] == Highlighted(navItems.Length, activeIndex)
  {
    display := BackToTopDisplay(scrollTop);
    activeIndex := UpdateActiveChapter(navItems, Chapters, offsets, scrollTop);
  }
}
