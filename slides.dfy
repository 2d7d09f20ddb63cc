/**
 * The desktop slide navigator of assets/js/slides.js: one current slide index
 * over a deck of 24 slides, moved by `goToSlide`, `nextSlide`, `prevSlide`, the
 * keyboard and the mouse wheel, and followed passively by an intersection
 * observer; after every move the table of contents, the progress bar and the
 * reveal animation of the current slide are brought up to date.
 *
 * Timers are events here: the 50 ms wheel debounce, the 1000 ms wheel
 * cooldown and the 1000 ms observer reconnect each fire as a method call of
 * their own, in whatever order the caller chooses.
 *
 * The pure part (`NavState` and the transition functions) is the specification;
 * the class `Navigator` holds the script's module-level variables and its
 * methods are proved to perform exactly those transitions.
 */
module Slides {
  import opened Options
  import opened Text
  import opened Marks

  /** Slides `slide-0` … `slide-23`. */
  const TotalSlides := 24

  /** A wheel gesture turns the page only when its deltaY exceeds this in magnitude. */
  const WheelThreshold := 30.0

  /** Width of the progress bar, in percent, while slide `index` is current. */
  function Progress(index: int): real {
    (index + 1) as real / TotalSlides as real * 100.0
  }

  /** What a key press asks for. */
  datatype Action = NextAction | PrevAction | FirstAction | LastAction | NoAction

  function KeyAction(key: string): Action {
    if key in {"ArrowDown", "ArrowRight", " ", "PageDown"} then NextAction
    else if key in {"ArrowUp", "ArrowLeft", "PageUp"} then PrevAction
    else if key == "Home" then FirstAction
    else if key == "End" then LastAction
    else NoAction
  }

  /** One intersection-observer entry: whether the slide container intersects the
      middle band of the viewport, and its `data-index` attribute (None when absent). */
  datatype Entry = Entry(isIntersecting: bool, dataIndex: Option<string>)

  /** `parseInt(getAttribute('data-index'))`; a missing attribute reads as null, which parses to NaN. */
  function ParseAttribute(a: Option<string>): Option<int> {
    match a
    case None => None
    case Some(t) => ParseInt(t)
  }

  /**
   * Everything the navigator's events read or write.
   *   current           currentSlide
   *   isScrolling       the wheel cooldown gate
   *   pendingWheel      deltaY of the wheel event whose debounce timer is scheduled
   *   observing         whether the observer watches the slide containers
   *   pendingReconnects reconnect timers scheduled by goToSlide and not yet fired
   *   progress          width of the progress bar; None when the page has none
   *   toc               the `active` class of each table-of-contents item, in order
   *   revealed          slides whose reveal animation was restarted, oldest first
   *   scrolled          slides scrolled into view by goToSlide, oldest first
   */
  datatype NavState = NavState(
    current: int,
    isScrolling: bool,
    pendingWheel: Option<real>,
    observing: bool,
    pendingReconnects: nat,
    progress: Option<real>,
    toc: seq<bool>,
    revealed: seq<int>,
    scrolled: seq<int>)

  predicate InRange(s: NavState) {
    0 <= s.current < TotalSlides
  }

  /** What holds in every reachable state: a debounce is scheduled only outside the
      cooldown, the progress bar always shows the current slide, and a disconnected
      observer always has a reconnect on its way. */
  predicate Consistent(s: NavState) {
    && (s.pendingWheel.Some? ==> !s.isScrolling)
    && (s.progress.Some? ==> s.progress.value == Progress(s.current))
    && (s.pendingReconnects == 0 ==> s.observing)
  }

  /** State after `init` and `setupNavigation`: slide 0, progress drawn, slide 0's
      content revealed, observer watching; the TOC is left as the markup has it. */
  function Initial(slides: set<int>, toc: seq<bool>, hasProgressBar: bool): NavState {
    NavState(0, false, None, true, 0,
             if hasProgressBar then Some(Progress(0)) else None,
             toc, if 0 in slides then [0] else [], [])
  }

  /** `currentSlide = index` followed by updateTOC, updateProgress and animateSlideContent;
      the animation only runs when the element `slide-<index>` exists. */
  function Show(s: NavState, slides: set<int>, index: int): NavState {
    s.(current := index,
       toc := Highlighted(|s.toc|, index),
       progress := if s.progress.Some? then Some(Progress(index)) else None,
       revealed := if index in slides then s.revealed + [index] else s.revealed)
  }

  /** goToSlide(index); `slides` holds the n for which the document has `slide-<n>`. */
  function GoTo(s: NavState, slides: set<int>, index: int): NavState {
    if index < 0 || index >= TotalSlides then s
    else if index !in slides then s
    else
      var t := s.(observing := false, scrolled := s.scrolled + [index]);
      Show(t, slides, index).(pendingReconnects := s.pendingReconnects + 1)
  }

  function Next(s: NavState, slides: set<int>): NavState {
    if s.current < TotalSlides - 1 then GoTo(s, slides, s.current + 1) else s
  }

  function Prev(s: NavState, slides: set<int>): NavState {
    if s.current > 0 then GoTo(s, slides, s.current - 1) else s
  }

  function KeyDown(s: NavState, slides: set<int>, key: string): NavState {
    match KeyAction(key)
    case NextAction => Next(s, slides)
    case PrevAction => Prev(s, slides)
    case FirstAction => GoTo(s, slides, 0)
    case LastAction => GoTo(s, slides, TotalSlides - 1)
    case NoAction => s
  }

  /** A wheel event: ignored during the cooldown; otherwise it replaces any scheduled debounce. */
  function Wheel(s: NavState, deltaY: real): NavState {
    if s.isScrolling then s else s.(pendingWheel := Some(deltaY))
  }

  /** The 50 ms debounce fires for the last wheel event: turn the page if the delta
      clears the threshold, and start the cooldown in every case. */
  function WheelDebounce(s: NavState, slides: set<int>): NavState
    requires s.pendingWheel.Some?
  {
    var d := s.pendingWheel.value;
    var t := if d > WheelThreshold then Next(s, slides)
             else if d < -WheelThreshold then Prev(s, slides)
             else s;
    t.(isScrolling := true, pendingWheel := None)
  }

  /** The 1000 ms cooldown started by a debounce expires. */
  function Cooldown(s: NavState): NavState
    requires s.isScrolling
  {
    s.(isScrolling := false)
  }

  /** One of the 1000 ms reconnect timers scheduled by goToSlide fires: every slide is observed again. */
  function Reconnect(s: NavState): NavState
    requires s.pendingReconnects > 0
  {
    s.(observing := true, pendingReconnects := s.pendingReconnects - 1)
  }

  /** The observer callback's handling of one entry. */
  function ObserveEntry(s: NavState, slides: set<int>, e: Entry): NavState {
    if !e.isIntersecting then s
    else match ParseAttribute(e.dataIndex)
      case None => s
      case Some(i) => if i != s.current then Show(s, slides, i) else s
  }

  /** The observer callback over a batch of entries, in order. */
  function ObserveAll(s: NavState, slides: set<int>, es: seq<Entry>): NavState
    decreases |es|
  {
    if es == [] then s
    else ObserveEntry(ObserveAll(s, slides, es[..|es| - 1]), slides, es[|es| - 1])
  }

  /** A batch of observer entries; a disconnected observer delivers none. */
  function Report(s: NavState, slides: set<int>, es: seq<Entry>): NavState {
    if s.observing then ObserveAll(s, slides, es) else s
  }

  // ---------------------------------------------------------------------------
  // Properties of the navigator

  /** goToSlide guards its argument instead of clamping it: out of range, or with no
      such slide in the document, nothing at all changes. */
  lemma GoToGuard(s: NavState, slides: set<int>, index: int)
    requires index < 0 || index >= TotalSlides || index !in slides
    ensures GoTo(s, slides, index) == s
  {
  }

  /** A successful goToSlide: the index is set, exactly the TOC item at that index is
      active (none if the TOC is shorter), the bar shows the new progress, the slide is
      scrolled to and revealed, and the observer is disconnected with one more
      reconnect scheduled; the wheel state is untouched. */
  lemma GoToEffect(s: NavState, slides: set<int>, index: int)
    requires 0 <= index < TotalSlides && index in slides
    ensures var r := GoTo(s, slides, index);
      && r.current == index
      && |r.toc| == |s.toc|
      && (forall k :: 0 <= k < |r.toc| ==> (r.toc[k] <==> k == index))
      && ActiveCount(r.toc) == (if index < |s.toc| then 1 else 0)
      && r.progress == (if s.progress.Some? then Some(Progress(index)) else None)
      && r.scrolled == s.scrolled + [index]
      && r.revealed == s.revealed + [index]
      && !r.observing && r.pendingReconnects == s.pendingReconnects + 1
      && r.isScrolling == s.isScrolling && r.pendingWheel == s.pendingWheel
  {
    HighlightedCount(|s.toc|, index);
  }

  /** goToSlide to the slide already current is not short-circuited: it scrolls,
      restarts the animation and schedules a reconnect again. */
  lemma GoToSameSlideRepeats(s: NavState, slides: set<int>)
    requires InRange(s) && s.current in slides
    ensures var r := GoTo(s, slides, s.current);
      r.current == s.current && r.scrolled == s.scrolled + [s.current]
      && r.revealed == s.revealed + [s.current] && r != s
  {
    GoToEffect(s, slides, s.current);
  }

  /** nextSlide on the last slide and prevSlide on the first do nothing. */
  lemma BoundaryNoOps(s: NavState, slides: set<int>)
    ensures s.current == TotalSlides - 1 ==> Next(s, slides) == s
    ensures s.current == 0 ==> Prev(s, slides) == s
  {
  }

  /** Otherwise each moves by exactly one, provided the neighbouring slide exists. */
  lemma NextPrevStep(s: NavState, slides: set<int>)
    requires InRange(s)
    ensures s.current < TotalSlides - 1 && s.current + 1 in slides ==> Next(s, slides).current == s.current + 1
    ensures s.current < TotalSlides - 1 && s.current + 1 !in slides ==> Next(s, slides) == s
    ensures s.current > 0 && s.current - 1 in slides ==> Prev(s, slides).current == s.current - 1
    ensures s.current > 0 && s.current - 1 !in slides ==> Prev(s, slides) == s
  {
  }

  /** Key dispatch: which keys move where, and every other key changes nothing. */
  lemma KeyDispatch(s: NavState, slides: set<int>, key: string)
    ensures key in {"ArrowDown", "ArrowRight", " ", "PageDown"} ==> KeyDown(s, slides, key) == Next(s, slides)
    ensures key in {"ArrowUp", "ArrowLeft", "PageUp"} ==> KeyDown(s, slides, key) == Prev(s, slides)
    ensures key == "Home" ==> KeyDown(s, slides, key) == GoTo(s, slides, 0)
    ensures key == "End" ==> KeyDown(s, slides, key) == GoTo(s, slides, 23)
    ensures KeyAction(key) == NoAction <==>
      key !in {"ArrowDown", "ArrowRight", " ", "PageDown", "ArrowUp", "ArrowLeft", "PageUp", "Home", "End"}
    ensures KeyAction(key) == NoAction ==> KeyDown(s, slides, key) == s
  {
  }

  /** The progress value lies in (0, 100] for every slide, is 100 exactly on the last
      slide, and is 100/24 on the first. */
  lemma ProgressRange(i: int)
    requires 0 <= i < TotalSlides
    ensures 0.0 < Progress(i) <= 100.0
    ensures Progress(i) == 100.0 <==> i == TotalSlides - 1
    ensures Progress(0) == 100.0 / 24.0
  {
  }

  /** The progress value strictly increases with the slide index. */
  lemma ProgressIncreasing(i: int, j: int)
    requires i < j
    ensures Progress(i) < Progress(j)
  {
  }

  /** The navigation entry points keep the index in [0, 23]. */
  lemma NavigationKeepsRange(s: NavState, slides: set<int>, index: int, key: string, deltaY: real)
    requires InRange(s)
    ensures InRange(GoTo(s, slides, index))
    ensures InRange(Next(s, slides)) && InRange(Prev(s, slides))
    ensures InRange(KeyDown(s, slides, key))
    ensures InRange(Wheel(s, deltaY))
    ensures s.pendingWheel.Some? ==> InRange(WheelDebounce(s, slides))
    ensures s.isScrolling ==> InRange(Cooldown(s))
    ensures s.pendingReconnects > 0 ==> InRange(Reconnect(s))
  {
  }

  /** The observer path keeps the index in range only when every data-index it can
      read is in range: it performs no range check of its own. */
  lemma {:induction false} ObserverKeepsRange(s: NavState, slides: set<int>, es: seq<Entry>)
    requires InRange(s)
    requires forall k :: 0 <= k < |es| && es[k].isIntersecting && ParseAttribute(es[k].dataIndex).Some? ==>
      0 <= ParseAttribute(es[k].dataIndex).value < TotalSlides
    ensures InRange(ObserveAll(s, slides, es))
    decreases |es|
  {
    if es != [] {
      ObserverKeepsRange(s, slides, es[..|es| - 1]);
    }
  }

  /** An intersecting slide whose data-index is "24", or any other index past the
      deck, moves the index out of range. */
  lemma ObserverEscapesRange(s: NavState, slides: set<int>, n: nat)
    requires InRange(s) && s.observing && n >= TotalSlides
    ensures !InRange(Report(s, slides, [Entry(true, Some(NatToString(n)))]))
  {
    var e := Entry(true, Some(NatToString(n)));
    ParseIntOfNatToString(n);
    assert ParseAttribute(e.dataIndex) == Some(n);
    assert [e][..0] == [];
    assert ObserveAll(s, slides, [e]) == ObserveEntry(s, slides, e);
  }

  /** The observer path never scrolls and never touches the observer, the
      reconnect timers or the wheel state. */
  lemma {:induction false} ObserverNeverScrolls(s: NavState, slides: set<int>, es: seq<Entry>)
    ensures var r := ObserveAll(s, slides, es);
      && r.scrolled == s.scrolled && r.observing == s.observing
      && r.pendingReconnects == s.pendingReconnects
      && r.isScrolling == s.isScrolling && r.pendingWheel == s.pendingWheel
    decreases |es|
  {
    if es != [] {
      ObserverNeverScrolls(s, slides, es[..|es| - 1]);
    }
  }

  /** An entry updates the state only when it intersects, its data-index parses and
      differs from the current index; the update is goToSlide's minus the scroll. */
  lemma ObserveEntryEffect(s: NavState, slides: set<int>, e: Entry)
    ensures var r := ObserveEntry(s, slides, e);
      r != s ==> e.isIntersecting && ParseAttribute(e.dataIndex).Some?
                 && r.current == ParseAttribute(e.dataIndex).value != s.current
    ensures e.isIntersecting && ParseAttribute(e.dataIndex).Some? && ParseAttribute(e.dataIndex).value != s.current ==>
      ObserveEntry(s, slides, e) == Show(s, slides, ParseAttribute(e.dataIndex).value)
  {
  }

  /** During the settle window after a goToSlide the observer's reports are ignored;
      only a reconnect lets them through again. */
  lemma SettleWindowIgnoresObserver(s: NavState, slides: set<int>, index: int, es: seq<Entry>)
    requires 0 <= index < TotalSlides && index in slides
    ensures var r := GoTo(s, slides, index);
      Report(r, slides, es) == r && Reconnect(r).observing
  {
  }

  /** Only a reconnect turns the observer back on: while it is disconnected every other
      event leaves it disconnected, and its reports change nothing. */
  lemma {:induction false} OnlyReconnectReobserves(s: NavState, slides: set<int>, index: int, key: string,
                                                  deltaY: real, es: seq<Entry>)
    requires !s.observing
    ensures !GoTo(s, slides, index).observing && !Next(s, slides).observing && !Prev(s, slides).observing
    ensures !KeyDown(s, slides, key).observing && !Wheel(s, deltaY).observing
    ensures s.pendingWheel.Some? ==> !WheelDebounce(s, slides).observing
    ensures s.isScrolling ==> !Cooldown(s).observing
    ensures Report(s, slides, es) == s
    ensures s.pendingReconnects > 0 ==> Reconnect(s).observing
  {
  }

  /** Each goToSlide schedules a reconnect of its own and none is cancelled, so after two
      quick jumps the first reconnect already re-observes while the second is still pending. */
  lemma EarlyReconnect(s: NavState, slides: set<int>, i: int, j: int)
    requires 0 <= i < TotalSlides && i in slides && 0 <= j < TotalSlides && j in slides
    ensures var r := Reconnect(GoTo(GoTo(s, slides, i), slides, j));
      r.observing && r.pendingReconnects == s.pendingReconnects + 1 && r.current == j
  {
  }

  /** While the cooldown is running a wheel event has no effect. */
  lemma WheelGate(s: NavState, deltaY: real)
    requires s.isScrolling
    ensures Wheel(s, deltaY) == s
  {
  }

  /** The debounce turns the page by the sign of the last delta beyond ±30 and
      starts the cooldown whatever the delta. */
  lemma WheelDebounceEffect(s: NavState, slides: set<int>)
    requires s.pendingWheel.Some?
    ensures var d := s.pendingWheel.value; var r := WheelDebounce(s, slides);
      && r.isScrolling && r.pendingWheel.None?
      && (d > 30.0 ==> r == Next(s, slides).(isScrolling := true, pendingWheel := None))
      && (d < -30.0 ==> r == Prev(s, slides).(isScrolling := true, pendingWheel := None))
      && (-30.0 <= d <= 30.0 ==> r == s.(isScrolling := true, pendingWheel := None))
  {
  }

  /** Only the cooldown clears the gate: every other event leaves it set. */
  lemma {:induction false} OnlyCooldownClearsGate(s: NavState, slides: set<int>, index: int, key: string,
                                                 deltaY: real, es: seq<Entry>)
    requires s.isScrolling
    ensures GoTo(s, slides, index).isScrolling && Next(s, slides).isScrolling && Prev(s, slides).isScrolling
    ensures KeyDown(s, slides, key).isScrolling && Wheel(s, deltaY).isScrolling
    ensures s.pendingReconnects > 0 ==> Reconnect(s).isScrolling
    ensures Report(s, slides, es).isScrolling
    ensures !Cooldown(s).isScrolling
  {
    ObserverNeverScrolls(s, slides, es);
  }

  /** Two wheel events within one debounce window count once, by the later delta:
      +50 then +10 does not turn the page, +10 then +50 does. */
  lemma WheelCoalesces(s: NavState, slides: set<int>)
    requires !s.isScrolling
    ensures WheelDebounce(Wheel(Wheel(s, 50.0), 10.0), slides).current == s.current
    ensures WheelDebounce(Wheel(Wheel(s, 10.0), 50.0), slides).current == Next(s, slides).current
  {
  }

  /** Every event keeps the state consistent. */
  lemma {:induction false} EventsKeepConsistent(s: NavState, slides: set<int>, index: int, key: string,
                                               deltaY: real, es: seq<Entry>)
    requires Consistent(s)
    ensures Consistent(GoTo(s, slides, index)) && Consistent(Next(s, slides)) && Consistent(Prev(s, slides))
    ensures Consistent(KeyDown(s, slides, key)) && Consistent(Wheel(s, deltaY))
    ensures s.pendingWheel.Some? ==> Consistent(WheelDebounce(s, slides))
    ensures s.isScrolling ==> Consistent(Cooldown(s))
    ensures s.pendingReconnects > 0 ==> Consistent(Reconnect(s))
    ensures Consistent(Report(s, slides, es))
  {
    GoToConsistent(s, slides, index);
    GoToConsistent(s, slides, s.current + 1);
    GoToConsistent(s, slides, s.current - 1);
    GoToConsistent(s, slides, 0);
    GoToConsistent(s, slides, TotalSlides - 1);
    ObserveAllConsistent(s, slides, es);
  }

  /** goToSlide keeps the state consistent. */
  lemma GoToConsistent(s: NavState, slides: set<int>, index: int)
    requires Consistent(s)
    ensures Consistent(GoTo(s, slides, index))
  {
  }

  lemma {:induction false} ObserveAllConsistent(s: NavState, slides: set<int>, es: seq<Entry>)
    requires Consistent(s)
    ensures Consistent(ObserveAll(s, slides, es))
    decreases |es|
  {
    if es != [] {
      ObserveAllConsistent(s, slides, es[..|es| - 1]);
      ObserverNeverScrolls(s, slides, es[..|es| - 1]);
    }
  }

  /** From the initial state, five nextSlide calls reach slide 5 at 25% progress. */
  lemma FiveNexts(slides: set<int>, toc: seq<bool>)
    requires forall i :: 0 <= i <= 5 ==> i in slides
    ensures var s := Initial(slides, toc, true);
      var r := Next(Next(Next(Next(Next(s, slides), slides), slides), slides), slides);
      r.current == 5 && r.progress == Some(25.0)
  {
  }

  // ---------------------------------------------------------------------------
  // The script's state and event handlers

  class Navigator {
    /** The n for which the document holds an element `slide-<n>`. */
    const slides: set<int>
    /** The `active` class of each `.toc-item`, in document order. */
    const toc: array<bool>

    var currentSlide: int
    var isScrolling: bool
    var pendingWheel: Option<real>
    var observing: bool
    var pendingReconnects: nat
    var progress: Option<real>
    var revealed: seq<int>
    var scrolled: seq<int>

    ghost function State(): NavState
      reads this, toc
    {
      NavState(currentSlide, isScrolling, pendingWheel, observing, pendingReconnects,
               progress, toc[..], revealed, scrolled)
    }

    ghost predicate Valid()
      reads this, toc
    {
      Consistent(State())
    }

    /** init: draw the progress bar, reveal slide 0, set up the observer. */
    constructor (slides: set<int>, tocItems: seq<bool>, hasProgressBar: bool)
      ensures this.slides == slides && fresh(toc)
      ensures Valid() && State() == Initial(slides, tocItems, hasProgressBar)
    {
      this.slides := slides;
      toc := new bool[|tocItems|](k requires 0 <= k < |tocItems| => tocItems[k]);
      currentSlide := 0;
      isScrolling := false;
      pendingWheel := None;
      observing := false;
      pendingReconnects := 0;
      progress := if hasProgressBar then Some(0.0) else None;  // the bar's width before init
      revealed := [];
      scrolled := [];
      new;
      assert toc[..] == tocItems;
      UpdateProgress();
      AnimateSlideContent(0);
      observing := true;
    }

    method UpdateToc()
      modifies toc
      ensures State() == old(State()).(toc := Highlighted(toc.Length, currentSlide))
    {
      MarkOnly(toc, currentSlide);
    }

    method UpdateProgress()
      modifies this
      ensures State() == old(State()).(progress := if old(progress).Some? then Some(Progress(currentSlide)) else None)
    {
      if progress.Some? {
        progress := Some(Progress(currentSlide));
      }
    }

    method AnimateSlideContent(index: int)
      modifies this
      ensures State() == old(State()).(revealed := if index in slides then old(revealed) + [index] else old(revealed))
    {
      if index in slides {
        revealed := revealed + [index];
      }
    }

    /** `currentSlide = index; updateTOC(); updateProgress(); animateSlideContent(index);` */
    method ShowSlide(index: int)
      modifies this, toc
      ensures State() == Show(old(State()), slides, index)
    {
      currentSlide := index;
      UpdateToc();
      UpdateProgress();
      AnimateSlideContent(index);
    }

    method GoToSlide(index: int)
      requires Valid()
      modifies this, toc
      ensures Valid() && State() == GoTo(old(State()), slides, index)
    {
      if index < 0 || index >= TotalSlides {
        return;
      }
      if index !in slides {
        return;
      }
      observing := false;
      scrolled := scrolled + [index];
      ShowSlide(index);
      pendingReconnects := pendingReconnects + 1;
      EventsKeepConsistent(old(State()), slides, index, "", 0.0, []);
    }

    method NextSlide()
      requires Valid()
      modifies this, toc
      ensures Valid() && State() == Next(old(State()), slides)
    {
      if currentSlide < TotalSlides - 1 {
        GoToSlide(currentSlide + 1);
      }
    }

    method PrevSlide()
      requires Valid()
      modifies this, toc
      ensures Valid() && State() == Prev(old(State()), slides)
    {
      if currentSlide > 0 {
        GoToSlide(currentSlide - 1);
      }
    }

    /** handleKeydown; `prevented` tells whether preventDefault was called. */
    method HandleKeydown(key: string) returns (prevented: bool)
      requires Valid()
      modifies this, toc
      ensures prevented <==> KeyAction(key) != NoAction
      ensures Valid() && State() == KeyDown(old(State()), slides, key)
    {
      match KeyAction(key)
      case NextAction =>
        prevented := true;
        NextSlide();
      case PrevAction =>
        prevented := true;
        PrevSlide();
      case FirstAction =>
        prevented := true;
        GoToSlide(0);
      case LastAction =>
        prevented := true;
        GoToSlide(TotalSlides - 1);
      case NoAction =>
        prevented := false;
    }

    method HandleWheel(deltaY: real)
      requires Valid()
      modifies this
      ensures Valid() && State() == Wheel(old(State()), deltaY)
    {
      if isScrolling {
        return;
      }
      pendingWheel := Some(deltaY);
    }

    method WheelDebounceFires()
      requires Valid() && pendingWheel.Some?
      modifies this, toc
      ensures Valid() && State() == WheelDebounce(old(State()), slides)
    {
      var d := pendingWheel.value;
      if d > WheelThreshold {
        NextSlide();
      } else if d < -WheelThreshold {
        PrevSlide();
      }
      isScrolling := true;
      pendingWheel := None;
    }

    method CooldownExpires()
      requires Valid() && isScrolling
      modifies this
      ensures Valid() && State() == Cooldown(old(State()))
    {
      isScrolling := false;
    }

    method ReconnectFires()
      requires Valid() && pendingReconnects > 0
      modifies this
      ensures Valid() && State() == Reconnect(old(State()))
    {
      observing := true;
      pendingReconnects := pendingReconnects - 1;
    }

    /** The observer callback, given the batch of entries the browser delivers. */
    method ObserverReports(entries: seq<Entry>)
      requires Valid()
      modifies this, toc
      ensures Valid() && State() == Report(old(State()), slides, entries)
    {
      if !observing {
        return;
      }
      ghost var s0 := State();
      for k := 0 to |entries|
        invariant State() == ObserveAll(s0, slides, entries[..k])
      {
        assert entries[..k + 1][..k] == entries[..k];
        var e := entries[k];
        if e.isIntersecting {
          var index := ParseAttribute(e.dataIndex);
          if index.Some? && index.value != currentSlide {
            ShowSlide(index.value);
          }
        }
      }
      assert entries[..|entries|] == entries;
      EventsKeepConsistent(s0, slides, 0, "", 0.0, entries);
    }
  }
}
