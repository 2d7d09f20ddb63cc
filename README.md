# Slide deck navigation, modelled in Dafny

This project models the two pieces of logic in the browser scripts of a
scroll-based slide deck:

- **The desktop slide navigator** (`assets/js/slides.js`). It keeps one
  current slide index over a deck of 24 slides (`slide-0` … `slide-23`). The
  index moves through `goToSlide`, `nextSlide`, `prevSlide`, the keyboard
  handler and the debounced wheel handler. An intersection observer also
  follows it passively. `goToSlide` disconnects that observer and reconnects
  it 1000 ms later. After every move, the table of contents (TOC) highlight,
  the progress bar (`(i+1)/24*100` percent) and the reveal animation of the
  slide are brought up to date.
- **The mobile chapter tracker** (`assets/js/mobile-scroll.js`). On a
  viewport at most 768 pixels wide, it builds a navigation bar from a fixed
  registry of 21 chapters and labels the slides with their chapter. As the
  page scrolls, it highlights the last chapter reached (slide top minus 200)
  and shows a back-to-top button past 500 pixels. A tapped chapter link
  scrolls to the slide's top minus 120. This registry is separate from the
  desktop deck: slides 21 to 23 have no mobile chapter.

Files:

- `text.dfy`: module `Options` (an `Option` datatype) and module `Text`. `Text`
  holds JavaScript's `parseInt` on decimal text, including its leading white
  space and sign. It also holds the decimal rendering of an index and ASCII
  digit runs.
- `marks.dfy`: module `Marks`. This is the "exactly one item active" loop
  that the TOC and the mobile navigation both use.
- `slides.dfy`: module `Slides`. A value `NavState` and one transition
  function per event form the specification. The class `Navigator` holds the
  script's variables, and each of its methods is proved to perform exactly
  the matching transition. Timers are events: `WheelDebounceFires` (50 ms),
  `CooldownExpires` (1000 ms) and `ReconnectFires` (1000 ms) are methods the
  environment calls.
- `mobile_scroll.dfy`: module `MobileScroll`. It holds the chapter registry,
  link building, tap handling, the active-chapter scan and highlight, the
  two-pass chapter labelling, the back-to-top threshold and the mobile set-up.

The document is given as values. For the desktop deck, `slides` is the set of
indices n for which an element `slide-n` exists. For the mobile page,
`offsets` maps each present slide id to its `offsetTop`, and `labels` maps
slide ids to their `data-chapter`. Scrolling and class writes are recorded
as data. `scrolled` logs the slides scrolled into view, `revealed` logs the
slides whose animation restarted, `toc` and the nav-item arrays hold the
`active` flags, and `progress` holds the bar width.

Behaviour worth knowing, as the code has it:

- `goToSlide` is guarded, not clamped: out-of-range indices and missing slides
  change nothing. It is not short-circuited either, so going to the current
  slide scrolls and animates again.
- The observer path sets the index from `data-index` with no range check. The
  range invariant holds there only when every `data-index` is in range
  (`ObserverEscapesRange` shows that an entry whose index reads "24" or any larger number moves it out of range).
- Every `goToSlide` schedules its own reconnect and none is cancelled. After
  two quick jumps, the first timer re-observes while the second window is
  still open (`EarlyReconnect`). A second jump does not restart the first
  jump's settle window.
- The wheel debounce acts on the last event's `deltaY` only. So +50 followed
  by +10 within one window does not turn the page (`WheelCoalesces`).
- `init` draws the progress bar but does not call `updateTOC`. The TOC starts
  as the markup has it.

The field `label` of a chapter is called `title` here, because `label` is a
Dafny keyword.

## Model

Each `Slides.Navigator` method row also stands for the transition function
that the method is proved equal to (`State() == F(old(State()))`):
`Initial` (constructor), `Show` (`ShowSlide`), `GoTo`, `Next`, `Prev`,
`KeyDown`, `Wheel`, `WheelDebounce`, `Cooldown`, `Reconnect`, and
`ObserveEntry`, `ObserveAll` and `Report` (`ObserverReports`). The lemmas
about those functions have their own rows. `Slides.Progress` is covered by
`ProgressRange` and `ProgressIncreasing`, and `MobileScroll.IsMobile`
(`assets/js/mobile-scroll.js:10-12`) by the `Init` row.

| member | source | states |
|---|---|---|
| Text.ParseInt | assets/js/slides.js:184 | `parseInt` yields a number exactly when, after leading white space and an optional sign, the text starts with a decimal digit |
| Text.ParseIntOfNatToString | assets/js/slides.js:184 | an index written in decimal (an HTML `data-index`, a `dataset.index` write) is read back by `parseInt` as that index |
| Marks.HighlightedCount | assets/js/slides.js:73-81 | after the toggle loop exactly one item is active when the index is a position of the list, and none otherwise |
| Marks.MarkOnly | assets/js/slides.js:73-81 | the loop sets item k active exactly when k is the current index, for every item |
| Slides.GoToGuard | assets/js/slides.js:24-28 | `goToSlide` with an index below 0, at or above 24, or naming no slide element changes no state at all |
| Slides.GoToEffect | assets/js/slides.js:24-49 | a successful `goToSlide` sets the index, makes exactly that TOC item active, sets progress to `(i+1)/24*100`, scrolls to and reveals the slide, disconnects the observer and schedules one more reconnect, and leaves the wheel state alone |
| Slides.GoToSameSlideRepeats | assets/js/slides.js:24-39 | going to the slide already current still scrolls, animates and changes the state, so there is no short-circuit |
| Slides.BoundaryNoOps | assets/js/slides.js:54-67 | `nextSlide` on slide 23 and `prevSlide` on slide 0 change nothing |
| Slides.NextPrevStep | assets/js/slides.js:54-67 | otherwise next and prev move the index by exactly +1 and -1 when the neighbouring slide exists, and do nothing when it does not |
| Slides.KeyDispatch | assets/js/slides.js:124-148 | ArrowDown, ArrowRight, space and PageDown go next; ArrowUp, ArrowLeft and PageUp go back; Home goes to 0 and End to 23; every other key changes nothing |
| Slides.Navigator.HandleKeydown | assets/js/slides.js:124-148 | `preventDefault` is called exactly for the nine mapped keys, and the new state is the key's transition |
| Slides.ProgressRange | assets/js/slides.js:86-90 | for every slide the progress lies in (0, 100], it is 100 exactly on slide 23, and it is 100/24 on slide 0 |
| Slides.ProgressIncreasing | assets/js/slides.js:86-90 | progress strictly increases with the slide index |
| Slides.NavigationKeepsRange | assets/js/slides.js:24-168 | `goToSlide`, next, prev, keys, wheel events, debounce, cooldown and reconnect keep the index in [0, 23] |
| Slides.ObserverKeepsRange | assets/js/slides.js:181-193 | the observer path keeps the index in range when every `data-index` it parses is in range |
| Slides.ObserverEscapesRange | assets/js/slides.js:184-186 | an intersecting entry whose `data-index` is the decimal text of 24 or any larger number moves the index out of range, because the path has no range check |
| Slides.ObserveEntryEffect | assets/js/slides.js:183-190 | an entry changes state only when it intersects, its `data-index` parses and differs from the current index; the change is `goToSlide`'s display update without the scroll |
| Slides.ObserverNeverScrolls | assets/js/slides.js:181-193 | the observer path never scrolls and never touches the observer, the reconnect timers or the wheel gate |
| Slides.SettleWindowIgnoresObserver | assets/js/slides.js:30-48 | right after `goToSlide`, a batch of observer reports changes nothing, and a reconnect re-observes |
| Slides.OnlyReconnectReobserves | assets/js/slides.js:30-48 | while the observer is disconnected, `goToSlide`, next, prev, keys, wheel events, the debounce and the cooldown all leave it disconnected and its reports change nothing; only a reconnect turns it back on |
| Slides.EarlyReconnect | assets/js/slides.js:42-48 | after two jumps, the first reconnect re-observes while one reconnect is still pending |
| Slides.WheelGate | assets/js/slides.js:154-155 | while `isScrolling` is set, a wheel event has no effect |
| Slides.WheelDebounceEffect | assets/js/slides.js:157-168 | when the debounce fires, deltaY > 30 goes next, deltaY < -30 goes back, anything else stays, and `isScrolling` becomes true in all three cases |
| Slides.OnlyCooldownClearsGate | assets/js/slides.js:164-167 | every event except the cooldown leaves `isScrolling` set, and the cooldown clears it |
| Slides.WheelCoalesces | assets/js/slides.js:157-168 | two wheel events in one debounce window count once, by the later delta: +50 then +10 stays, +10 then +50 goes next |
| Slides.EventsKeepConsistent | assets/js/slides.js:24-193 | every event keeps the progress bar equal to the current slide's progress, never lets a pending debounce coexist with the cooldown, and never leaves the observer disconnected with no reconnect pending |
| Slides.ObserveAllConsistent | assets/js/slides.js:181-193 | a batch of observer entries keeps that consistency |
| Slides.FiveNexts | assets/js/slides.js:54-58 | from the initial state, five `nextSlide` calls reach slide 5 with progress 25 |
| Slides.Navigator.constructor | assets/js/slides.js:398-401 | `init` starts on slide 0 with progress 100/24, slide 0 revealed, the observer watching, no wheel activity and the TOC as the markup has it |
| Slides.Navigator.UpdateToc | assets/js/slides.js:73-81 | the TOC becomes the single-active highlight of the current index, and nothing else changes |
| Slides.Navigator.UpdateProgress | assets/js/slides.js:86-91 | the bar, if present, shows the current slide's progress; without a bar nothing changes |
| Slides.Navigator.AnimateSlideContent | assets/js/slides.js:97-101 | the reveal restarts for an existing slide and does nothing for a missing one |
| Slides.Navigator.ShowSlide | assets/js/slides.js:186-189 | assigning the index runs the TOC, progress and reveal updates |
| Slides.Navigator.GoToSlide | assets/js/slides.js:24-49 | performs exactly the `goToSlide` transition and keeps the state consistent |
| Slides.Navigator.NextSlide | assets/js/slides.js:54-58 | performs exactly the next transition |
| Slides.Navigator.PrevSlide | assets/js/slides.js:63-67 | performs exactly the prev transition |
| Slides.Navigator.HandleWheel | assets/js/slides.js:154-158 | ignored while `isScrolling` is set; otherwise the event replaces any scheduled debounce |
| Slides.Navigator.WheelDebounceFires | assets/js/slides.js:158-168 | performs exactly the debounce transition |
| Slides.Navigator.CooldownExpires | assets/js/slides.js:165-167 | clears `isScrolling` and nothing else |
| Slides.Navigator.ReconnectFires | assets/js/slides.js:42-48 | re-observes the slides and consumes one pending reconnect |
| Slides.Navigator.ObserverReports | assets/js/slides.js:181-193 | processes the entries in order exactly as the observer transition does, and does nothing while disconnected |
| MobileScroll.RegistryShape | assets/js/mobile-scroll.js:20-42 | the registry has 21 entries, and entry k has index k and id "slide-" followed by k in decimal |
| MobileScroll.RegistryIdsDistinct | assets/js/mobile-scroll.js:20-42 | no two chapters name the same slide |
| MobileScroll.SlideIdsDiffer | assets/js/mobile-scroll.js:20-42 | ids of the form "slide-" followed by an index in decimal differ whenever the indices differ |
| MobileScroll.LinkFor | assets/js/mobile-scroll.js:51-55 | the link built for a chapter shows its title, and its href's `substring(1)` gives back the chapter's id |
| MobileScroll.CreateChapterNav | assets/js/mobile-scroll.js:45-57 | one link per chapter in registry order, with href `'#' + id`; the href's `substring(1)` gives back the id, and `data-index` parses back to the index |
| MobileScroll.LinksReadBack | assets/js/mobile-scroll.js:51-55 | for links built from a chapter list, each href gives back its chapter's id and each `data-index` parses back to its chapter's index |
| MobileScroll.HrefTarget | assets/js/mobile-scroll.js:192 | the result is the href without its first character, and "" for an empty href |
| MobileScroll.HrefRoundTrip | assets/js/mobile-scroll.js:192 | `substring(1)` of `'#' + id` is `id` |
| MobileScroll.ScrollToChapter | assets/js/mobile-scroll.js:175-185 | there is a scroll target exactly when the slide exists, and it lies 120 pixels above the slide's top |
| MobileScroll.HandleChapterNavClick | assets/js/mobile-scroll.js:188-195 | the default is always prevented; there is a scroll target exactly when the tap is on a chapter link whose href names a present slide, and it lies 120 pixels above that slide's top |
| MobileScroll.TapScrollsToChapter | assets/js/mobile-scroll.js:188-195 | tapping a chapter's link prevents the default and scrolls to 120 above that chapter's slide, or nowhere when the slide is missing |
| MobileScroll.TapElsewhereDoesNothing | assets/js/mobile-scroll.js:188-195 | a tap on anything but a chapter link prevents the default and scrolls nowhere |
| MobileScroll.BackToTopDisplay | assets/js/mobile-scroll.js:136-139 | the button's display is "block" exactly when `scrollTop > 500`, and "none" otherwise |
| MobileScroll.BackToTopShown | assets/js/mobile-scroll.js:136-139 | once shown, the button stays shown as the page is scrolled further down |
| MobileScroll.LastReached | assets/js/mobile-scroll.js:147-157 | the result is the last chapter in list order whose slide exists and satisfies `scrollTop >= offsetTop - 200`, or -1 when there is none |
| MobileScroll.ActiveChapter | assets/js/mobile-scroll.js:147-157 | the loop's `activeIndex` is that last reached chapter, or 0 when none is reached |
| MobileScroll.ActiveIndexMonotone | assets/js/mobile-scroll.js:147-157 | scrolling further down never moves the highlight to an earlier chapter |
| MobileScroll.UpdateActiveChapter | assets/js/mobile-scroll.js:143-172 | after the highlight loop exactly the nav item at `activeIndex` is active |
| MobileScroll.HighlightExactlyOne | assets/js/mobile-scroll.js:159-171 | with one nav item per chapter, exactly one item is active |
| MobileScroll.ContainsOccurs | assets/js/mobile-scroll.js:102 | `includes('.0')` holds exactly when ".0" occurs somewhere in the title |
| MobileScroll.SectionNumber | assets/js/mobile-scroll.js:116 | a match is a prefix of the title made of digits, a dot and digits, with both digit runs taken whole |
| MobileScroll.NoSectionNumber | assets/js/mobile-scroll.js:116-119 | when there is no match, no prefix of the title is digits, a dot and digits |
| MobileScroll.AddChapterLabels | assets/js/mobile-scroll.js:101-122 | the two loops compute the main-chapter pass followed by the fallback pass |
| MobileScroll.FallbackKeepsLabels | assets/js/mobile-scroll.js:112-121 | the second pass never overwrites a `data-chapter` that is already set |
| MobileScroll.PassesKeepOthers | assets/js/mobile-scroll.js:101-122 | neither pass touches a slide that no chapter names |
| MobileScroll.MainPassAt | assets/js/mobile-scroll.js:102-109 | after the first pass, a present chapter whose title contains ".0" carries its full title, and every other slide keeps what it had |
| MobileScroll.FallbackPassAt | assets/js/mobile-scroll.js:112-121 | after the second pass, a present, unlabelled slide gets its section number plus " 章节" when the title starts with one; otherwise it is unchanged |
| MobileScroll.ChapterLabelOutcome | assets/js/mobile-scroll.js:101-122 | the final label of each present chapter: a title containing ".0" in full, an existing label kept, otherwise the section number plus " 章节", or nothing new |
| MobileScroll.IntroductionUnlabelled | assets/js/mobile-scroll.js:21 | "引言" has neither ".0" nor a section number, so it gets no label |
| MobileScroll.FirstChapterIsMain | assets/js/mobile-scroll.js:22 | "1.0 认知重启" contains ".0" |
| MobileScroll.SecondChapterNotMain | assets/js/mobile-scroll.js:23 | "1.1 核心原理" does not contain ".0" |
| MobileScroll.SecondChapterSection | assets/js/mobile-scroll.js:23 | the section number of "1.1 核心原理" is "1.1" |
| MobileScroll.Init | assets/js/mobile-scroll.js:198-237 | on a viewport wider than 768 nothing is created; otherwise the 21 links, the labels, the button's display, the active chapter and its single highlight are as above |
| MobileScroll.OnScroll | assets/js/mobile-scroll.js:216-219 | a scroll event updates the button's display and highlights exactly the active chapter |

## Left out

- `assets/js/common.js` is not part of this model. It holds icon set-up, anchor scrolling, lazy images and visibility logging.
- Clipboard copying and its fallbacks (`assets/js/slides.js:274-393`) are left out. They are browser APIs, promises and alerts.
- The Markdown-style prompt formatting (`assets/js/slides.js:220-269`) is left out. It would need JavaScript regular-expression semantics, and its result is HTML.
- Scrolling itself, element creation and insertion, CSS writes and the icon call are left out. Scrolls are only recorded (`scrolled`), and classes become booleans.
- The timing of the reveal animation (the 100 ms delay, the 120 ms stagger and `requestAnimationFrame`) is left out. A reveal is recorded as one entry in `revealed`.
- Real time is left out. Timers are events the caller fires in any order: a debounce only while one is scheduled, a cooldown only while `isScrolling` is set, and a reconnect only while one is pending.
- The browser's own observer behaviour is left out: the 40% root margins, and the notifications it delivers when re-observing. Each batch of entries is an input.
- Calls to `goToSlide`, `nextSlide` and `prevSlide` made before `init` has run are left out. The model starts from the state `init` leaves.
- The reading-progress percentage (`assets/js/mobile-scroll.js:126-132`) is left out. It is a floating-point division whose divisor can be zero.
- The resize handler (`assets/js/mobile-scroll.js:221-227`) is left out, because its body is empty.
- The `pageYOffset || scrollTop` fallback is left out. The scroll position is one input.
- Scrolling the active nav item into view (`assets/js/mobile-scroll.js:163-167`) is left out.
- Text.ParseInt: does not model the hexadecimal reading of a `0x` prefix, nor the precision loss of very long digit strings; it reads decimal digits only.
- Slides.Progress: is exact real arithmetic, not IEEE-754 doubles, so the bar width is not rounded.
- MobileScroll.CreateChapterNav, MobileScroll.AddChapterLabels and MobileScroll.ActiveChapter take the chapter list as a parameter, and the scripts always pass the registry. The labelling lemmas assume distinct ids, which `RegistryIdsDistinct` proves for the registry.
