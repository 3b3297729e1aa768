# Page interaction rules of a photography portfolio site, in Dafny

This project models the interactive behaviour of a static photography-portfolio
website and proves properties of that model. It covers two browser scripts:

- **scripts/main.js.** The fullscreen slideshow: an index into the slides, a
  transition lock, one auto-advance interval, slide and dot highlighting,
  image preloading, and buttons, dots, arrow keys and swipes. It also covers
  the scroll-spy that highlights the navigation link of the current section.
- **scripts/photocrew-script.js.** The service-gallery modal: the gallery a
  card title selects, the three-image window, the page dots, and the arrows,
  dots, open and close. It also covers the hero slideshow, the gallery filter
  buttons, the FAQ accordion, the light/dark theme toggle and that file's own
  scroll-spy.

The DOM, timers and storage become fields, parameters and explicit events:

- The settle timeout that clears the slideshow's lock is `Settle()`.
- One firing of an auto-advance interval is `Tick()`.
- A pending filter timeout firing is `Fire(k)`.
- `localStorage` and `matchMedia` values are parameters and fields.

Files:

| file | module | models |
|---|---|---|
| wrappers.dfy | `Wrappers` | `Option`, for `null`/`undefined` |
| text.dfy | `Text` | ASCII lower-casing, `includes`, global replace |
| slideshow.dfy | `FullscreenSlideshow` | `initSlideshow` of scripts/main.js |
| sectionspy.dfy | `SectionSpy` | the section/link scroll-spy loops; `updateActiveLink` of scripts/main.js |
| gallerymodal.dfy | `ServiceGallery` | the service-gallery modal of scripts/photocrew-script.js |
| pagerules.dfy | `PageRules` | hero slideshow, filter, FAQ, theme, active link of scripts/photocrew-script.js |

## How the model reads the code

- **Slideshow.** `Slideshow` is a class whose fields are the closure
  variables: `current`, `transitioning` and `handle`.
  - `running` is the set of interval ids that have been set and not cleared.
    `settleTimers` counts the lock-clearing timeouts still pending.
  - `Valid()` says four things. Exactly the current slide is active. Dot `k`
    is active iff `k` is the current slide. `settleTimers` is 1 while locked
    and 0 otherwise. At most the interval named by `handle` is running.
  - `GoToSlide` is the function as rebound at the end of `initSlideshow`: the
    original (`MoveTo`), then `PreloadNextSlide`. Because `nextSlide`,
    `prevSlide` and the dot handler all call the rebound name, the preload
    runs after every navigation attempt, including one the lock drops.
  - After the lock check, `goToSlide` normalises only the two edges. A negative index becomes
    `n-1`, an index `>= n` becomes 0, and nothing else wraps. A dot whose
    index is past the last slide therefore goes to slide 0.
  - `stopSlideshow` clears the interval but keeps the stale handle.
    `startSlideshow` always leaves exactly one fresh interval running.
- **Modal pager.** `ModalPager` holds `currentImages`, `currentIndex`, the
  rendered track and the dots.
  - The gallery lookup is a recursive first-match function over the entries
    in declaration order. It compares the ASCII-lower-cased key with the
    lower-cased title by substring.
  - Every title that matches "Temple Wedding" also matches "Wedding", which is
    declared earlier. So the Temple Wedding gallery is never chosen
    (`TempleWeddingIsShadowed`).
  - The track follows the code's padding loop: each padding image is
    `items[len % n]`, where `len` is the window's current length. Since
    `len < n` this is `items[len]`, not the image after the slice.
    Because every gallery has 12 or 6 images and pages start at multiples
    of 3, padding never happens for the galleries the page defines
    (`AlignedPageNeedsNoPadding`).
- **Markup assumption.** Both slideshows start with the first slide (and the
  first dot) marked active. The filter, FAQ and theme constructors take the
  markup's initial classes and attribute as parameters. The gallery modal's
  track (`#modal-gallery-track`) and dots (`#gallery-dots`) are taken to start
  empty, since nothing fills or clears them before the first open.
- **Filter timing.** The filter's settle guarantee (`SettledShowsFilter`) is
  proved for a click made after the previous click's timers have all fired.
  `QuickReclickCanHideItem` shows why this condition is needed. If two clicks
  come within 300 ms, the first click's hide timer can still hide an item
  that the second click's filter `all` matches.

### Behaviours of the code worth knowing

- The modal pads a short window with `items[len mod n]`, where `len` is the
  window's current length. That is not the image after the slice.
- A click on the current slide's dot restarts nothing, not even the timer.
- Gallery matching is case-insensitive substring search, and the first key
  in declaration order wins.

## Model

| member | source | states |
|---|---|---|
| `Text.ToLower` | scripts/photocrew-script.js:321 | lower-casing keeps the length, maps each character through ASCII lowering, and leaves no upper-case letter |
| `Text.ReplaceAllWithoutPattern` | scripts/photocrew-script.js:316 | a global replacement leaves a string in which the pattern does not occur unchanged |
| `Text.ReplaceAllFirst` | scripts/photocrew-script.js:316 | `ReplaceAll` (the model of `.replace(/<br>/g, ' ')`) keeps the text before the first occurrence, puts the replacement in its place and carries on after it |
| `Text.ReplaceAllRemovesPattern` | scripts/photocrew-script.js:316 | after a global replacement by a non-empty string sharing no character with the pattern, the pattern occurs nowhere in the result |
| `Text.ReplaceCharKeepsAbsent` | scripts/photocrew-script.js:316 | replacing a character by one outside the pattern creates no occurrence of the pattern |
| `Text.ReplaceChar` | scripts/photocrew-script.js:316 | newline-to-space replacement: same length, each matching character replaced, all others kept |
| `FullscreenSlideshow.Normalize` | scripts/main.js:39-40 | the normalised index is always a valid slide; in-range indices are kept, negatives become `n-1`, indices past the end become 0 |
| `FullscreenSlideshow.NormalizeNeighbours` | scripts/main.js:62-69 | next from `c` is `(c+1) mod n`, previous is `(c+n-1) mod n`; next from the last slide is 0, previous from 0 is `n-1` |
| `FullscreenSlideshow.AdvanceIsModular` | scripts/main.js:37-64 | `k` successful `nextSlide` calls from `c` land on `(c+k) mod n` |
| `FullscreenSlideshow.FullCycleReturns` | scripts/main.js:37-64 | `n` successful `nextSlide` calls return to the starting slide |
| `FullscreenSlideshow.Preloaded` | scripts/main.js:156-162 | after a preload at slide `k`, that slide is not lazy, no other slide changes, and the only change possible is lazy to eager |
| `FullscreenSlideshow.ClassifySwipe` | scripts/main.js:141-153 | next iff the drag went more than 50 px left; previous iff more than 50 px right; nothing iff the drag was within 50 px either way |
| `FullscreenSlideshow.MoveActive` | scripts/main.js:44-53 | `active` moves from the old index to the new one, an index without an element is skipped, and no other flag changes |
| `FullscreenSlideshow.Slideshow.constructor` | scripts/main.js:171-173 | initial state as declared at scripts/main.js lines 31-34: slide 0, unlocked; then exactly one interval running and the slide after slide 0 preloaded |
| `FullscreenSlideshow.Slideshow.MoveTo` | scripts/main.js:37-59 | while locked nothing changes; otherwise the index becomes the normalised target, the lock is set, one settle timer is pending, and exactly the new slide and its dot are active |
| `FullscreenSlideshow.Slideshow.PreloadNextSlide` | scripts/main.js:156-162 | the images become the preload at `(current+1) mod n` |
| `FullscreenSlideshow.Slideshow.GoToSlide` | scripts/main.js:165-169 | a dropped call leaves the index, the slide and dot flags, and the settle timers unchanged; a successful one moves to the normalised target; in both cases the lock is set, exactly the current slide and its dot are active, the slide after the current one is preloaded, and the interval is untouched |
| `FullscreenSlideshow.Slideshow.NextSlide` | scripts/main.js:62-64 | the index becomes `(current+1) mod n` unless locked; the slide after the new index is preloaded |
| `FullscreenSlideshow.Slideshow.PrevSlide` | scripts/main.js:67-69 | the index becomes `(current+n-1) mod n` unless locked; the slide after the new index is preloaded |
| `FullscreenSlideshow.Slideshow.StopSlideshow` | scripts/main.js:78-82 | afterwards no interval is running |
| `FullscreenSlideshow.Slideshow.StartSlideshow` | scripts/main.js:72-75 | afterwards exactly one interval is running, a fresh one named by the handle, whatever ran before |
| `FullscreenSlideshow.Slideshow.Tick` | scripts/main.js:74 | an interval firing advances like `nextSlide` and sets the lock; the intervals and touch coordinates are left alone |
| `FullscreenSlideshow.Slideshow.Settle` | scripts/main.js:56-58 | the pending timeout fires: the lock is cleared and no settle timer is left |
| `FullscreenSlideshow.Slideshow.PrevButtonClick` | scripts/main.js:85-90 | previous slide unless locked, the lock set, then exactly one fresh interval; touch coordinates kept |
| `FullscreenSlideshow.Slideshow.NextButtonClick` | scripts/main.js:92-97 | next slide unless locked, the lock set, then exactly one fresh interval; touch coordinates kept |
| `FullscreenSlideshow.Slideshow.DotClick` | scripts/main.js:100-107 | the dot of the current slide changes nothing, not even the timer; another dot navigates to its normalised index unless locked, sets the lock and restarts the interval; touch coordinates kept |
| `FullscreenSlideshow.Slideshow.KeyDown` | scripts/main.js:114-126 | while the slideshow is in view, an arrow key moves like the buttons, sets the lock, preloads and restarts the interval; anything else changes nothing; touch coordinates kept |
| `FullscreenSlideshow.Slideshow.MouseEnter` | scripts/main.js:110 | hovering leaves no interval running |
| `FullscreenSlideshow.Slideshow.MouseLeave` | scripts/main.js:111 | leaving starts exactly one fresh interval |
| `FullscreenSlideshow.Slideshow.TouchStart` | scripts/main.js:132-134 | records the starting x coordinate |
| `FullscreenSlideshow.Slideshow.TouchEnd` | scripts/main.js:136-139 | records the end coordinate; a short drag changes nothing else; a long one makes exactly one next or previous attempt, leaves the lock set and restarts the interval |
| `FullscreenSlideshow.Slideshow.HandleSwipe` | scripts/main.js:141-153 | below the threshold nothing changes; above it, exactly one next or previous attempt, the lock set, then one fresh interval |
| `FullscreenSlideshow.InitSlideshow` | scripts/main.js:20-29 | no slideshow is created exactly when the container is missing or there are no slides |
| `FullscreenSlideshow.RapidNavigation` | scripts/main.js:37-42 | of two navigations with no settle between them, only the first takes effect |
| `FullscreenSlideshow.StartTwice` | scripts/main.js:72-82 | starting twice still leaves exactly one interval running |
| `FullscreenSlideshow.ThreeSlideWalk` | scripts/main.js:37-97 | with three slides, the next button gives 1, then 1 again (locked), then 2 and 0 after each settle |
| `SectionSpy.CurrentSection` | scripts/main.js:222-230 | the current id is that of the last section covering the probe line, or the default when none covers it |
| `SectionSpy.LinkStates` | scripts/main.js:232-235 | a link is active iff its `href` is `#` followed by the current id |
| `SectionSpy.UpdateActiveLink` | scripts/main.js:215-242 | the probe is 150 px below the scroll offset and the default is `home`; links follow the current id |
| `ServiceGallery.FirstMatch` | scripts/photocrew-script.js:320-325 | the result is the first entry, in declaration order, whose lower-cased key occurs in the title; none is returned only when no key occurs |
| `ServiceGallery.NormalizeTitle` | scripts/photocrew-script.js:316 | the title used for matching contains neither a newline nor `<br>`; without `<br>` in it, each character is kept except that newlines become spaces |
| `ServiceGallery.NormalizeAtFirstBr` | scripts/photocrew-script.js:316 | at the first `<br>`, the text before it only has its newlines turned into spaces, the `<br>` becomes one space, and the rest of the title is normalised the same way |
| `ServiceGallery.AllGalleriesHaveTwelve` | scripts/photocrew-script.js:290-305 | every declared gallery has 12 images |
| `ServiceGallery.GalleryFor` | scripts/photocrew-script.js:318-327 | the images of the first matching key, or the fallback when none matches; always 12 or 6 images |
| `ServiceGallery.TempleWeddingIsShadowed` | scripts/photocrew-script.js:292-325 | no title ever selects the Temple Wedding entry, because the earlier Wedding key occurs wherever it does |
| `ServiceGallery.TempleWeddingOpensWedding` | scripts/photocrew-script.js:292-325 | a title containing "temple wedding" and not "pre-wedding" opens the Wedding images |
| `ServiceGallery.TempleWeddingCard` | scripts/photocrew-script.js:316-327 | the card titled "Temple Wedding" shows the Wedding images |
| `ServiceGallery.Window` | scripts/photocrew-script.js:340-345 | the track holds `min(3, n)` images: three, or all of them when there are fewer |
| `ServiceGallery.WindowContents` | scripts/photocrew-script.js:340-345 | the track starts with the slice from the index; after it, padding position `k` shows `items[k mod n]` |
| `ServiceGallery.RenderWindow` | scripts/photocrew-script.js:340-345 | the slice-and-push loop yields exactly `Window` |
| `ServiceGallery.AlignedPageNeedsNoPadding` | scripts/photocrew-script.js:340-345 | with a multiple of three images and an aligned index, the track is the three images starting at the index |
| `ServiceGallery.PaddingFollowsLength` | scripts/photocrew-script.js:343-345 | four images at index 3 give `d, b, c`: the padding does not continue from the slice |
| `ServiceGallery.GroupCount` | scripts/photocrew-script.js:357 | the dot count is `ceil(n/3)`: the least count whose three-image pages cover `n` |
| `ServiceGallery.RenderDotStates` | scripts/photocrew-script.js:357-367 | one dot per page, and dot `i` is active iff `i == floor(index/3)` |
| `ServiceGallery.ExactlyOneDotActive` | scripts/photocrew-script.js:357-373 | for `index < n`, exactly one dot is active: the one at `floor(index/3)` |
| `ServiceGallery.LastPage` | scripts/photocrew-script.js:387 | the start of the last page is a multiple of three inside the list, at most three images from the end |
| `ServiceGallery.StepsKeepPageAligned` | scripts/photocrew-script.js:361-392 | the left arrow, right arrow and a dot each keep the index a multiple of three that is inside the list |
| `ServiceGallery.RightPressesStopAtLastPage` | scripts/photocrew-script.js:385-393 | `k` right clicks from a page start reach `min(index + 3k, last page start)` |
| `ServiceGallery.LeftPressesStopAtZero` | scripts/photocrew-script.js:377-383 | `k` left clicks reach `max(0, index - 3k)` |
| `ServiceGallery.TwelveImageWalk` | scripts/photocrew-script.js:385-393 | with 12 images the right arrow gives 3, 6, 9 and then stays at 9 |
| `ServiceGallery.ModalPager.constructor` | scripts/photocrew-script.js:308-309 | no images, index 0, modal closed; the title is the markup's until the first open |
| `ServiceGallery.ModalPager.RenderGallery` | scripts/photocrew-script.js:338-353 | the track becomes the window at the current index |
| `ServiceGallery.ModalPager.RenderDots` | scripts/photocrew-script.js:355-368 | the dots are rebuilt: `ceil(n/3)` of them, and only the current page's is active |
| `ServiceGallery.ModalPager.UpdateDots` | scripts/photocrew-script.js:370-374 | existing dots are toggled so that only the current page's is active; their number stays |
| `ServiceGallery.ModalPager.Open` | scripts/photocrew-script.js:312-336 | the normalised title's gallery is loaded, the index resets to 0, the track and dots are rendered, and the modal is open with scrolling locked |
| `ServiceGallery.ModalPager.Show` | scripts/photocrew-script.js:327-334 | the chosen images and title are loaded at index 0, the first page is rendered, and the modal is open with scrolling locked |
| `ServiceGallery.ModalPager.ArrowLeft` | scripts/photocrew-script.js:377-383 | the index becomes `max(0, index - 3)`; track and dots follow |
| `ServiceGallery.ModalPager.ArrowRight` | scripts/photocrew-script.js:385-393 | the index grows by 3 only when `index + 3 < n`; otherwise nothing at all changes |
| `ServiceGallery.ModalPager.DotClick` | scripts/photocrew-script.js:361-365 | dot `i` sets the index to `3i`; track and dots follow |
| `ServiceGallery.ModalPager.Close` | scripts/photocrew-script.js:396-402 | the modal closes and scrolling is unlocked; the gallery state stays |
| `ServiceGallery.ModalPager.KeyDown` | scripts/photocrew-script.js:405-409 | Escape on an open modal closes it; any other key press changes nothing |
| `PageRules.HeroSlideshow.constructor` | scripts/photocrew-script.js:67-78 | slide 0 is active, and the interval exists iff there are at least two slides |
| `PageRules.HeroSlideshow.NextSlide` | scripts/photocrew-script.js:70-74 | the index becomes `(current+1) mod n` and it is the only active slide |
| `PageRules.HeroSlideshow.Tick` | scripts/photocrew-script.js:76-78 | an interval firing, possible only with two or more slides, advances modulo `n` |
| `PageRules.ClickTimers` | scripts/photocrew-script.js:252-273 | one timer per item: a reveal for items the filter matches, a hide for the others |
| `PageRules.GalleryFilter.constructor` | scripts/photocrew-script.js:240-241 | the markup's buttons, items and classes, with no timer pending |
| `PageRules.GalleryFilter.ActivateOnly` | scripts/photocrew-script.js:246-248 | afterwards exactly the clicked button is active |
| `PageRules.GalleryFilter.ApplyFilter` | scripts/photocrew-script.js:252-274 | matching items lose `hidden` at once and keep their fade; the others fade at once and keep `hidden`; one timer per item is queued, in item order |
| `PageRules.GalleryFilter.Click` | scripts/photocrew-script.js:243-276 | exactly the clicked button is active; matching items are unhidden at once, others faded at once; the click's timers are queued; starting from no pending timer the state is on track for the filter |
| `PageRules.GalleryFilter.Fire` | scripts/photocrew-script.js:255-271 | a timer fires: a reveal unfades its item, a hide hides it; being on track is preserved |
| `PageRules.GalleryFilter.SettledShowsFilter` | scripts/photocrew-script.js:252-273 | once on track with nothing pending, an item is visible iff the filter is `all` or equals its category |
| `PageRules.QuickReclickCanHideItem` | scripts/photocrew-script.js:252-273 | a second click within the first click's 300 ms can end with a matching item hidden |
| `PageRules.FaqAccordion.constructor` | scripts/photocrew-script.js:194 | the markup's open items |
| `PageRules.FaqAccordion.Click` | scripts/photocrew-script.js:198-207 | afterwards at most one item is open: the clicked one, and only if it was closed; clicking the open item closes all |
| `PageRules.InitialTheme` | scripts/photocrew-script.js:7-9 | the initial theme is light iff the saved value is `light`; with nothing saved it is dark whatever the system prefers |
| `PageRules.ToggledTheme` | scripts/photocrew-script.js:21-22 | the new theme is light iff the current attribute is not `light` |
| `PageRules.AttributeFor` | scripts/photocrew-script.js:24-28 | the attribute is set to `light` for the light theme and removed otherwise |
| `PageRules.ToggleTwice` | scripts/photocrew-script.js:21-30 | two toggles restore whether the theme is light, and give back the same attribute exactly when it was absent or `light` |
| `PageRules.Theme.constructor` | scripts/photocrew-script.js:6-13 | the attribute is `light` when the chosen theme is light and otherwise stays as in the markup; storage is untouched |
| `PageRules.Theme.Toggle` | scripts/photocrew-script.js:20-31 | the attribute turns light iff it was not light, and the new theme name is stored |
| `PageRules.ActiveLinkOnScroll` | scripts/photocrew-script.js:127-143 | a section is current while the offset is from 100 px above its top to 100 px above its bottom, the last such section winning; with none the id is empty; a link is active iff its `href` is `#` plus that id |

## Left out

- optimize-images.js is not part of this model. It is a filesystem walk
  around an image library.
- The stats counter animation uses floating-point steps and
  `requestAnimationFrame`.
- These are presentation only: scroll-reveal delays, `IntersectionObserver`,
  CSS transitions, and the opacity/transform values. Of the last, the filter
  keeps only faded or shown.
- These are I/O or alerts with no state rule: contact-form submission, the
  alert and log, the async delay, and the toast.
- These only move the viewport or restyle it: smooth scrolling, the header's
  `scrolled` class, the back-to-top button and the "load more" button.
- The `ticking` throttles of scripts/main.js are not modelled. They drop
  scroll events while an animation frame is pending. `UpdateActiveLink` is
  the body of one frame.
- The mobile menus are outside the modelled core. In
  scripts/photocrew-script.js they only flip classes. In scripts/main.js they
  also style the hamburger and lock page scrolling while open.
- `SectionSpy.UpdateActiveLink` does not model the early return of `initNavigation`.
  When `#nav-toggle` or `#nav-menu` is missing, the scroll-spy is never
  registered, so no link is ever highlighted.
- The viewport test guarding the arrow keys (`getBoundingClientRect`) is the
  parameter `inView` of `KeyDown`.
- Wall-clock time is not modelled. The timers are explicit events.
  `GalleryFilter.Fire` lets any pending timer fire next, which allows more
  orders than the 10 ms and 300 ms delays give.
- Case folding is ASCII only, with no Unicode case mapping.
- HTML building in `renderGallery` and `renderDots` is replaced by the image
  sequence and the dots' active flags.
- Scroll offsets, section geometry and touch coordinates are integers.
  JavaScript gives fractional pixels.
- PageRules.HeroSlideshow.NextSlide: requires at least one slide. The
  source's `nextSlide` would throw on an empty list, but only the interval
  calls it, and the interval is set only for two or more slides.
- The arrows of the modal are modelled as clickable while it is closed, as
  their listeners are. Whether a hidden modal can receive the click is left
  to the page.
