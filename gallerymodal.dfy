/**
 * The service-gallery modal of scripts/photocrew-script.js: the gallery a
 * service card's title selects, the three-image window the track shows, the
 * page dots, and the arrow, dot, open and close handlers that move
 * `currentIndex`. HTML building is replaced by the sequence of image names and
 * the active flag of each dot.
 */
module ServiceGallery {
  import opened Wrappers
  import opened Text
  import opened Modular

  /** One entry of `serviceGalleries`: a category key and its images. */
  datatype Gallery = Gallery(key: string, images: seq<string>)

  /** `serviceGalleries`, in declaration order (the order `for ... in` visits it). */
  const ServiceGalleries: seq<Gallery> :=
    [
      Gallery("Pre-Wedding", PreWeddingImages),
      Gallery("Wedding", WeddingImages),
      Gallery("Maternity", MaternityImages),
      Gallery("Birthday", BirthdayImages),
      Gallery("House warming", HouseWarmingImages),
      Gallery("Christian", ChristianImages),
      Gallery("Muslim", MuslimImages),
      Gallery("Upanayanam", UpanayanamImages),
      Gallery("Engagement", EngagementImages),
      Gallery("Naming Ceremony", NamingCeremonyImages),
      Gallery("Recreation", RecreationImages),
      Gallery("Temple Wedding", TempleWeddingImages),
      Gallery("Elements", ElementsImages),
      Gallery("Newborn", NewbornImages)
    ]

  const PreWeddingImages: seq<string> :=
    ["outdoor-couple.jpg", "couple-1.jpg", "wedding-couple.jpg", "outdoor-candid.jpg",
    "wedding_3.jpg", "wedding_5.jpg", "hero_bride_1.jpg", "hero_bride_2.jpg",
    "wedding_1.jpg", "wedding_2.jpg", "wedding_4.jpg", "wedding_6.jpg"]

  const WeddingImages: seq<string> :=
    ["wedding_1.jpg", "wedding_2.jpg", "wedding_3.jpg", "wedding_4.jpg",
    "wedding_5.jpg", "wedding_6.jpg", "wedding_7.jpg", "hero_bride_1.jpg",
    "hero_bride_2.jpg", "hero_bride_3.jpg", "hero_bride_4.jpg", "hero_bride_5.jpg"]

  const MaternityImages: seq<string> :=
    ["bridal-1.jpg", "bridal-2.jpg", "hero_bride_1.jpg", "hero_bride_2.jpg",
    "hero_bride_3.jpg", "hero_bride_4.jpg", "hero_bride_5.jpg", "wedding_1.jpg",
    "wedding_2.jpg", "wedding_3.jpg", "wedding_4.jpg", "wedding_5.jpg"]

  const BirthdayImages: seq<string> :=
    ["outdoor-kid.jpg", "outdoor-candid.jpg", "outdoor-musicians.jpg", "wedding_1.jpg",
    "wedding_2.jpg", "wedding_3.jpg", "wedding_4.jpg", "wedding_5.jpg",
    "wedding_6.jpg", "outdoor-couple.jpg", "couple-1.jpg", "wedding_7.jpg"]

  const HouseWarmingImages: seq<string> :=
    ["wedding_5.jpg", "wedding_6.jpg", "wedding_7.jpg", "wedding_1.jpg",
    "wedding_2.jpg", "wedding_3.jpg", "wedding_4.jpg", "hero_bride_1.jpg",
    "hero_bride_2.jpg", "hero_bride_3.jpg", "outdoor-couple.jpg", "couple-1.jpg"]

  const ChristianImages: seq<string> :=
    ["hero_bride_1.jpg", "hero_bride_2.jpg", "hero_bride_3.jpg", "wedding_1.jpg",
    "wedding_2.jpg", "wedding_3.jpg", "wedding_4.jpg", "wedding_5.jpg",
    "wedding_6.jpg", "wedding_7.jpg", "bridal-1.jpg", "bridal-2.jpg"]

  const MuslimImages: seq<string> :=
    ["hero_bride_3.jpg", "hero_bride_4.jpg", "hero_bride_5.jpg", "wedding_4.jpg",
    "wedding_5.jpg", "wedding_6.jpg", "wedding_7.jpg", "wedding_1.jpg",
    "wedding_2.jpg", "wedding_3.jpg", "bridal-1.jpg", "bridal-2.jpg"]

  const UpanayanamImages: seq<string> :=
    ["wedding-haldi.jpg", "wedding-mehndi.jpg", "wedding-prep.jpg", "wedding_1.jpg",
    "wedding_2.jpg", "wedding_3.jpg", "wedding_4.jpg", "wedding_5.jpg",
    "wedding_6.jpg", "wedding_7.jpg", "hero_bride_1.jpg", "hero_bride_2.jpg"]

  const EngagementImages: seq<string> :=
    ["wedding-couple.jpg", "couple-1.jpg", "outdoor-couple.jpg", "wedding_1.jpg",
    "wedding_2.jpg", "wedding_3.jpg", "wedding_4.jpg", "wedding_5.jpg",
    "hero_bride_1.jpg", "hero_bride_2.jpg", "hero_bride_3.jpg", "outdoor-candid.jpg"]

  const NamingCeremonyImages: seq<string> :=
    ["outdoor-musicians.jpg", "outdoor-kid.jpg", "wedding_4.jpg", "wedding_5.jpg",
    "wedding_6.jpg", "wedding_7.jpg", "wedding_1.jpg", "wedding_2.jpg",
    "wedding_3.jpg", "outdoor-candid.jpg", "outdoor-couple.jpg", "couple-1.jpg"]

  const RecreationImages: seq<string> :=
    ["wedding-mehndi.jpg", "wedding-haldi.jpg", "wedding_3.jpg", "wedding_4.jpg",
    "wedding_5.jpg", "wedding_6.jpg", "wedding_7.jpg", "wedding_1.jpg",
    "wedding_2.jpg", "hero_bride_1.jpg", "hero_bride_2.jpg", "hero_bride_3.jpg"]

  const TempleWeddingImages: seq<string> :=
    ["wedding_7.jpg", "wedding_1.jpg", "wedding_2.jpg", "wedding_3.jpg",
    "wedding_4.jpg", "wedding_5.jpg", "wedding_6.jpg", "hero_bride_1.jpg",
    "hero_bride_2.jpg", "hero_bride_3.jpg", "hero_bride_4.jpg", "hero_bride_5.jpg"]

  const ElementsImages: seq<string> :=
    ["hero_bride_5.jpg", "hero_bride_1.jpg", "hero_bride_2.jpg", "wedding_1.jpg",
    "wedding_2.jpg", "wedding_3.jpg", "wedding_4.jpg", "wedding_5.jpg",
    "wedding_6.jpg", "wedding_7.jpg", "bridal-1.jpg", "bridal-2.jpg"]

  const NewbornImages: seq<string> :=
    ["outdoor-kid.jpg", "outdoor-candid.jpg", "bridal-1.jpg", "bridal-2.jpg",
    "wedding_1.jpg", "wedding_2.jpg", "wedding_3.jpg", "wedding_4.jpg",
    "wedding_5.jpg", "outdoor-musicians.jpg", "outdoor-couple.jpg", "couple-1.jpg"]

  /** The images shown when no key matches the title. */
  const FallbackImages: seq<string> :=
    ["wedding_1.jpg", "wedding_2.jpg", "wedding_3.jpg", "wedding_4.jpg", "wedding_5.jpg", "wedding_6.jpg"]

  /** Index of the `Wedding` and `Temple Wedding` entries. */
  const WeddingEntry: nat := 1
  const TempleWeddingEntry: nat := 11

  /** The lower-cased key occurs in the lower-cased title. */
  predicate KeyMatches(lowerTitle: string, key: string)
  {
    Contains(lowerTitle, ToLower(key))
  }

  /** Entry `j` matches and no earlier entry does. */
  predicate IsFirstMatch(lowerTitle: string, galleries: seq<Gallery>, j: nat)
  {
    && j < |galleries|
    && KeyMatches(lowerTitle, galleries[j].key)
    && forall i :: 0 <= i < j ==> !KeyMatches(lowerTitle, galleries[i].key)
  }

  /** The `for ... in` loop with `break`: the first entry whose key matches, if any. */
  function FirstMatch(lowerTitle: string, galleries: seq<Gallery>): (r: Option<nat>)
    ensures r.Some? ==> IsFirstMatch(lowerTitle, galleries, r.value)
    ensures r.None? ==> forall j :: 0 <= j < |galleries| ==> !KeyMatches(lowerTitle, galleries[j].key)
  {
    if galleries == [] then
      None
    else if KeyMatches(lowerTitle, galleries[0].key) then
      Some(0)
    else
      match FirstMatch(lowerTitle, galleries[1..])
      case None => None
      case Some(i) => Some(i + 1)
  }

  /** The card title as the handler reads it: `<br>` and newlines become spaces. */
  function NormalizeTitle(text: string): (t: string)
    ensures forall i :: 0 <= i < |t| ==> t[i] != '\n'
    ensures !Contains(t, "<br>")
    ensures !Contains(text, "<br>") ==> |t| == |text|
    ensures !Contains(text, "<br>") ==>
      forall i :: 0 <= i < |text| ==> t[i] == (if text[i] == '\n' then ' ' else text[i])
  {
    var spaced := ReplaceAll(text, "<br>", " ");
    ReplaceAllRemovesPattern(text, "<br>", " ");
    ReplaceAllWithoutPattern(text, "<br>", " ");
    ReplaceCharKeepsAbsent(spaced, '\n', ' ', "<br>");
    ReplaceChar(spaced, '\n', ' ')
  }

  /**
   * At the first `<br>`, at position `i`, the text before it has only its
   * newlines turned into spaces, the `<br>` becomes one space, and the rest of
   * the title is normalised in the same way.
   */
  lemma NormalizeAtFirstBr(text: string, i: nat)
    requires OccursAt(text, "<br>", i)
    requires forall j: nat :: j < i ==> !OccursAt(text, "<br>", j)
    ensures NormalizeTitle(text) == ReplaceChar(text[..i], '\n', ' ') + " " + NormalizeTitle(text[i + 4..])
  {
    var rest := ReplaceAll(text[i + 4..], "<br>", " ");
    ReplaceAllFirst(text, "<br>", " ", i);
    ReplaceCharConcat(text[..i] + " ", rest, '\n', ' ');
    ReplaceCharConcat(text[..i], " ", '\n', ' ');
  }

  lemma AllGalleriesHaveTwelve()
    ensures forall j :: 0 <= j < |ServiceGalleries| ==> |ServiceGalleries[j].images| == 12
  {
  }

  /**
   * The gallery for a title: the images of the first key, in declaration
   * order, that occurs in it, ignoring case; otherwise the fallback. Twelve
   * images exactly when some key matches, six otherwise.
   */
  function GalleryFor(title: string): (images: seq<string>)
    ensures forall j: nat :: IsFirstMatch(ToLower(title), ServiceGalleries, j) ==>
      images == ServiceGalleries[j].images
    ensures (forall j :: 0 <= j < |ServiceGalleries| ==> !KeyMatches(ToLower(title), ServiceGalleries[j].key)) ==>
      images == FallbackImages
    ensures |images| == 12 || |images| == 6
  {
    AllGalleriesHaveTwelve();
    match FirstMatch(ToLower(title), ServiceGalleries)
    case Some(i) => ServiceGalleries[i].images
    case None => FallbackImages
  }

  lemma LowerKeys()
    ensures ToLower("Wedding") == "wedding"
    ensures ToLower("Pre-Wedding") == "pre-wedding"
  {
    var w, p := ToLower("Wedding"), ToLower("Pre-Wedding");
    assert w[0] == LowerChar('W') == 'w';
    assert p[0] == LowerChar('P') == 'p' && p[4] == LowerChar('W') == 'w';
  }

  /**
   * A title matching the key "Temple Wedding" also matches "Wedding", the key
   * of an earlier entry, so the Temple Wedding gallery is never the one chosen.
   */
  lemma TempleWeddingIsShadowed(title: string)
    ensures !IsFirstMatch(ToLower(title), ServiceGalleries, TempleWeddingEntry)
  {
    var lower := ToLower(title);
    var templeKey := ServiceGalleries[TempleWeddingEntry].key;
    if KeyMatches(lower, templeKey) {
      ContainsPiece(lower, ToLower(templeKey), 7, 14);
      LowerOfSlice(templeKey, 7, 14);
      assert templeKey[7..14] == ServiceGalleries[WeddingEntry].key;
      assert KeyMatches(lower, ServiceGalleries[WeddingEntry].key);
    }
  }

  /** A title saying "temple wedding", and not "pre-wedding", opens the Wedding gallery. */
  lemma TempleWeddingOpensWedding(title: string)
    requires Contains(ToLower(title), "temple wedding")
    requires !Contains(ToLower(title), "pre-wedding")
    ensures GalleryFor(title) == WeddingImages
  {
    var lower := ToLower(title);
    LowerKeys();
    ContainsPiece(lower, "temple wedding", 7, 14);
    assert "temple wedding"[7..14] == "wedding";
    assert IsFirstMatch(lower, ServiceGalleries, WeddingEntry);
  }

  /** The service card titled "Temple Wedding" shows the Wedding images. */
  lemma TempleWeddingCard()
    ensures GalleryFor("Temple Wedding") == WeddingImages
  {
    LowerTempleWedding();
    assert OccursAt("temple wedding", "temple wedding", 0);
    NoPreWeddingInTempleWedding();
    TempleWeddingOpensWedding("Temple Wedding");
  }

  lemma LowerTempleWedding()
    ensures ToLower("Temple Wedding") == "temple wedding"
  {
    var lower := ToLower("Temple Wedding");
    assert lower[0] == 't' && lower[7] == 'w';
  }

  lemma NoPreWeddingInTempleWedding()
    ensures !Contains("temple wedding", "pre-wedding")
  {
    // the pattern's hyphen does not occur in the title
    assert "pre-wedding"[3] == '-';
    MissingCharNoOccurrence("temple wedding", "pre-wedding", 3);
  }

  function Min(a: int, b: int): int
  {
    if a < b then a else b
  }

  function Max(a: int, b: int): int
  {
    if a < b then b else a
  }

  /** How many images `slice(index, index + 3)` yields from `n` images. */
  function HeadLength(n: nat, index: nat): nat
  {
    Min(index + 3, n) - Min(index, n)
  }

  /**
   * The images `renderGallery` puts in the track: the slice from `index`,
   * then padding, up to three images or all of them when there are fewer.
   * Each padding image is `items[len % n]` for the current length `len` of
   * the window, which is `items[len]`, and not the image after the slice.
   */
  function Window(items: seq<string>, index: nat): (w: seq<string>)
    ensures |w| == Min(3, |items|)
  {
    var head := items[Min(index, |items|)..Min(index + 3, |items|)];
    head + items[|head|..Min(3, |items|)]
  }

  /** The window starts with the slice from `index`; padding position `k` shows `items[k % n]`. */
  lemma WindowContents(items: seq<string>, index: nat)
    ensures forall k :: 0 <= k < HeadLength(|items|, index) ==> Window(items, index)[k] == items[index + k]
    ensures forall k :: HeadLength(|items|, index) <= k < Min(3, |items|) ==>
      Window(items, index)[k] == items[k % |items|]
  {
    var n := |items|;
    var w := Window(items, index);
    var head := items[Min(index, n)..Min(index + 3, n)];
    assert w == head + items[|head|..Min(3, n)];
    forall k | 0 <= k < HeadLength(n, index)
      ensures w[k] == items[index + k]
    {
      assert w[k] == head[k];
    }
    forall k | HeadLength(n, index) <= k < Min(3, n)
      ensures w[k] == items[k % n]
    {
      ModOfSmall(k, n);
      assert w[k] == items[|head|..Min(3, n)][k - |head|];
    }
  }

  /** The loop of `renderGallery`: slice, then push until the window is full. */
  method RenderWindow(items: seq<string>, index: nat) returns (visible: seq<string>)
    ensures visible == Window(items, index)
  {
    var n := |items|;
    var head := items[Min(index, n)..Min(index + 3, n)];
    visible := head;
    while |visible| < 3 && |visible| < n
      invariant |head| <= |visible| <= Min(3, n)
      invariant visible == head + items[|head|..|visible|]
      decreases 3 - |visible|
    {
      var len := |visible|;
      PushStep(items, |head|, len);
      visible := visible + [items[len % n]];
      assert visible == head + (items[|head|..len] + [items[len % n]]);
    }
    assert |visible| == Min(3, n);
  }

  /** One push of the padding loop, `items[len % n]`, extends the copied run by the next image. */
  lemma PushStep(items: seq<string>, h: nat, len: nat)
    requires h <= len < |items|
    ensures items[h..len + 1] == items[h..len] + [items[len % |items|]]
  {
    ModOfSmall(len, |items|);
  }

  /** On the source's galleries (a multiple of three images) no padding ever happens. */
  lemma AlignedPageNeedsNoPadding(items: seq<string>, index: nat)
    requires |items| % 3 == 0 && index % 3 == 0 && index < |items|
    ensures Window(items, index) == items[index..index + 3]
  {
  }

  /** Four images at index 3: the padding restarts at image 1, not image 0. */
  lemma PaddingFollowsLength()
    ensures Window(["a", "b", "c", "d"], 3) == ["d", "b", "c"]
  {
  }

  /** `Math.ceil(n / 3)`, the number of dots. */
  function GroupCount(n: nat): (g: nat)
    ensures 3 * g >= n && 3 * g < n + 3
  {
    (n + 2) / 3
  }

  /** The loop of `renderDots`: one dot per group of three, the group of `index` active. */
  method RenderDotStates(n: nat, index: nat) returns (dots: seq<bool>)
    ensures |dots| == GroupCount(n)
    ensures forall i :: 0 <= i < |dots| ==> (dots[i] <==> i == index / 3)
  {
    dots := [];
    var groups := GroupCount(n);
    for i := 0 to groups
      invariant |dots| == i
      invariant forall j :: 0 <= j < i ==> (dots[j] <==> j == index / 3)
    {
      dots := dots + [i == index / 3];
    }
  }

  /** With `index < n` exactly one dot is active: the one of group `index / 3`. */
  lemma ExactlyOneDotActive(dots: seq<bool>, n: nat, index: nat)
    requires |dots| == GroupCount(n)
    requires forall i :: 0 <= i < |dots| ==> (dots[i] <==> i == index / 3)
    requires index < n
    ensures index / 3 < |dots| && dots[index / 3]
    ensures forall i, j :: 0 <= i < |dots| && 0 <= j < |dots| && dots[i] && dots[j] ==> i == j
  {
  }

  /** `currentIndex` is the start of a page: a multiple of three, inside the list or 0. */
  predicate PageAligned(index: nat, n: nat)
  {
    index % 3 == 0 && (index < n || index == 0)
  }

  /** The left arrow: `Math.max(0, currentIndex - 3)`. */
  function LeftStep(index: nat): nat
  {
    Max(0, index - 3)
  }

  /** The right arrow: three on only while another page starts before the end. */
  function RightStep(index: nat, n: nat): nat
  {
    if index + 3 < n then index + 3 else index
  }

  /** Start of the last page of `n` images. */
  function LastPage(n: nat): (p: nat)
    ensures p % 3 == 0 && (n > 0 ==> p < n && n <= p + 3)
  {
    if n == 0 then 0 else 3 * ((n - 1) / 3)
  }

  /** Every handler keeps the index at the start of a page. */
  lemma StepsKeepPageAligned(index: nat, n: nat, dot: nat)
    requires PageAligned(index, n)
    ensures PageAligned(LeftStep(index), n)
    ensures PageAligned(RightStep(index, n), n)
    ensures dot < GroupCount(n) ==> PageAligned(3 * dot, n)
  {
  }

  /** The index after `k` clicks of the right arrow. */
  function RightPresses(index: nat, n: nat, k: nat): nat
    decreases k
  {
    if k == 0 then index else RightPresses(RightStep(index, n), n, k - 1)
  }

  /** The index after `k` clicks of the left arrow. */
  function LeftPresses(index: nat, k: nat): nat
    decreases k
  {
    if k == 0 then index else LeftPresses(LeftStep(index), k - 1)
  }

  /** An aligned index is at most the start of the last page. */
  lemma AlignedBelowLastPage(index: nat, n: nat)
    requires PageAligned(index, n)
    ensures index <= LastPage(n)
  {
    if n > 0 {
      var m := index / 3;
      assert index == 3 * m;
      assert m <= (n - 1) / 3;
    }
  }

  /** `k` right clicks advance `k` pages and then stop at the last page. */
  lemma {:induction false} RightPressesStopAtLastPage(index: nat, n: nat, k: nat)
    requires PageAligned(index, n)
    ensures RightPresses(index, n, k) == Min(index + 3 * k, LastPage(n))
    decreases k
  {
    AlignedBelowLastPage(index, n);
    if k > 0 {
      StepsKeepPageAligned(index, n, 0);
      RightPressesStopAtLastPage(RightStep(index, n), n, k - 1);
    }
  }

  /** `k` left clicks go back `k` pages and then stay at 0. */
  lemma {:induction false} LeftPressesStopAtZero(index: nat, k: nat)
    ensures LeftPresses(index, k) == Max(0, index - 3 * k)
  {
    if k > 0 {
      LeftPressesStopAtZero(LeftStep(index), k - 1);
    }
  }

  /** Twelve images: the right arrow visits 0, 3, 6, 9 and then stays at 9. */
  lemma TwelveImageWalk()
    ensures RightPresses(0, 12, 1) == 3 && RightPresses(0, 12, 2) == 6
    ensures RightPresses(0, 12, 3) == 9 && forall k :: k >= 3 ==> RightPresses(0, 12, k) == 9
  {
    forall k | k >= 3
      ensures RightPresses(0, 12, k) == 9
    {
      RightPressesStopAtLastPage(0, 12, k);
    }
    RightPressesStopAtLastPage(0, 12, 1);
    RightPressesStopAtLastPage(0, 12, 2);
    RightPressesStopAtLastPage(0, 12, 3);
  }

  /** The module-level state of the modal and the parts of the page it renders. */
  class ModalPager {
    /** `currentImages`. */
    var images: seq<string>
    /** `currentIndex`. */
    var index: nat
    /** The text of `#modal-title`. */
    var title: string
    /** The images in `#modal-gallery-track`, in order. */
    var track: seq<string>
    /** The active flag of each `.gallery-dot`. */
    var dots: seq<bool>
    /** `#gallery-modal` has the `active` class. */
    var open: bool
    /** `document.body.style.overflow` is `hidden`. */
    var scrollLocked: bool

    ghost predicate Valid()
      reads this
    {
      && PageAligned(index, |images|)
      && track == Window(images, index)
      && |dots| == GroupCount(|images|)
      && forall i :: 0 <= i < |dots| ==> (dots[i] <==> i == index / 3)
    }

    /**
     * Page load: no gallery chosen yet, empty track and dots, modal closed;
     * the title is whatever the markup holds until the first open.
     */
    constructor (markupTitle: string)
      ensures Valid()
      ensures images == [] && index == 0 && title == markupTitle && !open && !scrollLocked
    {
      images := [];
      index := 0;
      title := markupTitle;
      track := [];
      dots := [];
      open := false;
      scrollLocked := false;
    }

    /** `renderGallery`. */
    method RenderGallery()
      modifies this`track
      ensures track == Window(images, index)
    {
      track := RenderWindow(images, index);
    }

    /** `renderDots`. */
    method RenderDots()
      modifies this`dots
      ensures |dots| == GroupCount(|images|)
      ensures forall i :: 0 <= i < |dots| ==> (dots[i] <==> i == index / 3)
    {
      dots := RenderDotStates(|images|, index);
    }

    /** `updateDots`: toggles each existing dot; the number of dots stays. */
    method UpdateDots()
      modifies this`dots
      ensures |dots| == old(|dots|)
      ensures forall i :: 0 <= i < |dots| ==> (dots[i] <==> i == index / 3)
    {
      var count := |dots|;
      for i := 0 to count
        invariant |dots| == count
        invariant forall j :: 0 <= j < i ==> (dots[j] <==> j == index / 3)
      {
        dots := dots[i := i == index / 3];
      }
    }

    /** A VIEW MORE click on the card titled `cardTitle`. */
    method Open(cardTitle: string)
      modifies this
      ensures Valid()
      ensures title == NormalizeTitle(cardTitle)
      ensures images == GalleryFor(title) && index == 0
      ensures track == Window(images, 0)
      ensures open && scrollLocked
    {
      var text := NormalizeTitle(cardTitle);
      Show(text, GalleryFor(text));
    }

    /** The second half of the click handler: load `gallery` at its first page and open the modal. */
    method Show(text: string, gallery: seq<string>)
      modifies this
      ensures Valid()
      ensures title == text && images == gallery && index == 0
      ensures track == Window(images, 0)
      ensures open && scrollLocked
    {
      images := gallery;
      index := 0;
      title := text;
      RenderGallery();
      RenderDots();
      open := true;
      scrollLocked := true;
    }

    /** The left arrow. */
    method ArrowLeft()
      requires Valid()
      modifies this`index, this`track, this`dots
      ensures Valid()
      ensures index == LeftStep(old(index))
      ensures track == Window(images, index)
    {
      StepsKeepPageAligned(index, |images|, 0);
      index := Max(0, index - 3);
      RenderGallery();
      UpdateDots();
    }

    /** The right arrow: nothing at all happens on the last page. */
    method ArrowRight()
      requires Valid()
      modifies this`index, this`track, this`dots
      ensures Valid()
      ensures index == RightStep(old(index), |images|)
      ensures index == old(index) ==> unchanged(this)
      ensures track == Window(images, index)
    {
      StepsKeepPageAligned(index, |images|, 0);
      if index + 3 < |images| {
        index := index + 3;
        RenderGallery();
        UpdateDots();
      }
    }

    /** A click on dot `i` shows page `i`. */
    method DotClick(i: nat)
      requires Valid() && i < |dots|
      modifies this`index, this`track, this`dots
      ensures Valid()
      ensures index == 3 * i
      ensures track == Window(images, index)
    {
      StepsKeepPageAligned(index, |images|, i);
      index := i * 3;
      RenderGallery();
      UpdateDots();
    }

    /** `closeModal`: from the close button or the backdrop; the gallery state stays. */
    method Close()
      requires Valid()
      modifies this`open, this`scrollLocked
      ensures Valid() && !open && !scrollLocked
    {
      open := false;
      scrollLocked := false;
    }

    /** A key press: Escape closes the modal when it is open. */
    method KeyDown(isEscape: bool)
      requires Valid()
      modifies this`open, this`scrollLocked
      ensures Valid()
      ensures isEscape && old(open) ==> !open && !scrollLocked
      ensures !(isEscape && old(open)) ==> unchanged(this)
    {
      if isEscape && open {
        Close();
      }
    }
  }
}
