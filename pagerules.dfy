/**
 * The smaller interactive rules of scripts/photocrew-script.js: the hero
 * slideshow, the gallery filter, the FAQ accordion, the theme toggle and the
 * scroll-spy link highlighting.
 */
module PageRules {
  import opened Wrappers
  import SectionSpy

  // ---------------------------------------------------------------------------
  // Hero slideshow

  /** The hero `.slide` elements, advanced every 5000 ms when there are at least two. */
  class HeroSlideshow {
    /** Whether slide `k` has the `active` class. */
    var slideActive: seq<bool>
    /** `currentSlide`. */
    var current: nat
    /** The 5000 ms interval was set. */
    const autoAdvance: bool

    ghost predicate Valid()
      reads this
    {
      && autoAdvance == (|slideActive| > 1)
      && (|slideActive| > 0 ==> current < |slideActive|)
      && forall k :: 0 <= k < |slideActive| ==> slideActive[k] == (k == current)
    }

    /** Page load with the first slide marked active; the interval only for two or more slides. */
    constructor (n: nat)
      ensures Valid()
      ensures |slideActive| == n && current == 0
      ensures autoAdvance <==> n > 1
    {
      slideActive := seq(n, k => k == 0);
      current := 0;
      autoAdvance := n > 1;
    }

    /** `nextSlide`: the following slide, wrapping to 0, becomes the only active one. */
    method NextSlide()
      requires Valid() && |slideActive| > 0
      modifies this`slideActive, this`current
      ensures Valid()
      ensures |slideActive| == old(|slideActive|)
      ensures current == (old(current) + 1) % |slideActive|
    {
      slideActive := slideActive[current := false];
      current := (current + 1) % |slideActive|;
      slideActive := slideActive[current := true];
    }

    /** One firing of the interval, which exists only when `autoAdvance` holds. */
    method Tick()
      requires Valid() && autoAdvance
      modifies this`slideActive, this`current
      ensures Valid()
      ensures |slideActive| == old(|slideActive|)
      ensures current == (old(current) + 1) % |slideActive|
    {
      NextSlide();
    }
  }

  // ---------------------------------------------------------------------------
  // Gallery filter

  /**
   * `item.dataset.category === filter` after the `'all'` test; an absent
   * attribute is `undefined`, which equals only another absent one.
   */
  predicate Matches(filter: Option<string>, category: Option<string>)
  {
    filter == Some("all") || category == filter
  }

  /** A pending `setTimeout` of the filter handler. */
  datatype Timer =
    | Reveal(item: nat)   // after 10 ms: opacity 1, scale 1
    | Hide(item: nat)     // after 300 ms: add the `hidden` class

  /** The timers one click with `filter` schedules, one per gallery item, in item order. */
  function ClickTimers(filter: Option<string>, categories: seq<Option<string>>): (ts: seq<Timer>)
    ensures |ts| == |categories|
    ensures forall i :: 0 <= i < |ts| ==> ts[i].item == i && (ts[i].Reveal? <==> Matches(filter, categories[i]))
  {
    seq(|categories|, i requires 0 <= i < |categories| =>
      if Matches(filter, categories[i]) then Reveal(i) else Hide(i))
  }

  lemma RemoveAtKeepsOthers(ts: seq<Timer>, k: nat, t: Timer)
    requires k < |ts| && t in ts && t != ts[k]
    ensures t in ts[..k] + ts[k + 1..]
  {
    var j :| 0 <= j < |ts| && ts[j] == t;
    if j < k {
      assert (ts[..k] + ts[k + 1..])[j] == t;
    } else {
      assert (ts[..k] + ts[k + 1..])[j - 1] == t;
    }
  }

  /** The `.filter-btn` buttons and `.gallery-item` elements with their pending timers. */
  class GalleryFilter {
    /** `data-filter` of each button. */
    const filters: seq<Option<string>>
    /** `data-category` of each item. */
    const categories: seq<Option<string>>
    /** Whether button `k` has the `active` class. */
    var buttonActive: seq<bool>
    /** Whether item `i` has the `hidden` class. */
    var hidden: seq<bool>
    /** Whether item `i` is faded out (opacity 0, scale 0.8) rather than shown. */
    var faded: seq<bool>
    /** Timers scheduled and not yet fired. */
    var pending: seq<Timer>
    /** The filter of the last click. */
    ghost var lastFilter: Option<string>

    ghost predicate Valid()
      reads this
    {
      && |buttonActive| == |filters|
      && |hidden| == |categories|
      && |faded| == |categories|
      && forall t :: t in pending ==> t.item < |categories|
    }

    /**
     * Every pending timer was scheduled by the last click and every item is
     * either in its final state or has that click's timer still pending.
     */
    ghost predicate OnTrack()
      reads this
      requires Valid()
    {
      && (forall t :: t in pending ==> (t.Reveal? <==> Matches(lastFilter, categories[t.item])))
      && forall i :: 0 <= i < |categories| ==>
        if Matches(lastFilter, categories[i]) then
          !hidden[i] && (faded[i] ==> Reveal(i) in pending)
        else
          faded[i] && (!hidden[i] ==> Hide(i) in pending)
    }

    /** Item `i` can be seen: not hidden and not faded. */
    ghost predicate Visible(i: nat)
      reads this
      requires Valid() && i < |categories|
    {
      !hidden[i] && !faded[i]
    }

    /** The markup's initial classes and styles, with no click yet. */
    constructor (buttonFilters: seq<Option<string>>, itemCategories: seq<Option<string>>,
                 initiallyActive: seq<bool>, initiallyHidden: seq<bool>, initiallyFaded: seq<bool>)
      requires |initiallyActive| == |buttonFilters|
      requires |initiallyHidden| == |itemCategories| && |initiallyFaded| == |itemCategories|
      ensures Valid() && pending == []
      ensures filters == buttonFilters && categories == itemCategories
      ensures buttonActive == initiallyActive && hidden == initiallyHidden && faded == initiallyFaded
    {
      filters := buttonFilters;
      categories := itemCategories;
      buttonActive := initiallyActive;
      hidden := initiallyHidden;
      faded := initiallyFaded;
      pending := [];
      lastFilter := None;
    }

    /** The button part of a click: every button loses `active`, then button `b` gets it. */
    method ActivateOnly(b: nat)
      requires Valid() && b < |filters|
      modifies this`buttonActive
      ensures Valid()
      ensures forall k :: 0 <= k < |buttonActive| ==> (buttonActive[k] <==> k == b)
    {
      for k := 0 to |buttonActive|
        invariant |buttonActive| == |filters|
        invariant forall j :: 0 <= j < k ==> !buttonActive[j]
      {
        buttonActive := buttonActive[k := false];
      }
      buttonActive := buttonActive[b := true];
    }

    /**
     * The item part of a click: matching items lose `hidden` at once and get a
     * reveal timer, the others fade out at once and get a hide timer.
     */
    method ApplyFilter(filter: Option<string>)
      requires Valid()
      modifies this`hidden, this`faded, this`pending
      ensures Valid()
      ensures forall i :: 0 <= i < |categories| && Matches(filter, categories[i]) ==>
        !hidden[i] && faded[i] == old(faded[i])
      ensures forall i :: 0 <= i < |categories| && !Matches(filter, categories[i]) ==>
        faded[i] && hidden[i] == old(hidden[i])
      ensures pending == old(pending) + ClickTimers(filter, categories)
    {
      ghost var timers := ClickTimers(filter, categories);
      for i := 0 to |categories|
        invariant |hidden| == |categories| && |faded| == |categories|
        invariant pending == old(pending) + timers[..i]
        invariant forall j :: 0 <= j < i && Matches(filter, categories[j]) ==>
          !hidden[j] && faded[j] == old(faded[j])
        invariant forall j :: 0 <= j < i && !Matches(filter, categories[j]) ==>
          faded[j] && hidden[j] == old(hidden[j])
        invariant forall j :: i <= j < |categories| ==> hidden[j] == old(hidden[j]) && faded[j] == old(faded[j])
      {
        assert timers[..i + 1] == timers[..i] + [timers[i]];
        if Matches(filter, categories[i]) {
          hidden := hidden[i := false];
          pending := pending + [Reveal(i)];
        } else {
          faded := faded[i := true];
          pending := pending + [Hide(i)];
        }
      }
      assert timers[..|categories|] == timers;
    }

    /**
     * A click on button `b`: it becomes the only active button; matching items
     * lose `hidden` at once and fade in later, the others fade out at once and
     * get `hidden` later.
     */
    method Click(b: nat)
      requires Valid() && b < |filters|
      modifies this`buttonActive, this`hidden, this`faded, this`pending, this`lastFilter
      ensures Valid()
      ensures forall k :: 0 <= k < |buttonActive| ==> (buttonActive[k] <==> k == b)
      ensures lastFilter == filters[b]
      ensures forall i :: 0 <= i < |categories| && Matches(filters[b], categories[i]) ==>
        !hidden[i] && faded[i] == old(faded[i])
      ensures forall i :: 0 <= i < |categories| && !Matches(filters[b], categories[i]) ==>
        faded[i] && hidden[i] == old(hidden[i])
      ensures pending == old(pending) + ClickTimers(filters[b], categories)
      ensures old(pending) == [] ==> OnTrack()
    {
      ActivateOnly(b);
      var filter := filters[b];
      lastFilter := filter;
      ApplyFilter(filter);
      if old(pending) == [] {
        forall i | 0 <= i < |categories|
          ensures pending[i] == (if Matches(filter, categories[i]) then Reveal(i) else Hide(i))
        {
        }
      }
    }

    /** Pending timer `k` fires. */
    method Fire(k: nat)
      requires Valid() && k < |pending|
      modifies this`hidden, this`faded, this`pending
      ensures Valid()
      ensures pending == old(pending[..k] + pending[k + 1..])
      ensures old(pending[k]).Reveal? ==> hidden == old(hidden) && faded == old(faded)[old(pending[k]).item := false]
      ensures old(pending[k]).Hide? ==> faded == old(faded) && hidden == old(hidden)[old(pending[k]).item := true]
      ensures old(OnTrack()) ==> OnTrack()
    {
      var t := pending[k];
      ghost var was := pending;
      assert forall u :: u in pending[..k] + pending[k + 1..] ==> u in was;
      pending := pending[..k] + pending[k + 1..];
      match t
      case Reveal(i) => faded := faded[i := false];
      case Hide(i) => hidden := hidden[i := true];
      forall u | u in was && u != t
        ensures u in pending
      {
        RemoveAtKeepsOthers(was, k, u);
      }
    }

    /** Once the last click's timers have all fired, exactly the matching items are visible. */
    lemma SettledShowsFilter()
      requires Valid() && OnTrack() && pending == []
      ensures forall i :: 0 <= i < |categories| ==> (Visible(i) <==> Matches(lastFilter, categories[i]))
      ensures forall i :: 0 <= i < |categories| ==> hidden[i] == faded[i]
    {
    }
  }

  /**
   * Two clicks closer together than 300 ms: the first click's hide timer
   * fires after the second click's reveal and hides an item the second
   * filter (`all`) matches.
   */
  method QuickReclickCanHideItem() returns (matches: bool, visible: bool)
    ensures matches && !visible
  {
    var g := new GalleryFilter([Some("portrait"), Some("all")], [Some("wedding")], [false, false], [false], [false]);
    g.Click(0);
    assert g.pending == [Hide(0)];
    g.Click(1);
    assert g.pending == [Hide(0), Reveal(0)];
    g.Fire(1);
    g.Fire(0);
    matches := Matches(g.filters[1], g.categories[0]);
    var hidden, faded := g.hidden[0], g.faded[0];
    visible := !hidden && !faded;
  }

  // ---------------------------------------------------------------------------
  // FAQ accordion

  /** At most one flag is set. */
  predicate AtMostOne(flags: seq<bool>)
  {
    forall i, j :: 0 <= i < |flags| && 0 <= j < |flags| && flags[i] && flags[j] ==> i == j
  }

  /** The `.faq-item` elements and their `active` class. */
  class FaqAccordion {
    var active: seq<bool>

    constructor (initiallyActive: seq<bool>)
      ensures active == initiallyActive
    {
      active := initiallyActive;
    }

    /**
     * A click on the question of item `k`: every other item closes and item
     * `k` toggles, so an open item closes and a closed one opens alone.
     */
    method Click(k: nat)
      requires k < |active|
      modifies this`active
      ensures |active| == old(|active|)
      ensures forall j :: 0 <= j < |active| ==> (active[j] <==> j == k && !old(active[k]))
      ensures AtMostOne(active)
    {
      var n := |active|;
      for j := 0 to n
        invariant |active| == n
        invariant forall i :: 0 <= i < j && i != k ==> !active[i]
        invariant active[k] == old(active[k])
        invariant forall i :: j <= i < n ==> active[i] == old(active[i])
      {
        if j != k {
          active := active[j := false];
        }
      }
      active := active[k := !active[k]];
    }
  }

  // ---------------------------------------------------------------------------
  // Theme

  /**
   * The theme chosen before first paint: the saved value when it is a
   * non-empty string, otherwise dark whatever the system prefers.
   */
  function InitialTheme(saved: Option<string>, systemPrefersDark: bool): (theme: string)
    ensures theme == "light" <==> saved == Some("light")
    ensures saved.None? || saved == Some("") ==> theme == "dark"
  {
    if saved.Some? && saved.value != "" then saved.value
    else if systemPrefersDark then "dark" else "dark"
  }

  /** The theme a toggle switches to, read from the `data-theme` attribute. */
  function ToggledTheme(attribute: Option<string>): (theme: string)
    ensures theme == "light" <==> attribute != Some("light")
    ensures theme == "light" || theme == "dark"
  {
    if attribute == Some("light") then "dark" else "light"
  }

  /** The `data-theme` attribute for a theme: `light` is set, anything else removes it. */
  function AttributeFor(theme: string): (attribute: Option<string>)
    ensures attribute == Some("light") <==> theme == "light"
    ensures attribute != Some("light") ==> attribute.None?
  {
    if theme == "light" then Some("light") else None
  }

  /** Two toggles restore light-or-not; from an attribute the page itself writes, exactly. */
  lemma ToggleTwice(attribute: Option<string>)
    ensures var twice := AttributeFor(ToggledTheme(AttributeFor(ToggledTheme(attribute))));
      (twice == Some("light") <==> attribute == Some("light")) &&
      (twice == attribute <==> attribute.None? || attribute == Some("light"))
  {
  }

  /** The `data-theme` attribute of `<html>` and the `theme` entry of `localStorage`. */
  class Theme {
    var attribute: Option<string>
    var stored: Option<string>

    /** Page load: `markup` is the attribute the HTML carries, `saved` the stored entry. */
    constructor (saved: Option<string>, systemPrefersDark: bool, markup: Option<string>)
      ensures attribute == if InitialTheme(saved, systemPrefersDark) == "light" then Some("light") else markup
      ensures stored == saved
    {
      attribute := if InitialTheme(saved, systemPrefersDark) == "light" then Some("light") else markup;
      stored := saved;
    }

    /** A click on the toggle: light exactly when it was not, and the choice is stored. */
    method Toggle()
      modifies this
      ensures attribute == AttributeFor(ToggledTheme(old(attribute)))
      ensures stored == Some(ToggledTheme(old(attribute)))
      ensures attribute == Some("light") <==> old(attribute) != Some("light")
    {
      var newTheme := if attribute == Some("light") then "dark" else "light";
      if newTheme == "light" {
        attribute := Some("light");
      } else {
        attribute := None;
      }
      stored := Some(newTheme);
    }
  }

  // ---------------------------------------------------------------------------
  // Active navigation link

  /**
   * The scroll handler: a section is current while the page offset runs
   * from 100 px above its top to 100 px above its bottom (`offsetTop - 100 <= y < offsetTop - 100 + height`,
   * that is, `y + 100` inside the section); with none the id is empty, so a
   * link whose `href` is just `#` is highlighted.
   */
  method ActiveLinkOnScroll(pageYOffset: int, sections: seq<SectionSpy.Section>, hrefs: seq<Option<string>>)
    returns (current: string, active: seq<bool>)
    ensures SectionSpy.NoneCovers(sections, pageYOffset + 100) ==> current == ""
    ensures forall j :: SectionSpy.LastCovering(sections, pageYOffset + 100, j) ==> current == sections[j].id
    ensures |active| == |hrefs|
    ensures forall k :: 0 <= k < |hrefs| ==> (active[k] <==> hrefs[k] == Some("#" + current))
  {
    current := SectionSpy.CurrentSection(sections, pageYOffset + 100, "");
    active := SectionSpy.LinkStates(hrefs, current);
  }
}
