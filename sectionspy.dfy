/**
 * Scroll-spy: which `section[id]` the reader is in and which navigation link
 * is highlighted. Both scripts run the same loop over the sections; they
 * differ only in the probe line, the default id and the link update.
 */
module SectionSpy {
  import opened Wrappers

  /** A `section[id]` with its `offsetTop` and `offsetHeight` in pixels. */
  datatype Section = Section(id: string, top: int, height: int)

  /** The probe line `y` falls inside the section's vertical extent. */
  predicate Covers(s: Section, y: int)
  {
    s.top <= y < s.top + s.height
  }

  /** No section covers `y`. */
  predicate NoneCovers(sections: seq<Section>, y: int)
  {
    forall j :: 0 <= j < |sections| ==> !Covers(sections[j], y)
  }

  /** Section `j` covers `y` and no later section does. */
  predicate LastCovering(sections: seq<Section>, y: int, j: int)
  {
    && 0 <= j < |sections|
    && Covers(sections[j], y)
    && forall k :: j < k < |sections| ==> !Covers(sections[k], y)
  }

  /**
   * The `forEach` over the sections: every section covering `y` overwrites
   * the current id, so the last covering one wins; with none, `default` stays.
   */
  method CurrentSection(sections: seq<Section>, y: int, default: string) returns (current: string)
    ensures NoneCovers(sections, y) ==> current == default
    ensures forall j :: LastCovering(sections, y, j) ==> current == sections[j].id
  {
    current := default;
    ghost var last: int := -1;
    for i := 0 to |sections|
      invariant -1 <= last < i
      invariant last == -1 ==> current == default && NoneCovers(sections[..i], y)
      invariant last >= 0 ==> current == sections[last].id && LastCovering(sections[..i], y, last)
    {
      if Covers(sections[i], y) {
        current := sections[i].id;
        last := i;
      }
    }
  }

  /** A link is highlighted exactly when its `href` is `#` followed by the current id. */
  method LinkStates(hrefs: seq<Option<string>>, current: string) returns (active: seq<bool>)
    ensures |active| == |hrefs|
    ensures forall k :: 0 <= k < |hrefs| ==> (active[k] <==> hrefs[k] == Some("#" + current))
  {
    active := [];
    for k := 0 to |hrefs|
      invariant |active| == k
      invariant forall j :: 0 <= j < k ==> (active[j] <==> hrefs[j] == Some("#" + current))
    {
      active := active + [hrefs[k] == Some("#" + current)];
    }
  }

  /**
   * `updateActiveLink` of scripts/main.js: the probe is 150 px below the top
   * of the viewport and the default section is `home`.
   */
  method UpdateActiveLink(scrollY: int, sections: seq<Section>, hrefs: seq<Option<string>>)
    returns (current: string, active: seq<bool>)
    ensures NoneCovers(sections, scrollY + 150) ==> current == "home"
    ensures forall j :: LastCovering(sections, scrollY + 150, j) ==> current == sections[j].id
    ensures |active| == |hrefs|
    ensures forall k :: 0 <= k < |hrefs| ==> (active[k] <==> hrefs[k] == Some("#" + current))
  {
    current := CurrentSection(sections, scrollY + 150, "home");
    active := LinkStates(hrefs, current);
  }
}
