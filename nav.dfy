/** The scroll listener that `updateActiveNav` installs (script.js:129-147):
    find the current section, then rewrite the `active` class of every
    `.nav-menu a` link. The `section[id]` elements are a sequence of
    (id, offsetTop) pairs read at the time of the scroll; the links are an
    array of records whose `active` flag stands for the class. */
module Nav {
  import opened Wrappers

  /** How far above a section's top the page may be scrolled and still count
      as inside it, in CSS pixels. */
  const Tolerance := 100

  /** A `section[id]`: its `id` attribute and its `offsetTop`. */
  datatype Section = Section(id: string, offsetTop: int)

  /** A `.nav-menu a`: its `href` attribute (`None` when absent) and whether
      it carries the `active` class. */
  datatype NavLink = NavLink(href: Option<string>, active: bool)

  /** `window.pageYOffset >= sectionTop - 100`. The offset can be fractional. */
  predicate Reached(section: Section, pageYOffset: real)
  {
    pageYOffset >= (section.offsetTop - Tolerance) as real
  }

  /** The value `current` holds after the scan over `sections`: the id of the
      last reached section, or `''`. */
  function CurrentOf(sections: seq<Section>, pageYOffset: real): string
  {
    if sections == [] then ""
    else if Reached(sections[|sections| - 1], pageYOffset) then sections[|sections| - 1].id
    else CurrentOf(sections[..|sections| - 1], pageYOffset)
  }

  /** Last one wins: if section `k` is reached and no later section is, the
      scan ends with `k`'s id, whatever the sections before `k` are. */
  lemma {:induction false} CurrentIsLastReached(sections: seq<Section>, pageYOffset: real, k: int)
    requires 0 <= k < |sections| && Reached(sections[k], pageYOffset)
    requires forall j :: k < j < |sections| ==> !Reached(sections[j], pageYOffset)
    ensures CurrentOf(sections, pageYOffset) == sections[k].id
    decreases |sections|
  {
    var n := |sections| - 1;
    if k < n {
      var front := sections[..n];
      assert forall j :: k < j < |front| ==> front[j] == sections[j];
      CurrentIsLastReached(front, pageYOffset, k);
    }
  }

  /** No section reached leaves `current` at `''`. */
  lemma {:induction false} CurrentEmptyWhenNoneReached(sections: seq<Section>, pageYOffset: real)
    requires forall j :: 0 <= j < |sections| ==> !Reached(sections[j], pageYOffset)
    ensures CurrentOf(sections, pageYOffset) == ""
    decreases |sections|
  {
    if sections != [] {
      var front := sections[..|sections| - 1];
      assert forall j :: 0 <= j < |front| ==> front[j] == sections[j];
      CurrentEmptyWhenNoneReached(front, pageYOffset);
    }
  }

  /** The forward scan of script.js:130-139: every reached section overwrites
      `current`. */
  method ScanCurrent(sections: seq<Section>, pageYOffset: real) returns (current: string)
    ensures current == CurrentOf(sections, pageYOffset)
  {
    current := "";
    for i := 0 to |sections|
      invariant current == CurrentOf(sections[..i], pageYOffset)
    {
      assert sections[..i + 1][..i] == sections[..i];
      if pageYOffset >= (sections[i].offsetTop - Tolerance) as real {
        current := sections[i].id;
      }
    }
    assert sections[..|sections|] == sections;
  }

  /** The link loop of script.js:141-146: each link loses `active` and gets it
      back exactly when its `href` is `'#' + current`; nothing else changes. */
  method MarkActive(links: array<NavLink>, current: string)
    modifies links
    ensures forall i :: 0 <= i < links.Length ==>
      links[i].href == old(links[i].href)
      && (links[i].active <==> links[i].href == Some("#" + current))
  {
    for i := 0 to links.Length
      invariant forall j :: 0 <= j < i ==>
        links[j].href == old(links[j].href)
        && (links[j].active <==> links[j].href == Some("#" + current))
      invariant forall j :: i <= j < links.Length ==> links[j] == old(links[j])
    {
      links[i] := links[i].(active := false);
      if links[i].href == Some("#" + current) {
        links[i] := links[i].(active := true);
      }
    }
  }

  /** One scroll event: scan, then mark. A link ends up active exactly when its
      `href` names the last reached section. */
  method OnScroll(sections: seq<Section>, links: array<NavLink>, pageYOffset: real)
    modifies links
    ensures forall i :: 0 <= i < links.Length ==>
      links[i].href == old(links[i].href)
      && (links[i].active <==> links[i].href == Some("#" + CurrentOf(sections, pageYOffset)))
  {
    var current := ScanCurrent(sections, pageYOffset);
    MarkActive(links, current);
  }

  /** When the links' `href`s are pairwise distinct, the marking leaves at most
      one link active, and that link's `href` is `'#' + current`. */
  lemma AtMostOneActive(links: seq<NavLink>, current: string, i: int, j: int)
    requires forall a, b :: 0 <= a < b < |links| ==> links[a].href != links[b].href
    requires forall a :: 0 <= a < |links| ==> (links[a].active <==> links[a].href == Some("#" + current))
    requires 0 <= i < |links| && 0 <= j < |links| && links[i].active && links[j].active
    ensures i == j && links[i].href == Some("#" + current)
  {
  }

  /** Sections at 0, 800 and 1600 scrolled to 750: the second section is
      current, although the first is reached too. */
  lemma LaterSectionWinsExample()
    ensures CurrentOf([Section("home", 0), Section("trending", 800), Section("releases", 1600)], 750.0) == "trending"
  {
    var sections := [Section("home", 0), Section("trending", 800), Section("releases", 1600)];
    assert !Reached(sections[2], 750.0);
    CurrentIsLastReached(sections, 750.0, 1);
  }
}
