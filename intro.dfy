/** The intro card: the background slideshow, the scroll-spy that marks the
    section under the reading line, the table of contents, the social links
    and the avatar. */
module Intro {
  import opened Wrappers
  import opened Types

  /** Section ids in page order; the scroll-spy and the contents list both use it. */
  const OrderedSections: seq<string> :=
    ["news", "education", "experience", "projects", "publications", "awards", "service", "photos"]

  /** Distance in pixels from the viewport top at which a section counts as being read. */
  const ReadingLine := 150

  const DefaultAvatar := "https://huggingface.co/datasets/Joinn/Page/resolve/main/Avatar/Venice.jpeg"

  /** The vertical extent of a section's bounding box, in viewport pixels. */
  datatype Rect = Rect(top: int, bottom: int)

  /** Section `id` is on the page and its box straddles the reading line.
      `boxes` holds the bounding box of every element that exists. */
  predicate UnderReadingLine(boxes: map<string, Rect>, id: string) {
    id in boxes && boxes[id].top <= ReadingLine < boxes[id].bottom
  }

  /** One pass of the scroll-spy: the first section, in page order, whose
      box contains the reading line, or "" when there is none. */
  method FindActiveSection(boxes: map<string, Rect>) returns (currentActive: string)
    ensures currentActive == "" <==>
      forall k :: 0 <= k < |OrderedSections| ==> !UnderReadingLine(boxes, OrderedSections[k])
    ensures currentActive != "" ==>
      exists k :: 0 <= k < |OrderedSections| && OrderedSections[k] == currentActive
        && UnderReadingLine(boxes, currentActive)
        && forall j :: 0 <= j < k ==> !UnderReadingLine(boxes, OrderedSections[j])
  {
    currentActive := "";
    var i := 0;
    while i < |OrderedSections|
      invariant 0 <= i <= |OrderedSections|
      invariant currentActive == ""
      invariant forall j :: 0 <= j < i ==> !UnderReadingLine(boxes, OrderedSections[j])
    {
      var id := OrderedSections[i];
      if id in boxes {
        var rect := boxes[id];
        if rect.top <= ReadingLine && rect.bottom > ReadingLine {
          currentActive := id;
          break;
        }
      }
      i := i + 1;
    }
  }

  /** A table-of-contents entry. */
  datatype NavLink = NavLink(key: string, caption: string, href: string, active: bool)

  /** A section has a title when its title is present and non-empty. */
  predicate HasTitle(titles: map<string, string>, key: string) {
    key in titles && titles[key] != ""
  }

  /** `a` occurs before `b` in `keys`. */
  predicate Before(keys: seq<string>, a: string, b: string) {
    exists p, q :: 0 <= p < q < |keys| && keys[p] == a && keys[q] == b
  }

  /** The contents list: one link per key with a title, in the order of `keys`. */
  function NavLinks(keys: seq<string>, titles: map<string, string>, activeSection: string): (r: seq<NavLink>)
    ensures |r| <= |keys|
    ensures forall i :: 0 <= i < |r| ==>
      && r[i].key in keys
      && HasTitle(titles, r[i].key)
      && r[i].caption == titles[r[i].key]
      && r[i].href == "#" + r[i].key
      && (r[i].active <==> r[i].key == activeSection)
  {
    if |keys| == 0 then []
    else
      var rest := NavLinks(keys[1..], titles, activeSection);
      if HasTitle(titles, keys[0]) then
        [NavLink(keys[0], titles[keys[0]], "#" + keys[0], keys[0] == activeSection)] + rest
      else
        rest
  }

  /** Every key with a title gets a link. */
  lemma {:induction false} NavLinksCoverTitled(keys: seq<string>, titles: map<string, string>, activeSection: string, key: string)
    requires key in keys && HasTitle(titles, key)
    ensures exists i :: 0 <= i < |NavLinks(keys, titles, activeSection)| && NavLinks(keys, titles, activeSection)[i].key == key
  {
    var r := NavLinks(keys, titles, activeSection);
    var rest := NavLinks(keys[1..], titles, activeSection);
    if key == keys[0] {
      assert r[0].key == key;
    } else {
      assert key in keys[1..];
      NavLinksCoverTitled(keys[1..], titles, activeSection, key);
      var i :| 0 <= i < |rest| && rest[i].key == key;
      if HasTitle(titles, keys[0]) {
        assert r[i + 1] == rest[i];
      } else {
        assert r[i] == rest[i];
      }
    }
  }

  /** Links keep the relative order of their keys. */
  lemma {:induction false} NavLinksKeepOrder(keys: seq<string>, titles: map<string, string>, activeSection: string, i: nat, j: nat)
    requires i < j < |NavLinks(keys, titles, activeSection)|
    ensures Before(keys, NavLinks(keys, titles, activeSection)[i].key, NavLinks(keys, titles, activeSection)[j].key)
  {
    var r := NavLinks(keys, titles, activeSection);
    var rest := NavLinks(keys[1..], titles, activeSection);
    if HasTitle(titles, keys[0]) {
      assert r == [r[0]] + rest;
      var b := rest[j - 1].key;
      var q :| 0 <= q < |keys[1..]| && keys[1..][q] == b;
      if i == 0 {
        assert keys[0] == r[i].key && keys[q + 1] == r[j].key;
      } else {
        NavLinksKeepOrder(keys[1..], titles, activeSection, i - 1, j - 1);
        ShiftBefore(keys, rest[i - 1].key, b);
      }
    } else {
      NavLinksKeepOrder(keys[1..], titles, activeSection, i, j);
      ShiftBefore(keys, r[i].key, r[j].key);
    }
  }

  lemma ShiftBefore(keys: seq<string>, a: string, b: string)
    requires |keys| > 0 && Before(keys[1..], a, b)
    ensures Before(keys, a, b)
  {
    var p, q :| 0 <= p < q < |keys[1..]| && keys[1..][p] == a && keys[1..][q] == b;
    assert keys[p + 1] == a && keys[q + 1] == b;
  }

  /** A rendered social link: its accessible caption and its target. */
  datatype Anchor = Anchor(caption: string, href: string)

  /** `SocialLink` renders nothing for a missing or empty `href`. */
  function SocialLink(caption: string, href: Option<string>): (r: Option<Anchor>)
    ensures r.Some? <==> Truthy(href)
    ensures r.Some? ==> r.value == Anchor(caption, href.value)
  {
    if Truthy(href) then Some(Anchor(caption, href.value)) else None
  }

  /** The e-mail link's target: `mailto:` prefixed only when an address is present. */
  function EmailHref(email: Option<string>): (r: Option<string>)
    ensures Truthy(r) <==> Truthy(email)
    ensures Truthy(email) ==> r == Some("mailto:" + email.value)
  {
    if Truthy(email) then Some("mailto:" + email.value) else None
  }

  /** The six candidate links, in display order. */
  function SocialCandidates(links: Links): seq<(string, Option<string>)> {
    [ ("GitHub", links.github), ("Scholar", links.googleScholar), ("OpenReview", links.openReview),
      ("Email", EmailHref(links.email)), ("LinkedIn", links.linkedin), ("ORCID", links.orcid) ]
  }

  /** The links that render, in candidate order. */
  function RenderLinks(candidates: seq<(string, Option<string>)>): (r: seq<Anchor>)
    ensures |r| <= |candidates|
    ensures forall i :: 0 <= i < |r| ==> r[i].href != "" && Some(r[i].href) in Hrefs(candidates, r[i].caption)
    ensures forall c :: c in candidates && Truthy(c.1) ==> Anchor(c.0, c.1.value) in r
  {
    if |candidates| == 0 then []
    else
      var rest := RenderLinks(candidates[1..]);
      match SocialLink(candidates[0].0, candidates[0].1)
      case None => rest
      case Some(a) => [a] + rest
  }

  /** The targets offered under `caption`. */
  function Hrefs(candidates: seq<(string, Option<string>)>, caption: string): (r: set<Option<string>>)
    ensures forall c :: c in candidates && c.0 == caption ==> c.1 in r
  {
    set c | c in candidates && c.0 == caption :: c.1
  }

  /** The intro card's social row. */
  function SocialLinks(links: Links): (r: seq<Anchor>)
    ensures |r| <= 6
    ensures forall i :: 0 <= i < |r| ==> r[i].href != ""
    ensures forall c :: c in SocialCandidates(links) && Truthy(c.1) ==> Anchor(c.0, c.1.value) in r
    ensures Truthy(links.email) ==> Anchor("Email", "mailto:" + links.email.value) in r
  {
    RenderLinks(SocialCandidates(links))
  }

  /** The avatar image source: the given avatar, or the fixed default. */
  function AvatarSrc(avatar: Option<string>): (r: string)
    ensures r != ""
    ensures Truthy(avatar) ==> r == avatar.value
    ensures !Truthy(avatar) ==> r == DefaultAvatar
  {
    if Truthy(avatar) then avatar.value else DefaultAvatar
  }

  /** The component state: the photos it was given, the slideshow position
      and the section last marked active. */
  class IntroSection {
    const photos: seq<Photo>
    var currentPhotoIndex: nat
    var activeSection: string

    ghost predicate Valid()
      reads this
    {
      |photos| > 0 ==> currentPhotoIndex < |photos|
    }

    constructor (photos: seq<Photo>)
      ensures this.photos == photos
      ensures currentPhotoIndex == 0 && activeSection == ""
      ensures Valid()
    {
      this.photos := photos;
      currentPhotoIndex := 0;
      activeSection := "";
    }

    /** One slideshow tick; the interval exists only when there are photos.
        Returns the index of the photo preloaded for the following tick. */
    method Tick() returns (preloadIndex: nat)
      requires Valid() && |photos| > 0
      modifies this`currentPhotoIndex
      ensures Valid()
      ensures currentPhotoIndex == (old(currentPhotoIndex) + 1) % |photos|
      ensures preloadIndex == (currentPhotoIndex + 1) % |photos| && preloadIndex < |photos|
    {
      var nextIndex := (currentPhotoIndex + 1) % |photos|;
      preloadIndex := (nextIndex + 1) % |photos|;
      currentPhotoIndex := nextIndex;
    }

    /** The background photo's URL; none without photos. */
    function CurrentPhotoUrl(): (r: Option<string>)
      reads this
      requires Valid()
      ensures r.None? <==> |photos| == 0
      ensures r.Some? ==> r.value == photos[currentPhotoIndex].url
    {
      if |photos| > 0 then Some(photos[currentPhotoIndex].url) else None
    }

    /** One animation frame of the scroll handler: the active section moves to
        the first section under the reading line, and stays put when there is none. */
    method OnScrollFrame(boxes: map<string, Rect>)
      modifies this`activeSection
      ensures (forall k :: 0 <= k < |OrderedSections| ==> !UnderReadingLine(boxes, OrderedSections[k]))
        ==> activeSection == old(activeSection)
      ensures activeSection != old(activeSection) ==>
        exists k :: 0 <= k < |OrderedSections| && OrderedSections[k] == activeSection
          && UnderReadingLine(boxes, activeSection)
          && forall j :: 0 <= j < k ==> !UnderReadingLine(boxes, OrderedSections[j])
      ensures forall k ::
                0 <= k < |OrderedSections| && UnderReadingLine(boxes, OrderedSections[k])
                && (forall j :: 0 <= j < k ==> !UnderReadingLine(boxes, OrderedSections[j]))
                ==> activeSection == OrderedSections[k]
    {
      var currentActive := FindActiveSection(boxes);
      if currentActive != "" {
        activeSection := currentActive;
      }
    }

    /** The contents list as rendered with the current active section. */
    function Navigation(titles: map<string, string>): (r: seq<NavLink>)
      reads this
      ensures forall i :: 0 <= i < |r| ==> (r[i].active <==> r[i].key == activeSection)
    {
      NavLinks(OrderedSections, titles, activeSection)
    }
  }
}
