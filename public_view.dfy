/**
  The public page: a loading screen while the data is being fetched, a
  not-found screen when no profile was loaded, and otherwise the profile with
  every section and the links of each section.
*/
module PublicView {
  import opened Entities
  import opened Grouping

  datatype Screen =
    | LoadingScreen
    | NotFoundScreen
    | ProfilePage(profile: Profile, groups: seq<SectionGroup>, showsPlaceholder: bool)

  /** What the page shows for the loading flag, the loaded profile, and the
      sections and links delivered with it. */
  function Render(loading: bool, profile: Option<Profile>, sections: seq<Section>, links: seq<Link>): (r: Screen)
    ensures r == LoadingScreen <==> loading
    ensures r == NotFoundScreen <==> !loading && profile.None?
    ensures r.ProfilePage? ==>
              && profile == Some(r.profile)
              && |r.groups| == |sections|
              && (forall k :: 0 <= k < |sections| ==> r.groups[k].section == sections[k])
              && (forall k :: 0 <= k < |sections| ==> r.groups[k].links == LinksOf(links, sections[k].id))
              && (forall k, l :: 0 <= k < |sections| ==>
                    (l in r.groups[k].links <==> l in links && l.sectionId == sections[k].id))
              && (r.showsPlaceholder <==> |sections| == 0)
  {
    if loading then LoadingScreen
    else if profile.None? then NotFoundScreen
    else ProfilePage(profile.value, GroupLinks(sections, links), |sections| == 0)
  }

  /** The loading check comes first: while loading, nothing else about the
      data matters. */
  lemma LoadingHidesData(p1: Option<Profile>, s1: seq<Section>, l1: seq<Link>, p2: Option<Profile>, s2: seq<Section>, l2: seq<Link>)
    ensures Render(true, p1, s1, l1) == Render(true, p2, s2, l2)
  {
  }

  /** On the profile page a link listed under two sections belongs to both,
      so it is listed under at most one section when the sections' ids are
      distinct. */
  lemma PageGroupsLinks(profile: Profile, sections: seq<Section>, links: seq<Link>, l: Link, j: int, k: int)
    requires 0 <= j < |sections| && 0 <= k < |sections|
    requires var r := Render(false, Some(profile), sections, links);
             l in r.groups[j].links && l in r.groups[k].links
    ensures sections[j].id == sections[k].id
  {
    LinkInAtMostOneGroup(sections, links, l, j, k);
  }
}
