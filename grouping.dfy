/**
  Grouping of links under sections: each section is shown with the links whose
  section id is its id, in the order the links were delivered.
*/
module Grouping {
  import opened Entities

  /** The links that belong to section `sectionId`, in their original order. */
  function LinksOf(links: seq<Link>, sectionId: Id): (r: seq<Link>)
    ensures |r| <= |links|
    ensures forall i :: 0 <= i < |r| ==> r[i] in links && r[i].sectionId == sectionId
    ensures forall i :: 0 <= i < |links| && links[i].sectionId == sectionId ==> links[i] in r
  {
    if links == [] then []
    else if links[0].sectionId == sectionId then [links[0]] + LinksOf(links[1..], sectionId)
    else LinksOf(links[1..], sectionId)
  }

  /** Filtering commutes with concatenation: the filter keeps the relative
      order of the links it retains. */
  lemma {:induction false} LinksOfConcat(a: seq<Link>, b: seq<Link>, sectionId: Id)
    ensures LinksOf(a + b, sectionId) == LinksOf(a, sectionId) + LinksOf(b, sectionId)
  {
    if a == [] {
      assert a + b == b;
    } else {
      assert (a + b)[1..] == a[1..] + b;
      LinksOfConcat(a[1..], b, sectionId);
    }
  }

  /** A link list all of whose links are in the section is kept whole, and one
      with none of them is dropped whole. */
  lemma {:induction false} LinksOfExtremes(links: seq<Link>, sectionId: Id)
    ensures (forall i :: 0 <= i < |links| ==> links[i].sectionId == sectionId) ==> LinksOf(links, sectionId) == links
    ensures (forall i :: 0 <= i < |links| ==> links[i].sectionId != sectionId) ==> LinksOf(links, sectionId) == []
  {
    if links != [] {
      LinksOfExtremes(links[1..], sectionId);
      assert forall i :: 1 <= i < |links| ==> links[1..][i - 1] == links[i];
    }
  }

  /** A link of the section appears under it at the index given by the number
      of links of the section delivered before it. */
  lemma LinksOfPosition(links: seq<Link>, sectionId: Id, i: int)
    requires 0 <= i < |links| && links[i].sectionId == sectionId
    ensures |LinksOf(links[..i], sectionId)| < |LinksOf(links, sectionId)|
    ensures LinksOf(links, sectionId)[|LinksOf(links[..i], sectionId)|] == links[i]
  {
    var front, back := links[..i], links[i..];
    assert links == front + back;
    LinksOfConcat(front, back, sectionId);
    assert back == [links[i]] + back[1..];
    assert LinksOf(back, sectionId) == [links[i]] + LinksOf(back[1..], sectionId);
  }

  /** Two links of the same section keep their order: if link `i` is delivered
      before link `j`, it is listed before it under the section. */
  lemma LinksOfKeepsOrder(links: seq<Link>, sectionId: Id, i: int, j: int)
    requires 0 <= i < j < |links|
    requires links[i].sectionId == sectionId && links[j].sectionId == sectionId
    ensures |LinksOf(links[..i], sectionId)| < |LinksOf(links[..j], sectionId)| < |LinksOf(links, sectionId)|
    ensures LinksOf(links, sectionId)[|LinksOf(links[..i], sectionId)|] == links[i]
    ensures LinksOf(links, sectionId)[|LinksOf(links[..j], sectionId)|] == links[j]
  {
    LinksOfPosition(links, sectionId, i);
    LinksOfPosition(links, sectionId, j);
    var middle := links[i..j];
    assert links[..j] == links[..i] + middle;
    LinksOfConcat(links[..i], middle, sectionId);
    assert middle == [links[i]] + middle[1..];
    assert LinksOf(middle, sectionId) == [links[i]] + LinksOf(middle[1..], sectionId);
  }

  /** Every section paired with its links, in the order of the sections. */
  function GroupLinks(sections: seq<Section>, links: seq<Link>): (r: seq<SectionGroup>)
    ensures |r| == |sections|
    ensures forall k :: 0 <= k < |r| ==> r[k].section == sections[k]
    ensures forall k, l :: 0 <= k < |r| ==> (l in r[k].links <==> l in links && l.sectionId == sections[k].id)
  {
    seq(|sections|, k requires 0 <= k < |sections| => SectionGroup(sections[k], LinksOf(links, sections[k].id)))
  }

  /** A link is shown under two sections only if the two have the same id; with
      distinct section ids it is shown under at most one. */
  lemma LinkInAtMostOneGroup(sections: seq<Section>, links: seq<Link>, l: Link, j: int, k: int)
    requires 0 <= j < |sections| && 0 <= k < |sections|
    requires l in GroupLinks(sections, links)[j].links && l in GroupLinks(sections, links)[k].links
    ensures sections[j].id == sections[k].id
  {
  }
}
