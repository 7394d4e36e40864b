/**
  The owner's editor: the locally grouped sections, the drag state, the
  reorder of sections and of the links of one section, the positions new
  sections and links are inserted at, and the change-password form. The
  remote store is the log of writes the editor issues, in the order issued.
*/
module AdminDashboard {
  import opened Entities
  import opened Grouping
  import opened Reorder
  import opened PasswordChange

  function SectionIds(groups: seq<SectionGroup>): (ids: seq<Id>)
    ensures |ids| == |groups|
    ensures forall i :: 0 <= i < |groups| ==> ids[i] == groups[i].section.id
  {
    seq(|groups|, i requires 0 <= i < |groups| => groups[i].section.id)
  }

  function LinkIds(links: seq<Link>): (ids: seq<Id>)
    ensures |ids| == |links|
    ensures forall i :: 0 <= i < |links| ==> ids[i] == links[i].id
  {
    seq(|links|, i requires 0 <= i < |links| => links[i].id)
  }

  /** The first group of the local list whose section has the given id, if
      any, as the array `find` method gives it. */
  function FindSection(groups: seq<SectionGroup>, sectionId: Id): (r: Option<SectionGroup>)
    ensures r.None? <==> forall i :: 0 <= i < |groups| ==> groups[i].section.id != sectionId
    ensures r.Some? ==> exists i :: 0 <= i < |groups| && groups[i] == r.value && r.value.section.id == sectionId
                                   && forall j :: 0 <= j < i ==> groups[j].section.id != sectionId
  {
    if groups == [] then None
    else if groups[0].section.id == sectionId then Some(groups[0])
    else
      var r := FindSection(groups[1..], sectionId);
      assert forall i :: 1 <= i < |groups| ==> groups[i] == groups[1..][i - 1];
      assert r.Some? ==> exists i :: 0 <= i < |groups[1..]| && groups[1..][i] == r.value
                                   && forall j :: 0 <= j < i ==> groups[1..][j].section.id != sectionId;
      r
  }

  /** The position writes a section drop issues: none for a drop onto itself,
      otherwise one per section of the spliced list, to the sections table,
      at positions 0, 1, 2, ... in order. */
  function SectionDropWrites(groups: seq<SectionGroup>, dragged: Section, target: Section): (w: seq<StoreWrite>)
    ensures dragged.id == target.id ==> w == []
    ensures dragged.id != target.id ==> |w| == if groups == [] then 1 else |groups|
    ensures forall i :: 0 <= i < |w| ==> w[i].SetPosition? && w[i].table == SectionsTable && w[i].position == i
    ensures dragged.id != target.id && target.id in SectionIds(groups) ==>
              w[FindIndex(SectionIds(groups), target.id)] == SetPosition(SectionsTable, dragged.id, FindIndex(SectionIds(groups), target.id))
  {
    if dragged.id == target.id then []
    else PositionWrites(SectionsTable, Reordered(SectionIds(groups), dragged.id, target.id))
  }

  /** The position writes a link drop issues, or None when it fails with an
      exception: the dragged link's section is not in the local list, so
      `find` yields `undefined` and reading its `links` throws. */
  function LinkDropWrites(groups: seq<SectionGroup>, dragged: Link, target: Link): (w: Option<seq<StoreWrite>>)
    ensures dragged.id == target.id || dragged.sectionId != target.sectionId ==> w == Some([])
    ensures w.None? <==> dragged.id != target.id && dragged.sectionId == target.sectionId
                         && forall i :: 0 <= i < |groups| ==> groups[i].section.id != dragged.sectionId
    ensures w.Some? ==> forall i :: 0 <= i < |w.value| ==>
              w.value[i].SetPosition? && w.value[i].table == LinksTable && w.value[i].position == i
  {
    if dragged.id == target.id then Some([])
    else if dragged.sectionId != target.sectionId then Some([])
    else match FindSection(groups, dragged.sectionId)
      case None => None
      case Some(g) => Some(PositionWrites(LinksTable, Reordered(LinkIds(g.links), dragged.id, target.id)))
  }

  /** The writes of a drop whose type matches the dragged item's: a section
      drop never throws, a link drop throws only when its section is missing,
      and a drop onto the item itself writes nothing. */
  function DropWrites(groups: seq<SectionGroup>, dragged: DragItem, target: DragItem): (w: Option<seq<StoreWrite>>)
    requires KindOf(dragged) == KindOf(target)
    ensures target.SectionItem? ==> w.Some?
    ensures w.None? ==> target.LinkItem? && forall i :: 0 <= i < |groups| ==> groups[i].section.id != dragged.link.sectionId
    ensures dragged == target ==> w == Some([])
  {
    if target.SectionItem? then Some(SectionDropWrites(groups, dragged.section, target.section))
    else LinkDropWrites(groups, dragged.link, target.link)
  }

  /** The number of links of the first group with the given section id, or 0
      when no group has that id. */
  function NewLinkPosition(groups: seq<SectionGroup>, sectionId: Id): (p: nat)
    ensures (forall i :: 0 <= i < |groups| ==> groups[i].section.id != sectionId) ==> p == 0
    ensures forall i :: (0 <= i < |groups| && groups[i].section.id == sectionId
                         && forall j :: 0 <= j < i ==> groups[j].section.id != sectionId) ==> p == |groups[i].links|
  {
    match FindSection(groups, sectionId)
    case Some(g) => |g.links|
    case None => 0
  }

  /** A section drop (not onto itself, both sections in the local list with
      distinct ids) issues exactly one write per section, positions 0..n-1 in
      ascending order, and once all land the sections hold a dense
      permutation of 0..n-1. */
  lemma SectionDropDense(groups: seq<SectionGroup>, dragged: Section, target: Section, positions: map<Id, int>)
    requires Distinct(SectionIds(groups))
    requires dragged.id in SectionIds(groups) && target.id in SectionIds(groups) && dragged.id != target.id
    ensures var w := SectionDropWrites(groups, dragged, target);
            var after := ApplyPositions(positions, SectionsTable, w);
            && |w| == |groups|
            && (forall i :: 0 <= i < |w| ==> w[i].SetPosition? && w[i].table == SectionsTable && w[i].position == i)
            && (forall x :: x in SectionIds(groups) ==> x in after && 0 <= after[x] < |groups|)
            && (forall x, y :: x in SectionIds(groups) && y in SectionIds(groups) && after[x] == after[y] ==> x == y)
  {
    ReorderedIsPermutation(SectionIds(groups), dragged.id, target.id);
    ReorderPositionsDense(positions, SectionsTable, SectionIds(groups), dragged.id, target.id);
  }

  /** The same for a link drop within one section: the links of the section are
      written positions forming a dense permutation of 0..n-1. */
  lemma LinkDropDense(groups: seq<SectionGroup>, dragged: Link, target: Link, positions: map<Id, int>)
    requires dragged.id != target.id && dragged.sectionId == target.sectionId
    requires FindSection(groups, dragged.sectionId).Some?
    requires var ids := LinkIds(FindSection(groups, dragged.sectionId).value.links);
             Distinct(ids) && dragged.id in ids && target.id in ids
    ensures var ids := LinkIds(FindSection(groups, dragged.sectionId).value.links);
            && LinkDropWrites(groups, dragged, target).Some?
            && var w := LinkDropWrites(groups, dragged, target).value;
            var after := ApplyPositions(positions, LinksTable, w);
            && |w| == |ids|
            && (forall i :: 0 <= i < |w| ==> w[i].SetPosition? && w[i].table == LinksTable && w[i].position == i)
            && (forall x :: x in ids ==> x in after && 0 <= after[x] < |ids|)
            && (forall x, y :: x in ids && y in ids && after[x] == after[y] ==> x == y)
  {
    var ids := LinkIds(FindSection(groups, dragged.sectionId).value.links);
    ReorderedIsPermutation(ids, dragged.id, target.id);
    ReorderPositionsDense(positions, LinksTable, ids, dragged.id, target.id);
  }

  /** After the grouping effect, the section a new link is added to is found
      exactly when some section has that id, and the new link's position is
      the number of links of that section: it goes at the end. */
  lemma {:induction false} NewLinkPositionAfterSync(sections: seq<Section>, links: seq<Link>, sectionId: Id)
    ensures var groups := GroupLinks(sections, links);
            && (FindSection(groups, sectionId).Some? <==> exists k :: 0 <= k < |sections| && sections[k].id == sectionId)
            && NewLinkPosition(groups, sectionId)
               == if FindSection(groups, sectionId).Some? then |LinksOf(links, sectionId)| else 0
  {
    var groups := GroupLinks(sections, links);
    if FindSection(groups, sectionId).Some? {
      var i :| 0 <= i < |groups| && groups[i] == FindSection(groups, sectionId).value && groups[i].section.id == sectionId;
      assert sections[i].id == sectionId;
    } else {
      forall k | 0 <= k < |sections| ensures sections[k].id != sectionId {
        assert groups[k].section == sections[k];
      }
    }
  }

  class Dashboard {
    const username: string
    var sectionsData: seq<SectionGroup>
    var passwordData: PasswordForm
    var passwordMessage: string
    var draggedItem: Option<DragItem>
    var draggedType: Option<Kind>
    var log: seq<StoreWrite>

    /** The dragged item and its type tag are set and cleared together. */
    predicate Valid()
      reads this
    {
      draggedType == if draggedItem.Some? then Some(KindOf(draggedItem.value)) else None
    }

    constructor (username: string)
      ensures Valid()
      ensures this.username == username && sectionsData == [] && passwordData == EmptyForm
      ensures passwordMessage == "" && draggedItem == None && log == []
    {
      this.username := username;
      sectionsData := [];
      passwordData := EmptyForm;
      passwordMessage := "";
      draggedItem := None;
      draggedType := None;
      log := [];
    }

    /** The grouping effect: every section paired with its links. */
    method SyncSections(sections: seq<Section>, links: seq<Link>)
      modifies this`sectionsData
      ensures sectionsData == GroupLinks(sections, links)
    {
      if |sections| > 0 {
        sectionsData := GroupLinks(sections, links);
      } else {
        sectionsData := [];
      }
    }

    method DragStart(item: DragItem)
      modifies this`draggedItem, this`draggedType
      ensures Valid() && draggedItem == Some(item) && draggedType == Some(KindOf(item))
    {
      draggedItem := Some(item);
      draggedType := Some(KindOf(item));
    }

    /** A drop onto `target`: ignored unless an item of the same type is being
        dragged; otherwise the reorder runs and the drag state is cleared,
        unless the reorder threw. */
    method HandleDrop(target: DragItem)
      requires Valid()
      modifies this`log, this`draggedItem, this`draggedType
      ensures Valid()
      ensures old(draggedItem).None? || old(draggedType) != Some(KindOf(target)) ==>
                log == old(log) && draggedItem == old(draggedItem) && draggedType == old(draggedType)
      ensures old(draggedItem).Some? && old(draggedType) == Some(KindOf(target)) ==>
                match DropWrites(sectionsData, old(draggedItem).value, target)
                case None => log == old(log) && draggedItem == old(draggedItem) && draggedType == old(draggedType)
                case Some(w) => log == old(log) + w && draggedItem == None && draggedType == None
    {
      if draggedItem.None? || draggedType != Some(KindOf(target)) {
        return;
      }
      var dragged := draggedItem.value;
      if target.SectionItem? {
        ReorderSections(dragged.section, target.section);
      } else {
        var completed := ReorderLinks(dragged.link, target.link);
        if !completed {
          return;
        }
      }
      draggedItem := None;
      draggedType := None;
    }

    /** One awaited write per element, in list order. A failed write is
        swallowed by the update helper, so every write is issued. */
    method WritePositions(table: Table, ids: seq<Id>)
      modifies this`log
      ensures log == old(log) + PositionWrites(table, ids)
    {
      for i := 0 to |ids|
        invariant log == old(log) + PositionWrites(table, ids[..i])
      {
        assert PositionWrites(table, ids[..i + 1]) == PositionWrites(table, ids[..i]) + [SetPosition(table, ids[i], i)];
        log := log + [SetPosition(table, ids[i], i)];
      }
      assert ids[..|ids|] == ids;
    }

    method ReorderSections(dragged: Section, target: Section)
      modifies this`log
      ensures log == old(log) + SectionDropWrites(sectionsData, dragged, target)
    {
      if dragged.id == target.id {
        return;
      }
      var sorted := SectionIds(sectionsData);
      var draggedIndex := FindIndex(sorted, dragged.id);
      var targetIndex := FindIndex(sorted, target.id);
      sorted := SpliceRemove(sorted, draggedIndex);
      sorted := SpliceInsert(sorted, targetIndex, dragged.id);
      WritePositions(SectionsTable, sorted);
    }

    /** Returns false when the reorder throws (the dragged link's section is
        not in the local list); no write is issued then. */
    method ReorderLinks(dragged: Link, target: Link) returns (completed: bool)
      modifies this`log
      ensures completed == LinkDropWrites(sectionsData, dragged, target).Some?
      ensures log == old(log) + if completed then LinkDropWrites(sectionsData, dragged, target).value else []
    {
      if dragged.id == target.id {
        return true;
      }
      if dragged.sectionId != target.sectionId {
        return true;
      }
      var section := FindSection(sectionsData, dragged.sectionId);
      if section.None? {
        return false;
      }
      var sectionLinks := LinkIds(section.value.links);
      var draggedIndex := FindIndex(sectionLinks, dragged.id);
      var targetIndex := FindIndex(sectionLinks, target.id);
      sectionLinks := SpliceRemove(sectionLinks, draggedIndex);
      sectionLinks := SpliceInsert(sectionLinks, targetIndex, dragged.id);
      WritePositions(LinksTable, sectionLinks);
      return true;
    }

    /** A new section goes after the sections known locally. */
    method AddSection(profile: Profile)
      modifies this`log
      ensures log == old(log) + [InsertSection(profile.id, "New Section", |sectionsData|)]
    {
      log := log + [InsertSection(profile.id, "New Section", |sectionsData|)];
    }

    /** A new link goes after the links of its section. */
    method AddLink(sectionId: Id)
      modifies this`log
      ensures log == old(log) + [InsertLink(sectionId, "New Link", "https://example.com", NewLinkPosition(sectionsData, sectionId))]
    {
      var section := FindSection(sectionsData, sectionId);
      var position := if section.Some? then |section.value.links| else 0;
      log := log + [InsertLink(sectionId, "New Link", "https://example.com", position)];
    }

    /** Typing into one field of the change-password form replaces that field
        and keeps the other two. */
    method EditCurrentPassword(value: string)
      modifies this`passwordData
      ensures passwordData == old(passwordData).(currentPassword := value)
    {
      passwordData := passwordData.(currentPassword := value);
    }

    method EditNewPassword(value: string)
      modifies this`passwordData
      ensures passwordData == old(passwordData).(newPassword := value)
    {
      passwordData := passwordData.(newPassword := value);
    }

    method EditConfirmPassword(value: string)
      modifies this`passwordData
      ensures passwordData == old(passwordData).(confirmPassword := value)
    {
      passwordData := passwordData.(confirmPassword := value);
    }

    /** A submission of the change-password form; `stored` is the answer of the
        lookup of the stored password and `updateOk` that of the update. */
    method HandlePasswordChange(stored: Fetched<string>, updateOk: bool)
      modifies this`passwordMessage, this`passwordData, this`log
      ensures var o := Decide(old(passwordData), stored, updateOk);
              && passwordMessage == Message(o)
              && log == old(log) + (if IssuesUpdate(o) then [SetAdminPassword(username, old(passwordData).newPassword)] else [])
              && passwordData == if o == Changed then EmptyForm else old(passwordData)
    {
      passwordMessage := "";
      if passwordData.newPassword != passwordData.confirmPassword {
        passwordMessage := Message(Mismatch);
        return;
      }
      if |passwordData.newPassword| < MinPasswordLength {
        passwordMessage := Message(TooShort);
        return;
      }
      if stored.FetchError? {
        passwordMessage := Message(FetchFailed);
        return;
      }
      if stored.value != passwordData.currentPassword {
        passwordMessage := Message(WrongCurrent);
        return;
      }
      log := log + [SetAdminPassword(username, passwordData.newPassword)];
      if !updateOk {
        passwordMessage := Message(UpdateFailed);
        return;
      }
      passwordMessage := Message(Changed);
      passwordData := EmptyForm;
    }
  }
}
