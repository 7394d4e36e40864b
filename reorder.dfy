/**
  Ordered-list reconciliation after a drag gesture: the list of ids is
  spliced (the dragged id is taken out and put back at the index the target
  had before the removal) and one position write per element is issued, in
  list order. The array primitives follow JavaScript's `findIndex` (-1 when
  absent) and `splice` (a negative start counts from the end).
*/
module Reorder {
  import opened Entities

  /** Index of the first occurrence of `x` in `s`, or -1 (`Array.prototype.findIndex`). */
  function FindIndex(s: seq<Id>, x: Id): (r: int)
    ensures -1 <= r < |s|
    ensures r == -1 <==> x !in s
    ensures 0 <= r ==> s[r] == x && x !in s[..r]
  {
    if s == [] then -1
    else if s[0] == x then 0
    else
      var k := FindIndex(s[1..], x);
      assert s[1..][..if k < 0 then 0 else k] == s[1..if k < 0 then 1 else k + 1];
      if k == -1 then -1 else k + 1
  }

  /** The index `splice` starts at for a `start` argument on a list of length `len`. */
  function SpliceStart(start: int, len: nat): (k: nat)
    ensures k <= len
    ensures 0 <= start <= len ==> k == start
    ensures start < 0 && len + start >= 0 ==> k == len + start
    ensures len + start < 0 ==> k == 0
    ensures start > len ==> k == len
  {
    if start < 0 then (if len + start < 0 then 0 else len + start)
    else if start > len then len
    else start
  }

  /** `s.splice(start, 1)`: removes the element at the start index, if there is one. */
  function SpliceRemove(s: seq<Id>, start: int): (r: seq<Id>)
    ensures SpliceStart(start, |s|) < |s| ==> |r| == |s| - 1 && multiset(r) + multiset{s[SpliceStart(start, |s|)]} == multiset(s)
    ensures SpliceStart(start, |s|) == |s| ==> r == s
    ensures forall i :: 0 <= i < SpliceStart(start, |s|) && i < |r| ==> r[i] == s[i]
    ensures forall i :: SpliceStart(start, |s|) <= i < |r| ==> r[i] == s[i + 1]
  {
    var k := SpliceStart(start, |s|);
    if k < |s| then
      assert s == s[..k] + [s[k]] + s[k + 1..];
      s[..k] + s[k + 1..]
    else s
  }

  /** `s.splice(start, 0, x)`: inserts `x` at the start index. */
  function SpliceInsert(s: seq<Id>, start: int, x: Id): (r: seq<Id>)
    ensures |r| == |s| + 1 && multiset(r) == multiset(s) + multiset{x}
    ensures r[SpliceStart(start, |s|)] == x
    ensures forall i :: 0 <= i < SpliceStart(start, |s|) ==> r[i] == s[i]
    ensures forall i :: SpliceStart(start, |s|) < i < |r| ==> r[i] == s[i - 1]
  {
    var k := SpliceStart(start, |s|);
    assert s == s[..k] + s[k..];
    s[..k] + [x] + s[k..]
  }

  /** The list after dragging `dragged` onto `target`: both indices are looked
      up in the list as it was, the dragged id is removed, then inserted at
      the target's former index. The result is as long as the list (or holds
      just the dragged id when the list is empty), contains the dragged id, and
      has it at the target's former index when the target is in the list. */
  function Reordered(ids: seq<Id>, dragged: Id, target: Id): (r: seq<Id>)
    ensures |r| == if ids == [] then 1 else |ids|
    ensures dragged in r
    ensures target in ids ==> r[FindIndex(ids, target)] == dragged
  {
    var draggedIndex := FindIndex(ids, dragged);
    var targetIndex := FindIndex(ids, target);
    SpliceInsert(SpliceRemove(ids, draggedIndex), targetIndex, dragged)
  }

  /** One position write per element, `(ids[i], i)`, in list order. */
  function PositionWrites(table: Table, ids: seq<Id>): (w: seq<StoreWrite>)
    ensures |w| == |ids|
    ensures forall i :: 0 <= i < |ids| ==> w[i] == SetPosition(table, ids[i], i)
  {
    seq(|ids|, i requires 0 <= i < |ids| => SetPosition(table, ids[i], i))
  }

  /** The positions a table holds after a sequence of writes has been applied
      in order, the last write to a row winning. Other writes leave the
      table's positions alone. Every row keeps a position, and the last write
      to the table decides its row's position. */
  function ApplyPositions(positions: map<Id, int>, table: Table, writes: seq<StoreWrite>): (after: map<Id, int>)
    ensures positions.Keys <= after.Keys
    ensures writes != [] && writes[|writes| - 1].SetPosition? && writes[|writes| - 1].table == table ==>
              writes[|writes| - 1].id in after && after[writes[|writes| - 1].id] == writes[|writes| - 1].position
    decreases |writes|
  {
    if writes == [] then positions
    else
      var before := ApplyPositions(positions, table, writes[..|writes| - 1]);
      match writes[|writes| - 1]
      case SetPosition(t, id, p) => if t == table then before[id := p] else before
      case _ => before
  }

  predicate Distinct(s: seq<Id>)
  {
    forall i, j :: 0 <= i < j < |s| ==> s[i] != s[j]
  }

  lemma {:induction false} DistinctCounts(s: seq<Id>)
    ensures Distinct(s) <==> forall x :: multiset(s)[x] <= 1
  {
    if s == [] {
    } else {
      var rest := s[1..];
      assert s == [s[0]] + rest;
      DistinctCounts(rest);
      if Distinct(s) {
        assert Distinct(rest) by {
          forall i, j | 0 <= i < j < |rest| ensures rest[i] != rest[j] {
            assert rest[i] == s[i + 1] && rest[j] == s[j + 1];
          }
        }
        assert s[0] !in rest by {
          forall i | 0 <= i < |rest| ensures rest[i] != s[0] {
            assert rest[i] == s[i + 1];
          }
        }
      }
      if forall x :: multiset(s)[x] <= 1 {
        assert forall x :: multiset(rest)[x] <= 1 by {
          forall x ensures multiset(rest)[x] <= 1 {
            assert multiset(s)[x] == multiset(rest)[x] + (if x == s[0] then 1 else 0);
          }
        }
        assert multiset(rest)[s[0]] == 0 by {
          assert multiset(s)[s[0]] == multiset(rest)[s[0]] + 1;
        }
        forall i, j | 0 <= i < j < |s| ensures s[i] != s[j] {
          if i == 0 {
            assert s[j] == rest[j - 1];
            assert s[j] in rest;
          } else {
            assert s[i] == rest[i - 1] && s[j] == rest[j - 1];
          }
        }
      }
    }
  }

  /** A rearrangement of a list without repeated ids has none either. */
  lemma DistinctPermutation(s: seq<Id>, t: seq<Id>)
    requires Distinct(s) && multiset(s) == multiset(t)
    ensures Distinct(t)
  {
    DistinctCounts(s);
    DistinctCounts(t);
  }

  /** The reorder keeps every element: it is a permutation of the input when
      both ids are in the list. */
  lemma ReorderedIsPermutation(ids: seq<Id>, dragged: Id, target: Id)
    requires dragged in ids && target in ids
    ensures |Reordered(ids, dragged, target)| == |ids|
    ensures multiset(Reordered(ids, dragged, target)) == multiset(ids)
  {
    var removed := SpliceRemove(ids, FindIndex(ids, dragged));
    assert multiset(removed) + multiset{dragged} == multiset(ids);
  }

  /** Without repeated ids, the reordered list has none either; so the dragged
      id occurs in it exactly once. */
  lemma ReorderedDistinct(ids: seq<Id>, dragged: Id, target: Id)
    requires Distinct(ids) && dragged in ids && target in ids
    ensures Distinct(Reordered(ids, dragged, target))
    ensures multiset(Reordered(ids, dragged, target))[dragged] == 1
  {
    ReorderedIsPermutation(ids, dragged, target);
    DistinctPermutation(ids, Reordered(ids, dragged, target));
    DistinctCounts(ids);
  }

  lemma FindIndexDistinct(ids: seq<Id>, i: int)
    requires Distinct(ids) && 0 <= i < |ids|
    ensures FindIndex(ids, ids[i]) == i
  {
    assert ids[i] in ids;
  }

  /** Dragging a later item onto an earlier one: the dragged item takes the
      target's index, the target and everything up to the dragged item's old
      place move one right, the rest stays. */
  lemma LaterOntoEarlier(ids: seq<Id>, draggedIndex: int, targetIndex: int)
    requires Distinct(ids) && 0 <= targetIndex < draggedIndex < |ids|
    ensures Reordered(ids, ids[draggedIndex], ids[targetIndex])
         == ids[..targetIndex] + [ids[draggedIndex]] + ids[targetIndex..draggedIndex] + ids[draggedIndex + 1..]
  {
    FindIndexDistinct(ids, draggedIndex);
    FindIndexDistinct(ids, targetIndex);
    var r := Reordered(ids, ids[draggedIndex], ids[targetIndex]);
    var e := ids[..targetIndex] + [ids[draggedIndex]] + ids[targetIndex..draggedIndex] + ids[draggedIndex + 1..];
    assert |r| == |e|;
    forall i | 0 <= i < |r| ensures r[i] == e[i] {
      if i < targetIndex {
      } else if i == targetIndex {
      } else if i <= draggedIndex {
        assert e[i] == ids[i - 1];
      } else {
        assert e[i] == ids[i];
      }
    }
  }

  /** Dragging an earlier item onto a later one: the items after it up to and
      including the target move one left and the dragged item lands at the
      target's old index, just after the target; the rest stays. */
  lemma EarlierOntoLater(ids: seq<Id>, draggedIndex: int, targetIndex: int)
    requires Distinct(ids) && 0 <= draggedIndex < targetIndex < |ids|
    ensures Reordered(ids, ids[draggedIndex], ids[targetIndex])
         == ids[..draggedIndex] + ids[draggedIndex + 1..targetIndex + 1] + [ids[draggedIndex]] + ids[targetIndex + 1..]
  {
    FindIndexDistinct(ids, draggedIndex);
    FindIndexDistinct(ids, targetIndex);
    var removed := SpliceRemove(ids, draggedIndex);
    var r := SpliceInsert(removed, targetIndex, ids[draggedIndex]);
    assert SpliceStart(targetIndex, |removed|) == targetIndex;
    assert r == Reordered(ids, ids[draggedIndex], ids[targetIndex]);
    var e := ids[..draggedIndex] + ids[draggedIndex + 1..targetIndex + 1] + [ids[draggedIndex]] + ids[targetIndex + 1..];
    assert |r| == |e|;
    forall i | 0 <= i < |r| ensures r[i] == e[i] {
      if i < draggedIndex {
      } else if i < targetIndex {
        assert e[i] == ids[i + 1];
      } else if i == targetIndex {
      } else {
        assert e[i] == ids[i];
      }
    }
  }

  lemma FourSlices(s: seq<Id>)
    requires |s| == 4
    ensures s[..1] + [s[3]] + s[1..3] + s[4..] == [s[0], s[3], s[1], s[2]]
    ensures s[..0] + s[1..4] + [s[0]] + s[4..] == [s[1], s[2], s[3], s[0]]
  {
  }

  /** The two worked examples, on a list [A, B, C, D] of four distinct ids:
      D onto B gives [A, D, B, C] and A onto D gives [B, C, D, A]. */
  lemma ReorderExamples(s: seq<Id>)
    requires Distinct(s) && |s| == 4
    ensures Reordered(s, s[3], s[1]) == [s[0], s[3], s[1], s[2]]
    ensures Reordered(s, s[0], s[3]) == [s[1], s[2], s[3], s[0]]
  {
    LaterOntoEarlier(s, 3, 1);
    EarlierOntoLater(s, 0, 3);
    FourSlices(s);
  }

  /** When the dragged id is no longer in the list, `findIndex` gives -1 and
      `splice(-1, 1)` removes the LAST element instead; that element gets no
      position write and the dragged id gets one. */
  lemma StaleDraggedDropsLast(ids: seq<Id>, dragged: Id, target: Id)
    requires dragged !in ids && target in ids
    ensures |Reordered(ids, dragged, target)| == |ids|
    ensures multiset(Reordered(ids, dragged, target)) == multiset(ids[..|ids| - 1]) + multiset{dragged}
  {
    var removed := SpliceRemove(ids, -1);
    assert removed == ids[..|ids| - 1];
  }

  /** Applying the position writes of a list without repeated ids leaves the
      row of `ids[i]` at position `i` and every other row as it was. */
  lemma {:induction false} ApplyPositionWrites(positions: map<Id, int>, table: Table, ids: seq<Id>)
    requires Distinct(ids)
    ensures forall i :: 0 <= i < |ids| ==>
              (ids[i] in ApplyPositions(positions, table, PositionWrites(table, ids))
               && ApplyPositions(positions, table, PositionWrites(table, ids))[ids[i]] == i)
    ensures forall x :: x !in ids ==> (x in ApplyPositions(positions, table, PositionWrites(table, ids)) <==> x in positions)
    ensures forall x :: x !in ids && x in positions ==> ApplyPositions(positions, table, PositionWrites(table, ids))[x] == positions[x]
  {
    if ids != [] {
      var n := |ids| - 1;
      var front := ids[..n];
      assert Distinct(front);
      assert PositionWrites(table, ids)[..n] == PositionWrites(table, front);
      ApplyPositionWrites(positions, table, front);
      forall i | 0 <= i < n ensures ids[i] != ids[n] && ids[i] == front[i] { }
      assert forall x :: x in front ==> x in ids && x != ids[n];
    }
  }

  /** The reconciliation invariant: after a reorder whose writes all land, the
      rows of the scope hold positions forming exactly 0..n-1, one per row,
      in the order of the reordered list. */
  lemma ReorderPositionsDense(positions: map<Id, int>, table: Table, ids: seq<Id>, dragged: Id, target: Id)
    requires Distinct(ids) && dragged in ids && target in ids
    ensures var r := Reordered(ids, dragged, target);
            var after := ApplyPositions(positions, table, PositionWrites(table, r));
            && (forall i :: 0 <= i < |r| ==> r[i] in after && after[r[i]] == i)
            && (forall x :: x in ids ==> x in after && 0 <= after[x] < |ids|)
            && (forall x, y :: x in ids && y in ids && after[x] == after[y] ==> x == y)
  {
    var r := Reordered(ids, dragged, target);
    ReorderedDistinct(ids, dragged, target);
    ReorderedIsPermutation(ids, dragged, target);
    ApplyPositionWrites(positions, table, r);
    var after := ApplyPositions(positions, table, PositionWrites(table, r));
    forall x | x in ids ensures x in r && x in after && 0 <= after[x] < |ids| {
      assert x in multiset(ids);
      var i := FindIndex(r, x);
      assert after[r[i]] == i;
    }
    forall x, y | x in ids && y in ids && after[x] == after[y] ensures x == y {
      assert x in multiset(r) && y in multiset(r);
      var i, j := FindIndex(r, x), FindIndex(r, y);
      assert after[r[i]] == i && after[r[j]] == j;
    }
  }
}
