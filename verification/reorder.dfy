/** Drag-to-reorder on the setlists page: dropping one setlist song on another
    moves the dragged song id to the target's index and sends the complete new
    order of song ids to the server. */
module Reorder {
  import opened Common
  import KeyedList
  import SetlistsApi

  /** `xs.splice(i, 0, x)` with `i <= |xs|`. */
  function InsertAt<T>(xs: seq<T>, i: nat, x: T): (r: seq<T>)
    requires i <= |xs|
    ensures |r| == |xs| + 1 && r[i] == x
    ensures forall k :: 0 <= k < i ==> r[k] == xs[k]
    ensures forall k :: i < k < |r| ==> r[k] == xs[k - 1]
  {
    xs[..i] + [x] + xs[i..]
  }

  /** `xs.splice(i, 1)` with `i < |xs|`. */
  function RemoveAt<T>(xs: seq<T>, i: nat): (r: seq<T>)
    requires i < |xs|
    ensures |r| == |xs| - 1
    ensures forall k :: 0 <= k < i ==> r[k] == xs[k]
    ensures forall k :: i <= k < |r| ==> r[k] == xs[k + 1]
  {
    xs[..i] + xs[i + 1..]
  }

  /** The two splice branches: dragging down removes first and then inserts at
      the target index; dragging up inserts first and then removes the old
      copy, now one place further on. The dragged id lands at the target
      index; dragging down shifts the ids after it, up to the target, one place
      towards the front; dragging up shifts the ids from the target up to the
      dragged one one place towards the back; nothing outside that range moves. */
  function MoveItem<T>(ids: seq<T>, dragged: nat, target: nat): (r: seq<T>)
    requires dragged < |ids| && target < |ids|
    ensures |r| == |ids|
    ensures r[target] == ids[dragged]
    ensures dragged < target ==> forall k :: dragged <= k < target ==> r[k] == ids[k + 1]
    ensures target < dragged ==> forall k :: target < k <= dragged ==> r[k] == ids[k - 1]
    ensures forall k :: 0 <= k < |ids| && k < dragged && k < target ==> r[k] == ids[k]
    ensures forall k :: 0 <= k < |ids| && k > dragged && k > target ==> r[k] == ids[k]
  {
    if dragged < target then InsertAt(RemoveAt(ids, dragged), target, ids[dragged])
    else RemoveAt(InsertAt(ids, target, ids[dragged]), dragged + 1)
  }

  // ---------------------------------------------------------------------------
  // Properties of MoveItem

  /** Every other id keeps its relative order: taking the moved id out of the
      new order gives the old order without it. */
  lemma MovePreservesOthers<T>(ids: seq<T>, d: nat, t: nat)
    requires d < |ids| && t < |ids|
    ensures RemoveAt(MoveItem(ids, d, t), t) == RemoveAt(ids, d)
  {
    var r := MoveItem(ids, d, t);
    assert forall k :: 0 <= k < |ids| - 1 ==> RemoveAt(r, t)[k] == RemoveAt(ids, d)[k];
  }

  lemma RemoveInsertMultiset<T>(xs: seq<T>, i: nat, x: T)
    requires i <= |xs|
    ensures multiset(InsertAt(xs, i, x)) == multiset(xs) + multiset{x}
  {
    assert xs == xs[..i] + xs[i..];
  }

  lemma RemoveAtMultiset<T>(xs: seq<T>, i: nat)
    requires i < |xs|
    ensures multiset(RemoveAt(xs, i)) == multiset(xs) - multiset{xs[i]}
  {
    assert xs == xs[..i] + [xs[i]] + xs[i + 1..];
  }

  /** The new order is a permutation of the old one. */
  lemma MoveIsPermutation<T>(ids: seq<T>, d: nat, t: nat)
    requires d < |ids| && t < |ids|
    ensures multiset(MoveItem(ids, d, t)) == multiset(ids)
  {
    if d < t {
      RemoveThenInsert(ids, d, t);
    } else {
      InsertThenRemove(ids, d, t);
    }
  }

  lemma RemoveThenInsert<T>(ids: seq<T>, d: nat, t: nat)
    requires d < |ids| && t < |ids|
    ensures multiset(InsertAt(RemoveAt(ids, d), t, ids[d])) == multiset(ids)
  {
    var x := ids[d];
    var rem := RemoveAt(ids, d);
    RemoveAtMultiset(ids, d);
    RemoveInsertMultiset(rem, t, x);
    AddBack(multiset(ids), x);
  }

  lemma InsertThenRemove<T>(ids: seq<T>, d: nat, t: nat)
    requires d < |ids| && t <= d
    ensures multiset(RemoveAt(InsertAt(ids, t, ids[d]), d + 1)) == multiset(ids)
  {
    var x := ids[d];
    var ins := InsertAt(ids, t, x);
    RemoveInsertMultiset(ids, t, x);
    assert ins[d + 1] == x;
    RemoveAtMultiset(ins, d + 1);
    TakeBack(multiset(ids), x);
  }

  lemma TakeBack<T>(m: multiset<T>, x: T)
    ensures (m + multiset{x}) - multiset{x} == m
  {
  }

  lemma AddBack<T>(m: multiset<T>, x: T)
    requires x in m
    ensures (m - multiset{x}) + multiset{x} == m
  {
  }

  // ---------------------------------------------------------------------------
  // The drop handler

  /** What a drop does: nothing, or ask the server to store a new order. */
  datatype Drop = NoChange | ReorderRequest(setlistId: string, order: seq<string>)

  function SongIds(s: SetlistsApi.Setlist): (ids: seq<string>)
    ensures |ids| == |s.songs|
    ensures forall i :: 0 <= i < |ids| ==> ids[i] == s.songs[i].songId
  {
    seq(|s.songs|, i requires 0 <= i < |s.songs| => s.songs[i].songId)
  }

  function SetlistId(s: SetlistsApi.Setlist): string { s.id }

  function Id(x: string): string { x }

  /** `handleDropOnSetlistSong`: `dragged` is the song id being dragged (none
      when no setlist song is being dragged). */
  function DropOnSetlistSong(setlists: seq<SetlistsApi.Setlist>, setlistId: string,
                             dragged: Option<string>, targetSongId: string): (r: Drop)
    ensures !Present(dragged) || dragged.value == targetSongId ==> r == NoChange
    ensures (forall i :: 0 <= i < |setlists| ==> setlists[i].id != setlistId) ==> r == NoChange
    ensures r.ReorderRequest? ==>
      var s := KeyedList.IndexOfKey(setlists, SetlistId, setlistId);
      var ids := SongIds(setlists[s]);
      && r.setlistId == setlistId
      && dragged.value in ids && targetSongId in ids
      && |r.order| == |ids|
      && r.order[KeyedList.IndexOfKey(ids, Id, targetSongId)] == dragged.value
  {
    if !Present(dragged) || dragged.value == targetSongId then NoChange
    else
      var s := KeyedList.IndexOfKey(setlists, SetlistId, setlistId);
      if s < 0 then NoChange
      else
        var ids := SongIds(setlists[s]);
        var d := KeyedList.IndexOfKey(ids, Id, dragged.value);
        var t := KeyedList.IndexOfKey(ids, Id, targetSongId);
        if d < 0 || t < 0 then NoChange
        else ReorderRequest(setlistId, MoveItem(ids, d, t))
  }

  /** When both ids are in the chosen setlist, the drop requests exactly the
      moved order, which is a permutation of the setlist's song ids. */
  lemma DropRequestsPermutation(setlists: seq<SetlistsApi.Setlist>, setlistId: string,
                                dragged: string, targetSongId: string)
    requires dragged != [] && dragged != targetSongId
    requires exists i :: 0 <= i < |setlists| && setlists[i].id == setlistId
    requires var ids := SongIds(setlists[KeyedList.IndexOfKey(setlists, SetlistId, setlistId)]);
      dragged in ids && targetSongId in ids
    ensures var r := DropOnSetlistSong(setlists, setlistId, Some(dragged), targetSongId);
      var ids := SongIds(setlists[KeyedList.IndexOfKey(setlists, SetlistId, setlistId)]);
      && r.ReorderRequest?
      && multiset(r.order) == multiset(ids)
      && RemoveAt(r.order, KeyedList.IndexOfKey(ids, Id, targetSongId))
         == RemoveAt(ids, KeyedList.IndexOfKey(ids, Id, dragged))
  {
    var s := KeyedList.IndexOfKey(setlists, SetlistId, setlistId);
    var i :| 0 <= i < |setlists| && setlists[i].id == setlistId;
    KeyedList.IndexOfPresentKey(setlists, SetlistId, setlistId, i);
    var ids := SongIds(setlists[s]);
    var kd :| 0 <= kd < |ids| && ids[kd] == dragged;
    var kt :| 0 <= kt < |ids| && ids[kt] == targetSongId;
    KeyedList.IndexOfPresentKey(ids, Id, dragged, kd);
    KeyedList.IndexOfPresentKey(ids, Id, targetSongId, kt);
    var d := KeyedList.IndexOfKey(ids, Id, dragged);
    var t := KeyedList.IndexOfKey(ids, Id, targetSongId);
    assert DropOnSetlistSong(setlists, setlistId, Some(dragged), targetSongId)
           == ReorderRequest(setlistId, MoveItem(ids, d, t));
    MoveIsPermutation(ids, d, t);
    MovePreservesOthers(ids, d, t);
  }
}
