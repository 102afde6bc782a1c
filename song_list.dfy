/**
 * The song list's drag handler. It asks the store for `reorderSongs`, an
 * action the store neither declares nor defines, so a drop onto another
 * song calls `undefined` and throws before anything changes.
 */
module SongList {
  import opened Wrappers
  import opened Types
  import opened SequenceEditor

  /**
   * `handleDragEnd`: the indices the handler passes to `reorderSongs`, or
   * None when it calls nothing (no drop target, dropped on itself, or either
   * id not in the list).
   */
  function SongDragEnd(songs: seq<Song>, ev: DragEvent): (r: Option<(nat, nat)>)
    ensures r.Some? <==>
      ev.over.Some? && ev.active != ev.over.value &&
      ev.active in SongIds(songs) && ev.over.value in SongIds(songs)
    ensures r.Some? ==>
      r.value.0 < |songs| && r.value.1 < |songs| && r.value.0 != r.value.1 &&
      songs[r.value.0].id == ev.active && songs[r.value.1].id == ev.over.value
  {
    if ev.over.Some? && ev.active != ev.over.value then
      var ids := SongIds(songs);
      var from, to := FindIndex(ids, ev.active), FindIndex(ids, ev.over.value);
      if from != -1 && to != -1 then Some((from as nat, to as nat)) else None
    else None
  }

  /** What a drop does as the code stands. */
  datatype DropOutcome = NothingCalled | CalledUndefined

  /** The handler as written: whenever it decides to reorder, the call throws. */
  function SongDropAsWritten(songs: seq<Song>, ev: DragEvent): (r: DropOutcome)
    ensures r == CalledUndefined <==> SongDragEnd(songs, ev).Some?
  {
    if SongDragEnd(songs, ev).Some? then CalledUndefined else NothingCalled
  }

  /** Dropping any listed song onto another listed song throws; the list never changes. */
  lemma EveryRealDropThrows(songs: seq<Song>, from: nat, to: nat)
    requires from < |songs| && to < |songs| && songs[from].id != songs[to].id
    ensures SongDropAsWritten(songs, DragEvent(songs[from].id, Some(songs[to].id))) == CalledUndefined
  {
    assert songs[from].id == SongIds(songs)[from] && songs[to].id == SongIds(songs)[to];
  }

  /** Without a drop target, on a drop onto itself, or with an id not in the list, nothing is called. */
  lemma OtherDropsCallNothing(songs: seq<Song>, ev: DragEvent)
    requires ev.over.None? || ev.over.value == ev.active ||
             ev.active !in SongIds(songs) || ev.over.value !in SongIds(songs)
    ensures SongDropAsWritten(songs, ev) == NothingCalled
  {
  }
}
