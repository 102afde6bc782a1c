/**
 * The header's Previous and Next buttons: they step the selection through
 * the song list, found by the selected song's id.
 */
module DashboardHeader {
  import opened Wrappers
  import opened Types
  import opened SongStore

  /** Position of the selected song's id in the list, -1 when it is not listed. */
  function SelectedIndex(songs: seq<Song>, selected: Song): (r: int)
    ensures -1 <= r < |songs|
    ensures r >= 0 ==> songs[r].id == selected.id
    ensures r == -1 <==> selected.id !in SongIds(songs)
  {
    FindIndex(SongIds(songs), selected.id)
  }

  /**
   * `handlePrevious`: the song the selection moves to, or None when nothing
   * happens (no selection, first song, or the selection is not listed).
   */
  function PreviousSelection(songs: seq<Song>, selected: Option<Song>): (r: Option<Song>)
    ensures r.Some? <==> selected.Some? && SelectedIndex(songs, selected.value) > 0
    ensures r.Some? ==> r.value == songs[SelectedIndex(songs, selected.value) - 1] && r.value in songs
  {
    if selected.None? then None
    else
      var i := SelectedIndex(songs, selected.value);
      if i > 0 then Some(songs[i - 1]) else None
  }

  /**
   * `handleNext`: the song the selection moves to, or None. A selection that
   * is not listed sits at -1, so Next then selects the first song.
   */
  function NextSelection(songs: seq<Song>, selected: Option<Song>): (r: Option<Song>)
    ensures r.Some? <==> selected.Some? && SelectedIndex(songs, selected.value) < |songs| - 1
    ensures r.Some? ==> r.value == songs[SelectedIndex(songs, selected.value) + 1] && r.value in songs
    ensures r.Some? && selected.value.id !in SongIds(songs) ==> r.value == songs[0]
  {
    if selected.None? then None
    else
      var i := SelectedIndex(songs, selected.value);
      if i < |songs| - 1 then Some(songs[i + 1]) else None
  }

  /** The ids of the list are pairwise distinct. */
  predicate DistinctSongIds(songs: seq<Song>) {
    forall i, j :: 0 <= i < j < |songs| ==> songs[i].id != songs[j].id
  }

  /** With distinct ids, a listed song is found at its own position. */
  lemma IndexOfListed(songs: seq<Song>, k: nat)
    requires DistinctSongIds(songs) && k < |songs|
    ensures SelectedIndex(songs, songs[k]) == k
  {
    assert SongIds(songs)[k] == songs[k].id;
  }

  /** From a listed song with distinct ids, Previous selects the song just before it. */
  lemma StepBack(songs: seq<Song>, k: nat)
    requires DistinctSongIds(songs) && 0 < k < |songs|
    ensures PreviousSelection(songs, Some(songs[k])) == Some(songs[k - 1])
  {
    IndexOfListed(songs, k);
  }

  /** From a listed song with distinct ids, Next selects the song just after it. */
  lemma StepForward(songs: seq<Song>, k: nat)
    requires DistinctSongIds(songs) && k + 1 < |songs|
    ensures NextSelection(songs, Some(songs[k])) == Some(songs[k + 1])
  {
    IndexOfListed(songs, k);
  }

  /** Next then Previous comes back to the song with the original id. */
  lemma NextThenPrevious(songs: seq<Song>, selected: Song)
    requires DistinctSongIds(songs) && selected.id in SongIds(songs)
    ensures NextSelection(songs, Some(selected)).Some? ==>
      PreviousSelection(songs, NextSelection(songs, Some(selected))).value.id == selected.id
  {
    var i := SelectedIndex(songs, selected);
    if i + 1 < |songs| {
      StepBack(songs, i + 1);
    }
  }

  /** Previous then Next comes back to the song with the original id. */
  lemma PreviousThenNext(songs: seq<Song>, selected: Song)
    requires DistinctSongIds(songs) && selected.id in SongIds(songs)
    ensures PreviousSelection(songs, Some(selected)).Some? ==>
      NextSelection(songs, PreviousSelection(songs, Some(selected))).value.id == selected.id
  {
    var i := SelectedIndex(songs, selected);
    if i > 0 {
      StepForward(songs, i - 1);
    }
  }

  /**
   * The buttons' `disabled` flags compare the selected song with the list
   * entries by value (`songs.indexOf(selectedSong)`), not by id.
   */
  function PreviousDisabled(songs: seq<Song>, selected: Option<Song>): bool {
    selected.None? || FindIndex(songs, selected.value) == 0
  }

  function NextDisabled(songs: seq<Song>, selected: Option<Song>): bool {
    selected.None? || FindIndex(songs, selected.value) == |songs| - 1
  }

  /** For a selection that is one of the listed songs (ids distinct), a button is enabled exactly when its handler moves. */
  lemma ButtonsMatchHandlers(songs: seq<Song>, selected: Song)
    requires DistinctSongIds(songs) && selected in songs
    ensures !PreviousDisabled(songs, Some(selected)) <==> PreviousSelection(songs, Some(selected)).Some?
    ensures !NextDisabled(songs, Some(selected)) <==> NextSelection(songs, Some(selected)).Some?
  {
    var k := FindIndex(songs, selected);
    IndexOfListed(songs, k);
  }

  /** The Previous button's click on the store: only the selection changes. */
  method HandlePrevious(store: Store)
    modifies store
    ensures var r := PreviousSelection(old(store.songs), old(store.selected));
      store.selected == if r.Some? then r else old(store.selected)
    ensures store.songs == old(store.songs) && store.pending == old(store.pending)
  {
    var r := PreviousSelection(store.songs, store.selected);
    if r.Some? {
      store.SetSelectedSong(r);
    }
  }

  /** The Next button's click on the store: only the selection changes. */
  method HandleNext(store: Store)
    modifies store
    ensures var r := NextSelection(old(store.songs), old(store.selected));
      store.selected == if r.Some? then r else old(store.selected)
    ensures store.songs == old(store.songs) && store.pending == old(store.pending)
  {
    var r := NextSelection(store.songs, store.selected);
    if r.Some? {
      store.SetSelectedSong(r);
    }
  }
}
