/**
 * The client-side song store: the list of the user's songs, the selected
 * song, and the single pending debounced save. Every action replaces the
 * state wholesale, as the store's `set(...)` does; network replies are
 * parameters (`None` stands for a failed request or a non-ok response, after
 * which the action only logs and leaves the state alone).
 */
module SongStore {
  import opened Wrappers
  import opened Types
  import opened SequenceOps

  /** The JSON body the store sends with a POST or PUT of a song. */
  datatype SongPayload = SongPayload(title: string, key: Option<string>, sequence: seq<SequenceItem>)

  class Store {
    var songs: seq<Song>
    var selected: Option<Song>
    /**
     * The module-level `saveTimeout`: at most one debounced write is pending,
     * and it carries the song as it was when it was scheduled.
     */
    var pending: Option<Song>

    constructor ()
      ensures songs == [] && selected == None && pending == None
    {
      songs := [];
      selected := None;
      pending := None;
    }

    method SetSongs(s: seq<Song>)
      modifies this
      ensures songs == s && selected == old(selected) && pending == old(pending)
    {
      songs := s;
    }

    method SetSelectedSong(s: Option<Song>)
      modifies this
      ensures selected == s && songs == old(songs) && pending == old(pending)
    {
      selected := s;
    }

    /** `addSong`: POST a new empty song; on success append the server's song and select it. */
    method AddSong(title: string, key: string, reply: Option<Song>) returns (body: SongPayload)
      modifies this
      ensures body == SongPayload(title, Some(key), [])
      ensures reply.Some? ==> songs == old(songs) + [reply.value] && selected == reply
      ensures reply.None? ==> songs == old(songs) && selected == old(selected)
      ensures pending == old(pending)
    {
      body := SongPayload(title, Some(key), []);
      if reply.Some? {
        songs := songs + [reply.value];
        selected := reply;
      }
    }

    /**
     * `deleteSong`, which is `deleteSongFromDB`: on success drop every song
     * with that id and clear the selection exactly when the selected song has it.
     */
    method DeleteSong(id: SongId, ok: bool)
      modifies this
      ensures ok ==> songs == RemoveSong(old(songs), id)
      ensures ok ==> selected == if old(selected).Some? && old(selected).value.id == id then None else old(selected)
      ensures !ok ==> songs == old(songs) && selected == old(selected)
      ensures pending == old(pending)
    {
      if ok {
        songs := RemoveSong(songs, id);
        if selected.Some? && selected.value.id == id {
          selected := None;
        }
      }
    }

    /** `loadSongs`: replace the list with the server's on success. */
    method LoadSongs(reply: Option<seq<Song>>)
      modifies this
      ensures songs == if reply.Some? then reply.value else old(songs)
      ensures selected == old(selected) && pending == old(pending)
    {
      if reply.Some? {
        songs := reply.value;
      }
    }

    /** `saveSong`: POST the whole song; on success append the server's copy (the selection is untouched). */
    method SaveSong(song: Song, reply: Option<Song>) returns (body: Song)
      modifies this
      ensures body == song
      ensures songs == if reply.Some? then old(songs) + [reply.value] else old(songs)
      ensures selected == old(selected) && pending == old(pending)
    {
      body := song;
      if reply.Some? {
        songs := songs + [reply.value];
      }
    }

    /**
     * `debounceSave`: cancel whatever write is pending and schedule this one.
     * Whatever was pending before is dropped, so after a burst of calls only
     * the last song is pending.
     */
    method DebounceSave(song: Song)
      modifies this
      ensures pending == Some(song)
      ensures songs == old(songs) && selected == old(selected)
    {
      pending := Some(song);
    }

    /** The debounce delay elapses: the pending song, if any, is the one PUT to the server. */
    method TimerElapsed() returns (write: Option<Song>)
      modifies this
      ensures write == old(pending) && pending == None
      ensures songs == old(songs) && selected == old(selected)
    {
      write := pending;
      pending := None;
    }

    /**
     * The common tail of the four sequence actions: the updated song becomes
     * the selection, replaces the entry with its id in the list, and is
     * scheduled for a debounced save.
     */
    method Commit(u: Song)
      modifies this
      ensures selected == Some(u) && songs == ReplaceSong(old(songs), u) && pending == Some(u)
    {
      selected := Some(u);
      songs := ReplaceSong(songs, u);
      DebounceSave(u);
    }

    /** `addSequenceItem(element, type, occurrence)`; `newId` is the generated uuid. */
    method AddSequenceItem(element: Element, kind: SequenceType, occurrence: Option<int>, newId: ItemId)
      modifies this
      ensures old(selected).None? ==> songs == old(songs) && selected == old(selected) && pending == old(pending)
      ensures old(selected).Some? ==>
        var s := old(selected).value;
        var u := s.(sequence := AppendItem(s.sequence, newId, element, kind, occurrence));
        selected == Some(u) && songs == ReplaceSong(old(songs), u) && pending == Some(u)
    {
      if selected.None? {
        return;
      }
      var s := selected.value;
      Commit(s.(sequence := AppendItem(s.sequence, newId, element, kind, occurrence)));
    }

    /** `deleteSequenceItem(itemId)`. */
    method DeleteSequenceItem(itemId: ItemId)
      modifies this
      ensures old(selected).None? ==> songs == old(songs) && selected == old(selected) && pending == old(pending)
      ensures old(selected).Some? ==>
        var s := old(selected).value;
        var u := s.(sequence := RemoveItem(s.sequence, itemId));
        selected == Some(u) && songs == ReplaceSong(old(songs), u) && pending == Some(u)
    {
      if selected.None? {
        return;
      }
      var s := selected.value;
      Commit(s.(sequence := RemoveItem(s.sequence, itemId)));
    }

    /** `updateNote(itemId, note)`. */
    method UpdateNote(itemId: ItemId, note: string)
      modifies this
      ensures old(selected).None? ==> songs == old(songs) && selected == old(selected) && pending == old(pending)
      ensures old(selected).Some? ==>
        var s := old(selected).value;
        var u := s.(sequence := SetNote(s.sequence, itemId, note));
        selected == Some(u) && songs == ReplaceSong(old(songs), u) && pending == Some(u)
    {
      if selected.None? {
        return;
      }
      var s := selected.value;
      Commit(s.(sequence := SetNote(s.sequence, itemId, note)));
    }

    /** `reorderSequence(oldIndex, newIndex)`; the items' `order` fields are not rewritten. */
    method ReorderSequence(oldIndex: nat, newIndex: nat)
      requires selected.Some? ==> oldIndex < |selected.value.sequence| && newIndex < |selected.value.sequence|
      modifies this
      ensures old(selected).None? ==> songs == old(songs) && selected == old(selected) && pending == old(pending)
      ensures old(selected).Some? ==>
        var s := old(selected).value;
        var u := s.(sequence := Move(s.sequence, oldIndex, newIndex));
        selected == Some(u) && songs == ReplaceSong(old(songs), u) && pending == Some(u)
    {
      if selected.None? {
        return;
      }
      var s := selected.value;
      Commit(s.(sequence := Move(s.sequence, oldIndex, newIndex)));
    }

    /**
     * `updateSong(id, title, key)`: the PUT always carries the selected song's
     * sequence (or none), whichever song `id` names; on success the server's
     * song replaces every entry with that id and the selection if it has it.
     */
    method UpdateSong(id: SongId, title: string, key: string, reply: Option<Song>) returns (body: SongPayload)
      modifies this
      ensures body == SongPayload(title, Some(key), if old(selected).Some? then old(selected).value.sequence else [])
      ensures reply.Some? ==> songs == ReplaceSongAt(old(songs), id, reply.value)
      ensures reply.Some? ==> selected == if old(selected).Some? && old(selected).value.id == id then reply else old(selected)
      ensures reply.None? ==> songs == old(songs) && selected == old(selected)
      ensures pending == old(pending)
    {
      body := SongPayload(title, Some(key), if selected.Some? then selected.value.sequence else []);
      if reply.Some? {
        songs := ReplaceSongAt(songs, id, reply.value);
        if selected.Some? && selected.value.id == id {
          selected := reply;
        }
      }
    }
  }

  /**
   * A burst of debounced saves followed by the delay elapsing writes exactly
   * one song, the last of the burst; the earlier ones are never sent.
   */
  method BurstWritesLast(store: Store, burst: seq<Song>) returns (write: Option<Song>)
    requires |burst| > 0
    modifies store
    ensures write == Some(burst[|burst| - 1]) && store.pending == None
    ensures store.songs == old(store.songs) && store.selected == old(store.selected)
  {
    var i := 0;
    while i < |burst|
      invariant 0 <= i <= |burst|
      invariant i > 0 ==> store.pending == Some(burst[i - 1])
      invariant store.songs == old(store.songs) && store.selected == old(store.selected)
    {
      store.DebounceSave(burst[i]);
      i := i + 1;
    }
    write := store.TimerElapsed();
  }
}
