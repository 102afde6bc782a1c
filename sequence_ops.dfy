/**
 * The value transformations behind the store's actions: each action builds a
 * new array from the selected song's sequence (or from the song list) with
 * spread, `filter`, `map` or `splice`, and these functions are those arrays.
 */
module SequenceOps {
  import opened Wrappers
  import opened Types

  // ---------------------------------------------------------------------------
  // Generic helpers: filter, subsequence, remove/insert at a position
  // ---------------------------------------------------------------------------

  /** `s.filter(keep)`. */
  function Filter<T(!new)>(s: seq<T>, keep: T -> bool): (r: seq<T>)
    ensures |r| <= |s|
    ensures forall x :: x in r <==> x in s && keep(x)
  {
    if s == [] then []
    else (if keep(s[0]) then [s[0]] else []) + Filter(s[1..], keep)
  }

  /** `r` can be obtained from `s` by deleting elements, keeping the rest in order. */
  predicate SubsequenceOf<T(==)>(r: seq<T>, s: seq<T>)
    decreases |s|
  {
    if s == [] then r == []
    else (r != [] && r[0] == s[0] && SubsequenceOf(r[1..], s[1..])) || SubsequenceOf(r, s[1..])
  }

  /** `filter` keeps the surviving elements in their original relative order. */
  lemma {:induction false} FilterIsSubsequence<T(!new)>(s: seq<T>, keep: T -> bool)
    ensures SubsequenceOf(Filter(s, keep), s)
    decreases |s|
  {
    if s != [] {
      FilterIsSubsequence(s[1..], keep);
      var rest := Filter(s[1..], keep);
      if keep(s[0]) {
        assert Filter(s, keep) == [s[0]] + rest;
        assert ([s[0]] + rest)[1..] == rest;
      } else {
        assert Filter(s, keep) == rest;
      }
    }
  }

  /** Number of elements of `s` that `keep` rejects. */
  function CountRejected<T>(s: seq<T>, keep: T -> bool): nat {
    if s == [] then 0 else (if keep(s[0]) then 0 else 1) + CountRejected(s[1..], keep)
  }

  /** `filter` drops exactly the rejected elements, with their multiplicity. */
  lemma {:induction false} FilterCount<T(!new)>(s: seq<T>, keep: T -> bool)
    ensures |Filter(s, keep)| + CountRejected(s, keep) == |s|
    decreases |s|
  {
    if s != [] {
      FilterCount(s[1..], keep);
    }
  }

  /** `filter` with a predicate that holds everywhere returns the same sequence. */
  lemma {:induction false} FilterKeepsAll<T(!new)>(s: seq<T>, keep: T -> bool)
    requires forall x :: x in s ==> keep(x)
    ensures Filter(s, keep) == s
    decreases |s|
  {
    if s != [] {
      assert forall x :: x in s[1..] ==> x in s;
      FilterKeepsAll(s[1..], keep);
      assert keep(s[0]);
      assert Filter(s, keep) == [s[0]] + s[1..] == s;
    }
  }

  function RemoveAt<T>(s: seq<T>, i: nat): (r: seq<T>)
    requires i < |s|
    ensures |r| == |s| - 1
    ensures forall k :: 0 <= k < |r| ==> r[k] == s[if k < i then k else k + 1]
  {
    s[..i] + s[i + 1..]
  }

  function InsertAt<T>(s: seq<T>, i: nat, x: T): (r: seq<T>)
    requires i <= |s|
    ensures |r| == |s| + 1
    ensures r[i] == x && forall k :: 0 <= k < |s| ==> r[if k < i then k else k + 1] == s[k]
  {
    s[..i] + [x] + s[i..]
  }

  lemma RemoveInsert<T>(s: seq<T>, i: nat, x: T)
    requires i <= |s|
    ensures InsertAt(s, i, x)[i] == x
    ensures RemoveAt(InsertAt(s, i, x), i) == s
  {
    var t := InsertAt(s, i, x);
    assert t[..i] == s[..i];
    assert t[i + 1..] == s[i..];
  }

  lemma InsertRemove<T>(s: seq<T>, i: nat)
    requires i < |s|
    ensures InsertAt(RemoveAt(s, i), i, s[i]) == s
  {
    var t := RemoveAt(s, i);
    assert t[..i] == s[..i];
    assert t[i..] == s[i + 1..];
  }

  // ---------------------------------------------------------------------------
  // addSequenceItem: append one item
  // ---------------------------------------------------------------------------

  /**
   * The sequence after `addSequenceItem(element, type, occurrence)` with the
   * generated id `id`: the new item goes last, its `order` is the old length,
   * and it carries an occurrence field only for a base item. No occurrence is
   * computed here: whatever the caller passed (possibly nothing) is stored.
   */
  function AppendItem(s: seq<SequenceItem>, id: ItemId, element: Element, kind: SequenceType, occurrence: Option<int>)
    : (r: seq<SequenceItem>)
    ensures |r| == |s| + 1 && r[..|s|] == s
    ensures r[|s|].id == id && r[|s|].kind == kind && r[|s|].element == ElementName(element)
    ensures r[|s|].order == |s|
    ensures r[|s|].occurrence == (if kind == BaseType then occurrence else None)
    ensures r[|s|].note == None
  {
    var item := SequenceItem(id, kind, ElementName(element), |s|,
                             if kind == BaseType then occurrence else None, None);
    s + [item]
  }

  // ---------------------------------------------------------------------------
  // deleteSequenceItem: filter out one id
  // ---------------------------------------------------------------------------

  /** `sequence.filter(item => item.id !== id)`. */
  function RemoveItem(s: seq<SequenceItem>, id: ItemId): (r: seq<SequenceItem>)
    ensures forall x :: x in r <==> x in s && x.id != id
  {
    Filter(s, (x: SequenceItem) => x.id != id)
  }

  /**
   * Deleting removes every item with that id, keeps all others in their
   * original relative order, and shortens the sequence by exactly the number
   * of items that had the id.
   */
  lemma RemoveItemSpec(s: seq<SequenceItem>, id: ItemId)
    ensures SubsequenceOf(RemoveItem(s, id), s)
    ensures |RemoveItem(s, id)| + CountRejected(s, (x: SequenceItem) => x.id != id) == |s|
    ensures (forall x :: x in s ==> x.id != id) ==> RemoveItem(s, id) == s
  {
    FilterIsSubsequence(s, (x: SequenceItem) => x.id != id);
    FilterCount(s, (x: SequenceItem) => x.id != id);
    if forall x :: x in s ==> x.id != id {
      FilterKeepsAll(s, (x: SequenceItem) => x.id != id);
    }
  }

  // ---------------------------------------------------------------------------
  // updateNote: map over the sequence
  // ---------------------------------------------------------------------------

  /** `sequence.map(item => item.id === id ? { ...item, note } : item)`. */
  function SetNote(s: seq<SequenceItem>, id: ItemId, note: string): (r: seq<SequenceItem>)
    ensures |r| == |s| && ItemIds(r) == ItemIds(s)
    ensures forall i :: 0 <= i < |s| ==> r[i].(note := s[i].note) == s[i]
    ensures forall i :: 0 <= i < |s| && s[i].id == id ==> r[i].note == Some(note)
    ensures forall i :: 0 <= i < |s| && s[i].id != id ==> r[i] == s[i]
  {
    seq(|s|, i requires 0 <= i < |s| => if s[i].id == id then s[i].(note := Some(note)) else s[i])
  }

  /** Two note edits of the same item: the later one wins. */
  lemma LastNoteWins(s: seq<SequenceItem>, id: ItemId, first: string, second: string)
    ensures SetNote(SetNote(s, id, first), id, second) == SetNote(s, id, second)
  {
  }

  // ---------------------------------------------------------------------------
  // reorderSequence: move by splice
  // ---------------------------------------------------------------------------

  /**
   * `splice(oldIndex, 1)` followed by `splice(newIndex, 0, moved)` on a copy.
   * The `order` fields are carried along unchanged.
   */
  function Move<T>(s: seq<T>, from: nat, to: nat): (r: seq<T>)
    requires from < |s| && to < |s|
    ensures |r| == |s| && r[to] == s[from]
    ensures RemoveAt(r, to) == RemoveAt(s, from)
    ensures multiset(r) == multiset(s)
  {
    RemoveInsert(RemoveAt(s, from), to, s[from]);
    MovePermutes(s, from, to);
    InsertAt(RemoveAt(s, from), to, s[from])
  }

  /** Taking an element out and putting it back elsewhere keeps the multiset. */
  lemma MovePermutes<T>(s: seq<T>, from: nat, to: nat)
    requires from < |s| && to < |s|
    ensures multiset(InsertAt(RemoveAt(s, from), to, s[from])) == multiset(s)
  {
    var t := RemoveAt(s, from);
    calc {
      multiset(InsertAt(t, to, s[from]));
      multiset(t[..to]) + multiset([s[from]]) + multiset(t[to..]);
      { assert t == t[..to] + t[to..]; }
      multiset(t) + multiset([s[from]]);
      multiset(s[..from]) + multiset(s[from + 1..]) + multiset([s[from]]);
      { assert s == s[..from] + [s[from]] + s[from + 1..]; }
      multiset(s);
    }
  }

  /** Moving an item onto its own position changes nothing. */
  lemma MoveIdentity<T>(s: seq<T>, i: nat)
    requires i < |s|
    ensures Move(s, i, i) == s
  {
    InsertRemove(s, i);
  }

  /** Moving back undoes a move. */
  lemma MoveRoundTrip<T>(s: seq<T>, from: nat, to: nat)
    requires from < |s| && to < |s|
    ensures Move(Move(s, from, to), to, from) == s
  {
    var t := Move(s, from, to);
    InsertRemove(s, from);
  }

  /**
   * Position by position: the moved element lands at `to`, the elements
   * strictly between the two positions shift by one toward `from`, and every
   * other element stays where it was.
   */
  lemma MoveAt<T>(s: seq<T>, from: nat, to: nat, k: nat)
    requires from < |s| && to < |s| && k < |s|
    ensures Move(s, from, to)[k] ==
      if k == to then s[from]
      else if from < to && from <= k < to then s[k + 1]
      else if to < from && to < k <= from then s[k - 1]
      else s[k]
  {
    var t := RemoveAt(s, from);
    var r := InsertAt(t, to, s[from]);
    assert r == Move(s, from, to);
    ShiftAt(s, t, r, from, to, k);
  }

  /** The position-by-position reading of a removal at `from` followed by an insertion at `to`. */
  lemma ShiftAt<T>(s: seq<T>, t: seq<T>, r: seq<T>, from: nat, to: nat, k: nat)
    requires from < |s| && to < |s| && k < |s|
    requires |t| == |s| - 1 && forall j :: 0 <= j < |t| ==> t[j] == s[if j < from then j else j + 1]
    requires |r| == |s| && r[to] == s[from] && forall j :: 0 <= j < |t| ==> r[if j < to then j else j + 1] == t[j]
    ensures r[k] ==
      if k == to then s[from]
      else if from < to && from <= k < to then s[k + 1]
      else if to < from && to < k <= from then s[k - 1]
      else s[k]
  {
    if k != to {
      var j := if k < to then k else k - 1;
      assert k == if j < to then j else j + 1;
      assert r[k] == t[j];
    }
  }

  // ---------------------------------------------------------------------------
  // The song list: replace by id, filter by id
  // ---------------------------------------------------------------------------

  /** `songs.map(song => song.id === u.id ? u : song)`. */
  function ReplaceSong(songs: seq<Song>, u: Song): (r: seq<Song>)
    ensures |r| == |songs| && SongIds(r) == SongIds(songs)
    ensures forall i :: 0 <= i < |songs| && songs[i].id == u.id ==> r[i] == u
    ensures forall i :: 0 <= i < |songs| && songs[i].id != u.id ==> r[i] == songs[i]
  {
    seq(|songs|, i requires 0 <= i < |songs| => if songs[i].id == u.id then u else songs[i])
  }

  /** `songs.map(song => song.id === id ? u : song)`, where `u` may carry another id. */
  function ReplaceSongAt(songs: seq<Song>, id: SongId, u: Song): (r: seq<Song>)
    ensures |r| == |songs|
    ensures forall i :: 0 <= i < |songs| && songs[i].id == id ==> r[i] == u
    ensures forall i :: 0 <= i < |songs| && songs[i].id != id ==> r[i] == songs[i]
  {
    seq(|songs|, i requires 0 <= i < |songs| => if songs[i].id == id then u else songs[i])
  }

  /** `songs.filter(song => song.id !== id)`. */
  function RemoveSong(songs: seq<Song>, id: SongId): (r: seq<Song>)
    ensures forall x :: x in r <==> x in songs && x.id != id
  {
    Filter(songs, (x: Song) => x.id != id)
  }

  lemma RemoveSongKeepsOrder(songs: seq<Song>, id: SongId)
    ensures SubsequenceOf(RemoveSong(songs, id), songs)
    ensures id !in SongIds(RemoveSong(songs, id))
  {
    FilterIsSubsequence(songs, (x: Song) => x.id != id);
  }
}
