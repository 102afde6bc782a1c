/**
 * The sequence editor view: the one-line summary of the selected song's
 * sequence and the handler that turns a finished drag into a reorder.
 */
module SequenceEditor {
  import opened Wrappers
  import opened Types
  import opened Text
  import opened Abbreviations
  import opened SequenceOps
  import opened SongStore

  // ---------------------------------------------------------------------------
  // The summary line
  // ---------------------------------------------------------------------------

  /** A base item whose occurrence is set and above 1 shows its number. */
  predicate ShowsOccurrence(item: SequenceItem) {
    item.kind == BaseType && item.occurrence.Some? && item.occurrence.value > 1
  }

  /**
   * One summary entry: the element's abbreviation, then the occurrence number
   * when it is shown. The number can be read back from what follows the
   * abbreviation.
   */
  function SummaryEntry(item: SequenceItem): (r: string)
    ensures var a := GetAbbreviation(item.element);
      |a| <= |r| && r[..|a|] == a &&
      (|r| > |a| <==> ShowsOccurrence(item)) &&
      (ShowsOccurrence(item) ==>
        r[|a|..] == NatToString(item.occurrence.value) &&
        AllDigits(r[|a|..]) && DigitsValue(r[|a|..]) == item.occurrence.value)
  {
    var a := GetAbbreviation(item.element);
    if ShowsOccurrence(item) then
      var n := item.occurrence.value;
      NatToStringRoundTrip(n);
      var r := a + IntToString(n);
      assert r[..|a|] == a && r[|a|..] == NatToString(n);
      r
    else a
  }

  /** `sequence.map(...).join(', ')`. */
  function Summary(items: seq<SequenceItem>): string {
    Join(seq(|items|, i requires 0 <= i < |items| => SummaryEntry(items[i])), ", ")
  }

  /** Shown in place of an empty summary. */
  const Placeholder := "Add elements to see sequence summary"

  /** The text of the summary paragraph: the summary, or the placeholder when it is empty. */
  function DisplayedSummary(song: Song): (r: string)
    ensures |r| > 0
    ensures r == Placeholder || r == Summary(song.sequence)
  {
    var s := Summary(song.sequence);
    if s == "" then Placeholder else s
  }

  /** The summary of a concatenation is the two summaries joined by `, `. */
  lemma SummaryAppend(a: seq<SequenceItem>, b: seq<SequenceItem>)
    requires |a| > 0 && |b| > 0
    ensures Summary(a + b) == Summary(a) + ", " + Summary(b)
  {
    var ea := seq(|a|, i requires 0 <= i < |a| => SummaryEntry(a[i]));
    var eb := seq(|b|, i requires 0 <= i < |b| => SummaryEntry(b[i]));
    var ab := a + b;
    assert seq(|ab|, i requires 0 <= i < |ab| => SummaryEntry(ab[i])) == ea + eb;
    JoinAppend(ea, eb, ", ");
  }

  /**
   * Appending an item extends the summary by one entry, so the summary of a
   * sequence is its entries in sequence order.
   */
  lemma SummaryAppendItem(a: seq<SequenceItem>, item: SequenceItem)
    requires |a| > 0
    ensures Summary(a + [item]) == Summary(a) + ", " + SummaryEntry(item)
  {
    SummaryAppend(a, [item]);
    assert seq(1, i requires 0 <= i < 1 => SummaryEntry([item][i])) == [SummaryEntry(item)];
  }

  /** An entry is empty only for an item with an empty element name and no number shown. */
  lemma EntryEmpty(item: SequenceItem)
    ensures SummaryEntry(item) == "" <==> item.element == "" && !ShowsOccurrence(item)
  {
  }

  /**
   * The placeholder appears exactly for an empty sequence, or for a single
   * item whose entry prints nothing.
   */
  lemma PlaceholderShown(song: Song)
    ensures DisplayedSummary(song) == Placeholder <==>
      |song.sequence| == 0 ||
      (|song.sequence| == 1 && song.sequence[0].element == "" && !ShowsOccurrence(song.sequence[0])) ||
      Summary(song.sequence) == Placeholder
  {
    var items := song.sequence;
    var parts := seq(|items|, i requires 0 <= i < |items| => SummaryEntry(items[i]));
    JoinEmpty(parts, ", ");
    if |items| == 1 {
      EntryEmpty(items[0]);
    }
  }

  // ---------------------------------------------------------------------------
  // Drag and drop
  // ---------------------------------------------------------------------------

  /** A finished drag: the dragged item's id and the id of the item under it, if any. */
  datatype DragEvent = DragEvent(active: ItemId, over: Option<ItemId>)

  /**
   * `handleDragEnd`: the pair of indices passed to `reorderSequence`, or None
   * when nothing is called (no drop target, dropped on itself, no song
   * selected). Each index is the first position of its id, -1 when absent.
   */
  function SequenceDragEnd(selected: Option<Song>, ev: DragEvent): (r: Option<(int, int)>)
    ensures r.Some? <==> selected.Some? && ev.over.Some? && ev.active != ev.over.value
    ensures r.Some? ==>
      var ids := ItemIds(selected.value.sequence);
      -1 <= r.value.0 < |ids| && -1 <= r.value.1 < |ids| &&
      (r.value.0 == -1 <==> ev.active !in ids) && (r.value.0 >= 0 ==> ids[r.value.0] == ev.active) &&
      (r.value.1 == -1 <==> ev.over.value !in ids) && (r.value.1 >= 0 ==> ids[r.value.1] == ev.over.value) &&
      (r.value.0 >= 0 && r.value.1 >= 0 ==> r.value.0 != r.value.1)
  {
    if ev.over.Some? && ev.active != ev.over.value && selected.Some? then
      var ids := ItemIds(selected.value.sequence);
      Some((FindIndex(ids, ev.active), FindIndex(ids, ev.over.value)))
    else None
  }

  /**
   * Both ids of a drag belong to the sortable list, which is the selected
   * song's sequence: the event source never reports other ids.
   */
  predicate IdsListed(selected: Option<Song>, ev: DragEvent) {
    selected.Some? ==>
      ev.active in ItemIds(selected.value.sequence) &&
      (ev.over.Some? ==> ev.over.value in ItemIds(selected.value.sequence))
  }

  /**
   * The handler run against the store: after a drop onto another item the
   * dragged item sits where that item was, the sequence is a permutation of
   * the old one, and a save is pending.
   */
  method HandleDragEnd(store: Store, ev: DragEvent)
    requires IdsListed(store.selected, ev)
    modifies store
    ensures SequenceDragEnd(old(store.selected), ev).None? ==>
      store.songs == old(store.songs) && store.selected == old(store.selected) && store.pending == old(store.pending)
    ensures SequenceDragEnd(old(store.selected), ev).Some? ==>
      var s := old(store.selected).value;
      var (from, to) := SequenceDragEnd(old(store.selected), ev).value;
      0 <= from < |s.sequence| && 0 <= to < |s.sequence| &&
      store.selected == Some(s.(sequence := Move(s.sequence, from, to))) &&
      store.songs == ReplaceSong(old(store.songs), store.selected.value) &&
      store.pending == store.selected &&
      store.selected.value.sequence[to].id == ev.active &&
      multiset(store.selected.value.sequence) == multiset(s.sequence)
  {
    var r := SequenceDragEnd(store.selected, ev);
    if r.Some? {
      var (from, to) := r.value;
      store.ReorderSequence(from, to);
    }
  }
}
