/**
 * One row of the sequence editor: the label shown for an item, its
 * background class, and the two optional occurrence buttons of base items.
 */
module SequenceItemView {
  import opened Wrappers
  import opened Types
  import opened Text
  import opened SequenceOps
  import opened Colors

  /** The selected song's sequence, or the empty one. */
  function SelectedSequence(selected: Option<Song>): seq<SequenceItem> {
    match selected
    case Some(s) => s.sequence
    case None => []
  }

  /** `hasMultipleOccurrences(element)`: more than one base item of the selected song has this element. */
  function HasMultipleOccurrences(selected: Option<Song>, element: string): bool {
    |Filter(SelectedSequence(selected), (x: SequenceItem) => x.kind == BaseType && x.element == element)| > 1
  }

  /** Some position of `s` holds an element `keep` accepts. */
  predicate SomeKept<T>(s: seq<T>, keep: T -> bool) {
    exists j :: 0 <= j < |s| && keep(s[j])
  }

  /** Two positions of `s`, in order, hold elements `keep` accepts. */
  predicate TwoKept<T>(s: seq<T>, keep: T -> bool) {
    exists i, j :: 0 <= i < j < |s| && keep(s[i]) && keep(s[j])
  }

  /** `filter` keeps something exactly when some element is accepted. */
  lemma AnyKept<T(!new)>(s: seq<T>, keep: T -> bool)
    ensures |Filter(s, keep)| > 0 <==> SomeKept(s, keep)
  {
    if |Filter(s, keep)| > 0 {
      assert Filter(s, keep)[0] in Filter(s, keep);
      var j :| 0 <= j < |s| && s[j] == Filter(s, keep)[0];
    }
    if SomeKept(s, keep) {
      var j :| 0 <= j < |s| && keep(s[j]);
      assert s[j] in Filter(s, keep);
    }
  }

  /** Two accepted positions: both in the tail, or the head and one in the tail. */
  lemma TwoKeptStep<T>(s: seq<T>, keep: T -> bool)
    requires |s| > 0
    ensures TwoKept(s, keep) <==> TwoKept(s[1..], keep) || (keep(s[0]) && SomeKept(s[1..], keep))
  {
    var t := s[1..];
    if TwoKept(t, keep) {
      var i, j :| 0 <= i < j < |t| && keep(t[i]) && keep(t[j]);
      assert s[i + 1] == t[i] && s[j + 1] == t[j];
    }
    if keep(s[0]) && SomeKept(t, keep) {
      var j :| 0 <= j < |t| && keep(t[j]);
      assert s[j + 1] == t[j];
    }
    if TwoKept(s, keep) {
      var i, j :| 0 <= i < j < |s| && keep(s[i]) && keep(s[j]);
      assert t[j - 1] == s[j];
      if i > 0 {
        assert t[i - 1] == s[i];
      }
    }
  }

  /** More than one kept element means two positions, in order, that `keep` accepts. */
  lemma {:induction false} FilterAtLeastTwo<T(!new)>(s: seq<T>, keep: T -> bool)
    ensures |Filter(s, keep)| > 1 <==> TwoKept(s, keep)
    decreases |s|
  {
    if s != [] {
      var t := s[1..];
      FilterAtLeastTwo(t, keep);
      assert Filter(s, keep) == (if keep(s[0]) then [s[0]] else []) + Filter(t, keep);
      AnyKept(t, keep);
      TwoKeptStep(s, keep);
    }
  }

  /** The iff behind the label: two distinct base items of the selected song carry this element. */
  lemma MultipleOccurrencesIff(selected: Option<Song>, element: string)
    ensures HasMultipleOccurrences(selected, element) <==>
      var s := SelectedSequence(selected);
      exists i, j :: 0 <= i < j < |s| &&
        s[i].kind == BaseType && s[i].element == element &&
        s[j].kind == BaseType && s[j].element == element
  {
    FilterAtLeastTwo(SelectedSequence(selected), (x: SequenceItem) => x.kind == BaseType && x.element == element);
  }

  /** `item.occurrence || 1`: an absent or zero occurrence counts as 1. */
  function DefaultOccurrence(occurrence: Option<int>): (r: int)
    ensures r != 0
    ensures occurrence.Some? && occurrence.value != 0 ==> r == occurrence.value
    ensures occurrence.None? || occurrence.value == 0 ==> r == 1
  {
    match occurrence
    case Some(n) => if n == 0 then 1 else n
    case None => 1
  }

  /** `${item.occurrence || '1'}`: the text `1`, or the occurrence printed. */
  function OccurrenceText(occurrence: Option<int>): (r: string)
    ensures r == IntToString(DefaultOccurrence(occurrence))
  {
    assert IntToString(1) == "1";
    match occurrence
    case Some(n) => if n == 0 then "1" else IntToString(n)
    case None => "1"
  }

  /**
   * `displayText`: a base item whose element occurs more than once shows
   * `element occurrence`; every other item shows its element name alone.
   */
  function DisplayText(item: SequenceItem, selected: Option<Song>): (r: string)
    ensures |item.element| <= |r| && r[..|item.element|] == item.element
    ensures r != item.element <==> item.kind == BaseType && HasMultipleOccurrences(selected, item.element)
    ensures r != item.element ==> r[|item.element|..] == " " + IntToString(DefaultOccurrence(item.occurrence))
  {
    if item.kind == BaseType && HasMultipleOccurrences(selected, item.element) then
      var r := item.element + " " + OccurrenceText(item.occurrence);
      assert r[..|item.element|] == item.element;
      assert r[|item.element|..] == " " + OccurrenceText(item.occurrence);
      r
    else item.element
  }

  /**
   * Two base items with the same element but different effective occurrences
   * show different labels when the element occurs more than once.
   */
  lemma DisplayTextsDistinguishOccurrences(a: SequenceItem, b: SequenceItem, selected: Option<Song>)
    requires a.kind == BaseType && b.kind == BaseType && a.element == b.element
    requires HasMultipleOccurrences(selected, a.element)
    requires DefaultOccurrence(a.occurrence) != DefaultOccurrence(b.occurrence)
    ensures DisplayText(a, selected) != DisplayText(b, selected)
  {
    var n := |a.element|;
    var x, y := IntToString(DefaultOccurrence(a.occurrence)), IntToString(DefaultOccurrence(b.occurrence));
    IntToStringInjective(DefaultOccurrence(a.occurrence), DefaultOccurrence(b.occurrence));
    assert DisplayText(a, selected)[n..] == " " + x;
    assert DisplayText(b, selected)[n..] == " " + y;
    assert (" " + x)[1..] == x && (" " + y)[1..] == y;
  }

  /** The row background: blue for base items, purple for flow items. */
  function ItemBackground(item: SequenceItem): (r: ColorClass)
    ensures r.hover == false && r.opacity == 50
    ensures r.hue == Blue <==> item.kind == BaseType
    ensures item.kind == FlowType ==> r.hue == Purple
  {
    if item.kind == BaseType then ColorClass(false, Blue, 50) else ColorClass(false, Purple, 50)
  }

  /** Both row backgrounds are in the safelist. */
  lemma ItemBackgroundSafelisted(item: SequenceItem)
    ensures ItemBackground(item) in Safelist
  {
    assert Safelist[4] == ColorClass(false, Blue, 50);
    assert Safelist[24] == ColorClass(false, Purple, 50);
  }

  /** A rendered occurrence button: its tooltip and the arguments its click passes. */
  datatype OccurrenceButton = OccurrenceButton(title: string, element: string, occurrence: int)

  /**
   * The Duplicate button: present for a base item when the parent supplies
   * `onDuplicateItem`; it passes the effective occurrence and names it.
   */
  function DuplicateButton(item: SequenceItem, handlerGiven: bool): (r: Option<OccurrenceButton>)
    ensures r.Some? <==> handlerGiven && item.kind == BaseType
    ensures r.Some? ==> r.value.element == item.element && r.value.occurrence == DefaultOccurrence(item.occurrence)
    ensures r.Some? ==> r.value.title == "Duplicate " + item.element + " " + IntToString(r.value.occurrence)
  {
    if handlerGiven && item.kind == BaseType then
      var n := DefaultOccurrence(item.occurrence);
      Some(OccurrenceButton("Duplicate " + item.element + " " + OccurrenceText(item.occurrence), item.element, n))
    else None
  }

  /**
   * The Add-next button: present for a base item when the parent supplies
   * `onAddNextOccurrence`; it passes the current effective occurrence while
   * its tooltip names the next one.
   */
  function AddNextButton(item: SequenceItem, handlerGiven: bool): (r: Option<OccurrenceButton>)
    ensures r.Some? <==> handlerGiven && item.kind == BaseType
    ensures r.Some? ==> r.value.element == item.element && r.value.occurrence == DefaultOccurrence(item.occurrence)
    ensures r.Some? ==> r.value.title == "Add " + item.element + " " + IntToString(r.value.occurrence + 1)
  {
    if handlerGiven && item.kind == BaseType then
      var n := DefaultOccurrence(item.occurrence);
      Some(OccurrenceButton("Add " + item.element + " " + IntToString(n + 1), item.element, n))
    else None
  }

  /**
   * For a positive occurrence, the number at the end of the Add-next tooltip
   * reads back as one more than the occurrence the click passes.
   */
  lemma AddNextTitleNamesNext(item: SequenceItem)
    requires item.kind == BaseType && DefaultOccurrence(item.occurrence) > 0
    ensures var b := AddNextButton(item, true).value;
      var k := |"Add " + item.element + " "|;
      k <= |b.title| && AllDigits(b.title[k..]) && DigitsValue(b.title[k..]) == b.occurrence + 1
  {
    var b := AddNextButton(item, true).value;
    var p := "Add " + item.element + " ";
    assert b.title == p + NatToString(b.occurrence + 1);
    assert b.title[|p|..] == NatToString(b.occurrence + 1);
    NatToStringRoundTrip(b.occurrence + 1);
  }
}
