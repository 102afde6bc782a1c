/**
 * The data model shared by the client store, the server routes and the views:
 * a song, one item of its arrangement, and the fixed vocabulary of element names.
 */
module Types {
  import opened Wrappers

  type SongId = string
  type ItemId = string
  type UserId = string

  /** 'base' | 'flow' */
  datatype SequenceType = BaseType | FlowType

  /** The ten structural element names. */
  datatype BaseElement =
    | Verse | PreChorus | Chorus | Bridge | Instrumental
    | Outro | Intro | Interlude | Ending | Tag

  /** The four flow element names. */
  datatype FlowElement = Drums | Breakdown | Build | Pause

  /** `BaseElement | FlowElement`. */
  datatype Element = Base(b: BaseElement) | Flow(f: FlowElement)

  /**
   * One element of a song's arrangement. `element` is kept as the string the
   * item carries at run time (the lookup tables are keyed by strings and the
   * items come back from the server as JSON); `occurrence` and `note` are the
   * optional fields.
   */
  datatype SequenceItem = SequenceItem(
    id: ItemId,
    kind: SequenceType,
    element: string,
    order: int,
    occurrence: Option<int>,
    note: Option<string>)

  /** A song as the client holds it. */
  datatype Song = Song(id: SongId, title: string, key: Option<string>, sequence: seq<SequenceItem>)

  /** The string value of an element name. */
  function ElementName(e: Element): string {
    match e
    case Base(b) =>
      (match b
       case Verse => "Verse"
       case PreChorus => "Pre-Chorus"
       case Chorus => "Chorus"
       case Bridge => "Bridge"
       case Instrumental => "Instrumental"
       case Outro => "Outro"
       case Intro => "Intro"
       case Interlude => "Interlude"
       case Ending => "Ending"
       case Tag => "Tag")
    case Flow(f) =>
      (match f
       case Drums => "Drums"
       case Breakdown => "Breakdown"
       case Build => "Build"
       case Pause => "Pause")
  }

  /** The element a string names, if it names one. */
  function ParseElement(s: string): (r: Option<Element>)
    ensures r.Some? ==> ElementName(r.value) == s
  {
    if s == "Verse" then Some(Base(Verse))
    else if s == "Pre-Chorus" then Some(Base(PreChorus))
    else if s == "Chorus" then Some(Base(Chorus))
    else if s == "Bridge" then Some(Base(Bridge))
    else if s == "Instrumental" then Some(Base(Instrumental))
    else if s == "Outro" then Some(Base(Outro))
    else if s == "Intro" then Some(Base(Intro))
    else if s == "Interlude" then Some(Base(Interlude))
    else if s == "Ending" then Some(Base(Ending))
    else if s == "Tag" then Some(Base(Tag))
    else if s == "Drums" then Some(Flow(Drums))
    else if s == "Breakdown" then Some(Flow(Breakdown))
    else if s == "Build" then Some(Flow(Build))
    else if s == "Pause" then Some(Flow(Pause))
    else None
  }

  /** Every element name parses back to its element, so the 14 names are pairwise distinct. */
  lemma ElementNameRoundTrip(e: Element)
    ensures ParseElement(ElementName(e)) == Some(e)
  {
  }

  lemma ElementNamesDistinct(e1: Element, e2: Element)
    ensures ElementName(e1) == ElementName(e2) ==> e1 == e2
  {
    ElementNameRoundTrip(e1);
    ElementNameRoundTrip(e2);
  }

  /** The ids of a list of songs, position by position. */
  function SongIds(songs: seq<Song>): (r: seq<SongId>)
    ensures |r| == |songs| && forall i :: 0 <= i < |songs| ==> r[i] == songs[i].id
  {
    seq(|songs|, i requires 0 <= i < |songs| => songs[i].id)
  }

  /** The ids of a sequence, position by position. */
  function ItemIds(items: seq<SequenceItem>): (r: seq<ItemId>)
    ensures |r| == |items| && forall i :: 0 <= i < |items| ==> r[i] == items[i].id
  {
    seq(|items|, i requires 0 <= i < |items| => items[i].id)
  }

  /** `Array.prototype.findIndex` on ids: the first position holding `id`, or -1. */
  function FindIndex<T(==)>(s: seq<T>, x: T): (r: int)
    ensures -1 <= r < |s|
    ensures r >= 0 ==> s[r] == x && forall k :: 0 <= k < r ==> s[k] != x
    ensures r == -1 <==> x !in s
  {
    if |s| == 0 then -1
    else if s[0] == x then 0
    else
      var k := FindIndex(s[1..], x);
      if k == -1 then -1 else k + 1
  }
}
