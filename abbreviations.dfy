/** The short labels of element names used in the sequence summary. */
module Abbreviations {
  import opened Wrappers
  import opened Types

  /** The `elementAbbreviations` table, one entry per element name. */
  function Abbreviation(e: Element): string {
    match e
    case Base(b) =>
      (match b
       case Intro => "Intro"
       case Verse => "V"
       case PreChorus => "PC"
       case Chorus => "C"
       case Bridge => "B"
       case Instrumental => "Inst"
       case Interlude => "It"
       case Outro => "Outro"
       case Tag => "Tag"
       case Ending => "E")
    case Flow(f) =>
      (match f
       case Drums => "Drums"
       case Breakdown => "Bd"
       case Build => "Build"
       case Pause => "Pause")
  }

  /** `getAbbreviation(element)`: the table entry for a known name, the name itself otherwise. */
  function GetAbbreviation(name: string): (r: string)
    ensures ParseElement(name).None? ==> r == name
    ensures ParseElement(name).Some? ==> r == Abbreviation(ParseElement(name).value)
    ensures |name| > 0 ==> |r| > 0
  {
    match ParseElement(name)
    case Some(e) => Abbreviation(e)
    case None => name
  }

  /** Every one of the ten base and four flow names has its own table entry. */
  lemma EveryElementHasEntry(e: Element)
    ensures GetAbbreviation(ElementName(e)) == Abbreviation(e)
  {
    ElementNameRoundTrip(e);
  }

  /** Reading an abbreviation back to the element it stands for. */
  function ExpandAbbreviation(a: string): (r: Option<Element>)
    ensures r.Some? ==> Abbreviation(r.value) == a
  {
    if a == "Intro" then Some(Base(Intro))
    else if a == "V" then Some(Base(Verse))
    else if a == "PC" then Some(Base(PreChorus))
    else if a == "C" then Some(Base(Chorus))
    else if a == "B" then Some(Base(Bridge))
    else if a == "Inst" then Some(Base(Instrumental))
    else if a == "It" then Some(Base(Interlude))
    else if a == "Outro" then Some(Base(Outro))
    else if a == "Tag" then Some(Base(Tag))
    else if a == "E" then Some(Base(Ending))
    else if a == "Drums" then Some(Flow(Drums))
    else if a == "Bd" then Some(Flow(Breakdown))
    else if a == "Build" then Some(Flow(Build))
    else if a == "Pause" then Some(Flow(Pause))
    else None
  }

  /** Every abbreviation reads back to its element ... */
  lemma AbbreviationRoundTrip(e: Element)
    ensures ExpandAbbreviation(Abbreviation(e)) == Some(e)
  {
  }

  /** ... so the fourteen abbreviations are pairwise distinct. */
  lemma AbbreviationsDistinct(e1: Element, e2: Element)
    requires e1 != e2
    ensures Abbreviation(e1) != Abbreviation(e2)
  {
    AbbreviationRoundTrip(e1);
    AbbreviationRoundTrip(e2);
  }
}
