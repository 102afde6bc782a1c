/**
 * The background classes of sequence elements (`elementColors` and
 * `getElementColors`) and the Tailwind safelist they must appear in.
 * A class is kept as its parts (hover or not, hue, opacity) and rendered to
 * the exact class text by `Render`; every class in the table is a shade-900
 * background.
 */
module Colors {
  import opened Wrappers
  import opened Types
  import opened Text

  datatype Hue = Cyan | Blue | Yellow | Orange | Green | Red | Purple

  function HueName(h: Hue): string {
    match h
    case Cyan => "cyan"
    case Blue => "blue"
    case Yellow => "yellow"
    case Orange => "orange"
    case Green => "green"
    case Red => "red"
    case Purple => "purple"
  }

  /** `bg-<hue>-900/<opacity>`, prefixed with `hover:` when `hover` is set. */
  datatype ColorClass = ColorClass(hover: bool, hue: Hue, opacity: nat)

  function Render(c: ColorClass): (r: string)
    ensures |r| > 0
  {
    (if c.hover then "hover:" else "") + Background(c.hue, c.opacity)
  }

  function Background(h: Hue, opacity: nat): string {
    "bg-" + (HueName(h) + Shade(opacity))
  }

  function Shade(opacity: nat): string {
    "-900/" + NatToString(opacity)
  }

  /** One table entry: `numeral` is a space-separated list of classes. */
  datatype ElementColors = ElementColors(bg: ColorClass, hover: ColorClass, numeral: seq<ColorClass>)
  {
    /** The `numeral` attribute as the component receives it. */
    function NumeralText(): string {
      Join(seq(|numeral|, i requires 0 <= i < |numeral| => Render(numeral[i])), " ")
    }
  }

  /** The entry every hue gets: 50% background, 70% on hover, numeral 30% / 50% on hover. */
  function Palette(h: Hue): (r: ElementColors)
    ensures r.bg.hue == h && r.hover.hue == h
  {
    ElementColors(ColorClass(false, h, 50), ColorClass(true, h, 70),
                  [ColorClass(false, h, 30), ColorClass(true, h, 50)])
  }

  /** The `elementColors` table, keyed by element name: six base elements have an entry. */
  function ColorEntry(name: string): Option<ElementColors> {
    if name == ElementName(Base(Intro)) then Some(Palette(Cyan))
    else if name == ElementName(Base(Verse)) then Some(Palette(Blue))
    else if name == ElementName(Base(PreChorus)) then Some(Palette(Yellow))
    else if name == ElementName(Base(Chorus)) then Some(Palette(Orange))
    else if name == ElementName(Base(Tag)) then Some(Palette(Green))
    else if name == ElementName(Base(Bridge)) then Some(Palette(Red))
    else None
  }

  /** The fallback of `getElementColors`: the blue palette. */
  const DefaultColors := Palette(Blue)

  /**
   * `getElementColors(element)`: the table entry, or the blue default.
   * Whatever the name, the result is the palette of one hue other than
   * purple.
   */
  function GetElementColors(name: string): (r: ElementColors)
    ensures ColorEntry(name).Some? ==> r == ColorEntry(name).value
    ensures ColorEntry(name).None? ==> r == DefaultColors
    ensures r == Palette(r.bg.hue) && r.bg.hue != Purple
  {
    match ColorEntry(name)
    case Some(c) => c
    case None => DefaultColors
  }

  /** Elements without an entry (Flow elements among them) fall back to the Verse colours. */
  lemma MissingEntryIsVerse(name: string)
    requires ColorEntry(name).None?
    ensures GetElementColors(name) == GetElementColors(ElementName(Base(Verse)))
  {
  }

  /** Every flow element is drawn with the default. */
  lemma FlowElementsUseDefault(f: FlowElement)
    ensures GetElementColors(ElementName(Flow(f))) == DefaultColors
  {
    forall b: BaseElement {
      ElementNamesDistinct(Flow(f), Base(b));
    }
  }

  /** The element whose entry has a given hue: reading a colour back. */
  function HueElement(h: Hue): (r: Option<BaseElement>)
    ensures r.Some? ==> ColorEntry(ElementName(Base(r.value))) == Some(Palette(h))
  {
    match h
    case Cyan => Some(Intro)
    case Blue => Some(Verse)
    case Yellow => Some(PreChorus)
    case Orange => Some(Chorus)
    case Green => Some(Tag)
    case Red => Some(Bridge)
    case Purple => None
  }

  /** Each entry's hue reads back to its element. */
  lemma EntryHueReadsBack(b: BaseElement)
    requires ColorEntry(ElementName(Base(b))).Some?
    ensures HueElement(GetElementColors(ElementName(Base(b))).bg.hue) == Some(b)
  {
  }

  /** Distinct elements with an entry get distinct hues. */
  lemma EntriesDistinct(a: BaseElement, b: BaseElement)
    requires ColorEntry(ElementName(Base(a))).Some? && ColorEntry(ElementName(Base(b))).Some?
    requires a != b
    ensures GetElementColors(ElementName(Base(a))).bg != GetElementColors(ElementName(Base(b))).bg
  {
    EntryHueReadsBack(a);
    EntryHueReadsBack(b);
  }

  /** Whatever the name, every class returned has the same hue, and never purple. */
  lemma SameHue(name: string)
    ensures var r := GetElementColors(name);
      r.bg.hue != Purple && r.hover.hue == r.bg.hue &&
      forall i :: 0 <= i < |r.numeral| ==> r.numeral[i].hue == r.bg.hue
  {
  }

  /** The four classes of a hue, in the order the safelist gives them. */
  function HueClasses(h: Hue): seq<ColorClass> {
    [ColorClass(false, h, 50), ColorClass(true, h, 70), ColorClass(false, h, 30), ColorClass(true, h, 50)]
  }

  /** The `safelist` of the Tailwind configuration, in its order. */
  const Safelist: seq<ColorClass> :=
    HueClasses(Cyan) + HueClasses(Blue) + HueClasses(Yellow) + HueClasses(Orange) +
    HueClasses(Green) + HueClasses(Red) + [ColorClass(false, Purple, 50)]

  /** The four classes of each of the six table hues stand in the safelist. */
  lemma HueClassesSafelisted(h: Hue)
    requires h != Purple
    ensures forall c :: c in HueClasses(h) ==> c in Safelist
  {
    var k := match h
      case Cyan => 0 case Blue => 4 case Yellow => 8 case Orange => 12
      case Green => 16 case Red => 20 case Purple => 24;
    assert Safelist[k..k + 4] == HueClasses(h);
  }

  /** Every class `getElementColors` can return, numeral classes included, is safelisted. */
  lemma ClassesSafelisted(name: string)
    ensures var r := GetElementColors(name);
      r.bg in Safelist && r.hover in Safelist && forall c :: c in r.numeral ==> c in Safelist
  {
    var r := GetElementColors(name);
    HueClassesSafelisted(r.bg.hue);
    assert r.bg in HueClasses(r.bg.hue) && r.hover in HueClasses(r.bg.hue);
    assert r.numeral[0] in HueClasses(r.bg.hue) && r.numeral[1] in HueClasses(r.bg.hue);
  }

  /** A palette's `numeral` attribute is its two numeral classes separated by a space. */
  lemma PaletteNumeralText(h: Hue)
    ensures Palette(h).NumeralText() == Render(Palette(h).numeral[0]) + " " + Render(Palette(h).numeral[1])
  {
    var n := Palette(h).numeral;
    var parts := seq(|n|, i requires 0 <= i < |n| => Render(n[i]));
    assert parts == [Render(n[0])] + [Render(n[1])];
    JoinAppend([Render(n[0])], [Render(n[1])], " ");
  }

  /** The `numeral` attribute is two safelisted classes separated by a space. */
  lemma NumeralIsTwoClasses(name: string)
    ensures var r := GetElementColors(name);
      |r.numeral| == 2 && r.numeral[0] in Safelist && r.numeral[1] in Safelist &&
      r.NumeralText() == Render(r.numeral[0]) + " " + Render(r.numeral[1])
  {
    ClassesSafelisted(name);
    PaletteNumeralText(GetElementColors(name).bg.hue);
  }

  lemma HueNameHasNoDash(h: Hue)
    ensures forall i :: 0 <= i < |HueName(h)| ==> HueName(h)[i] != '-'
  {
  }

  /** A hue name followed by text starting with `-` determines both. */
  lemma HueNameDelimited(h1: Hue, h2: Hue, r1: string, r2: string)
    requires HueName(h1) + r1 == HueName(h2) + r2
    requires |r1| > 0 && r1[0] == '-' && |r2| > 0 && r2[0] == '-'
    ensures h1 == h2 && r1 == r2
  {
    var n1, n2 := HueName(h1), HueName(h2);
    HueNameHasNoDash(h1);
    HueNameHasNoDash(h2);
    assert n1 == (n1 + r1)[..|n1|];
    assert n2 == (n2 + r2)[..|n2|];
    assert r1 == (n1 + r1)[|n1|..];
    assert r2 == (n2 + r2)[|n2|..];
  }

  /** Equal texts with a common prefix agree after it. */
  lemma DropPrefix(p: string, x: string, y: string)
    requires p + x == p + y
    ensures x == y
  {
    assert x == (p + x)[|p|..];
    assert y == (p + y)[|p|..];
  }

  lemma BackgroundInjective(h1: Hue, o1: nat, h2: Hue, o2: nat)
    requires Background(h1, o1) == Background(h2, o2)
    ensures h1 == h2 && o1 == o2
  {
    DropPrefix("bg-", HueName(h1) + Shade(o1), HueName(h2) + Shade(o2));
    HueNameDelimited(h1, h2, Shade(o1), Shade(o2));
    DropPrefix("-900/", NatToString(o1), NatToString(o2));
    NatToStringRoundTrip(o1);
    NatToStringRoundTrip(o2);
  }

  /** The first letter tells a hover class (`h`) from a plain one (`b`). */
  lemma RenderHead(c: ColorClass)
    ensures Render(c)[0] == if c.hover then 'h' else 'b'
  {
  }

  /** Distinct classes render to distinct names, so the safelist names each class once. */
  lemma RenderInjective(a: ColorClass, b: ColorClass)
    requires Render(a) == Render(b)
    ensures a == b
  {
    var ba, bb := Background(a.hue, a.opacity), Background(b.hue, b.opacity);
    RenderHead(a);
    RenderHead(b);
    if a.hover {
      assert ba == Render(a)[6..];
      assert bb == Render(b)[6..];
    } else {
      assert Render(a) == ba && Render(b) == bb;
    }
    BackgroundInjective(a.hue, a.opacity, b.hue, b.opacity);
  }
}
