/** The icon and link-label lookup tables and the icon markup builder of
    `utils.ts`. */
module Icons {
  import opened Wrappers
  import opened JsValues

  /** Symbolic icon names to Material Icons ligature names. */
  const IconMap: map<string, string> := map[
    "AirplanemodeInactive" := "airplanemode_inactive",
    "CarCrash" := "car_crash",
    "Thunderstorm" := "thunderstorm",
    "Healing" := "healing",
    "Coronavirus" := "coronavirus",
    "Gavel" := "gavel",
    "Link" := "link"
  ]

  /** Link types to human labels. */
  const TranslateLink: map<string, string> := map[
    "faq" := "FAQ",
    "help_center" := "Help Center",
    "RefundTerms" := "Refund Terms"
  ]

  const FallbackGlyph := "help_outline"
  const SpanOpen := "<span class=\"material-icons\""
  const SpanClose := "</span>"

  /** Indexing the table: undefined for a name that is not a key. */
  function LookupIcon(name: string): (r: Option<string>)
    ensures r.Some? <==> name in IconMap
    ensures r.Some? ==> r.value == IconMap[name]
  {
    if name in IconMap then Some(IconMap[name]) else None
  }

  /** The glyph shown: `icon || 'help_outline'`. */
  function Glyph(name: string): string {
    Or(LookupIcon(name), FallbackGlyph)
  }

  /** The attribute text placed inside the opening tag: title and
      aria-label, both carrying the tooltip, only when it is truthy. */
  function TooltipAttributes(tooltip: Option<string>): string {
    if Truthy(tooltip) then
      " title=\"" + tooltip.value + "\"" + " aria-label=\"" + tooltip.value + "\""
    else ""
  }

  /** The opening tag of the icon span, up to and including its `>`. */
  function OpenTag(tooltip: Option<string>): string {
    SpanOpen + TooltipAttributes(tooltip) + ">"
  }

  /** `createMaterialIcon(iconName, tooltip)`: the markup of one icon. */
  function CreateMaterialIcon(iconName: string, tooltip: Option<string>): (r: string)
    ensures |r| >= |SpanOpen| + 1 + |SpanClose|
    ensures r[..|SpanOpen|] == SpanOpen
    ensures r[|r| - |SpanClose|..] == SpanClose
  {
    OpenTag(tooltip) + Glyph(iconName) + SpanClose
  }

  /** Every glyph in the table is non-empty and differs from the fallback. */
  lemma MappedGlyphsAreProper(name: string)
    requires name in IconMap
    ensures IconMap[name] != ""
    ensures IconMap[name] != FallbackGlyph
  {
  }

  /** A known name shows its mapped glyph, e.g. `CarCrash` shows `car_crash`. */
  lemma KnownIconShowsMappedGlyph(name: string, tooltip: Option<string>)
    requires name in IconMap
    ensures CreateMaterialIcon(name, tooltip) == OpenTag(tooltip) + IconMap[name] + SpanClose
  {
    MappedGlyphsAreProper(name);
  }

  /** An unknown name shows exactly the fallback glyph. */
  lemma UnknownIconShowsFallback(name: string, tooltip: Option<string>)
    requires name !in IconMap
    ensures CreateMaterialIcon(name, tooltip) == OpenTag(tooltip) + FallbackGlyph + SpanClose
  {
  }

  /** The fallback glyph is shown if and only if the name is not a key. */
  lemma FallbackIffAbsent(name: string)
    ensures Glyph(name) == FallbackGlyph <==> name !in IconMap
  {
    if name in IconMap {
      MappedGlyphsAreProper(name);
    }
  }

  /** With a non-empty tooltip T the opening tag carries ` title="T"` and
      then ` aria-label="T"`, in that order, before its `>`. */
  lemma TooltipGivesTitleThenAriaLabel(iconName: string, t: string)
    requires t != ""
    ensures CreateMaterialIcon(iconName, Some(t)) ==
      SpanOpen + " title=\"" + t + "\"" + " aria-label=\"" + t + "\"" + ">" + Glyph(iconName) + SpanClose
  {
    var attrs := " title=\"" + t + "\"" + " aria-label=\"" + t + "\"";
    assert TooltipAttributes(Some(t)) == attrs;
    assert CreateMaterialIcon(iconName, Some(t)) == SpanOpen + attrs + ">" + Glyph(iconName) + SpanClose;
  }

  /** With an absent or empty tooltip the markup has no attributes at all. */
  lemma NoTooltipGivesBareSpan(iconName: string, tooltip: Option<string>)
    requires tooltip == None || tooltip == Some("")
    ensures CreateMaterialIcon(iconName, tooltip) == "<span class=\"material-icons\">" + Glyph(iconName) + "</span>"
  {
  }

  /** The link-label table has exactly three keys, with these labels. */
  lemma TranslateLinkTable()
    ensures TranslateLink.Keys == {"faq", "help_center", "RefundTerms"}
    ensures TranslateLink["faq"] == "FAQ"
    ensures TranslateLink["help_center"] == "Help Center"
    ensures TranslateLink["RefundTerms"] == "Refund Terms"
  {
  }

  /** Index of the first `c` in `s`, or `|s|` when there is none. */
  function IndexOf(s: string, c: char): (i: nat)
    ensures i <= |s|
    ensures i < |s| ==> s[i] == c
    ensures forall j :: 0 <= j < i ==> s[j] != c
  {
    if |s| == 0 then 0 else if s[0] == c then 0 else 1 + IndexOf(s[1..], c)
  }

  /** Reads the glyph back out of icon markup: the text between the first
      `>` and the closing `</span>`. */
  function ReadGlyph(html: string): Option<string> {
    var i := IndexOf(html, '>');
    if i < |html| && i + 1 + |SpanClose| <= |html| && html[|html| - |SpanClose|..] == SpanClose
    then Some(html[i + 1 .. |html| - |SpanClose|])
    else None
  }

  lemma {:induction false} IndexOfSkipsPrefix(a: string, b: string, c: char)
    requires c !in a
    ensures IndexOf(a + b, c) == |a| + IndexOf(b, c)
  {
    if |a| > 0 {
      assert (a + b)[1..] == a[1..] + b;
      IndexOfSkipsPrefix(a[1..], b, c);
    } else {
      assert a + b == b;
    }
  }

  /** The opening tag holds no `>` before its last character when the
      tooltip holds none. */
  lemma HeadHasNoBracket(tooltip: Option<string>)
    requires tooltip.Some? ==> '>' !in tooltip.value
    ensures '>' !in SpanOpen + TooltipAttributes(tooltip)
  {
    assert '>' !in SpanOpen;
    if Truthy(tooltip) {
      assert '>' !in " title=\"";
      assert '>' !in "\"";
      assert '>' !in " aria-label=\"";
    }
  }

  /** Markup made of a head without `>`, then `>`, a glyph and the closing
      tag reads back as that glyph. */
  lemma ReadGlyphOfParts(head: string, g: string)
    requires '>' !in head
    ensures ReadGlyph(head + ">" + g + SpanClose) == Some(g)
  {
    var tail := ">" + g + SpanClose;
    var html := head + ">" + g + SpanClose;
    assert html == head + tail;
    IndexOfSkipsPrefix(head, tail, '>');
    assert tail[0] == '>';
    assert IndexOf(html, '>') == |head|;
    assert html[|html| - |SpanClose|..] == SpanClose;
    assert html[|head| + 1 .. |html| - |SpanClose|] == g;
  }

  /** Reading the glyph back from the markup gives the glyph that was put
      in, provided the tooltip holds no `>` (the tooltip is not escaped). */
  lemma ReadGlyphInvertsCreate(iconName: string, tooltip: Option<string>)
    requires tooltip.Some? ==> '>' !in tooltip.value
    ensures ReadGlyph(CreateMaterialIcon(iconName, tooltip)) == Some(Glyph(iconName))
  {
    var head := SpanOpen + TooltipAttributes(tooltip);
    HeadHasNoBracket(tooltip);
    assert CreateMaterialIcon(iconName, tooltip) == head + ">" + Glyph(iconName) + SpanClose;
    ReadGlyphOfParts(head, Glyph(iconName));
  }
}
