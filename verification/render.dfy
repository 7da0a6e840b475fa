/** `renderWidget` with the markup abstracted into a structured view: the
    quote line, the perils region, the links region, the underwriter line
    and whether the protection checkbox was wired to the callback. */
module Render {
  import opened JsValues
  import opened Types

  /** The perils region: the placeholder, or a `Perils:` header over one
      entry per peril. */
  datatype PerilsRegion = NoPerilsPlaceholder | PerilList(entries: seq<string>)

  /** One link entry: its target and its visible text. */
  datatype LinkEntry = LinkEntry(href: string, text: string)

  datatype WidgetView = WidgetView(
    quote: string,
    perils: PerilsRegion,
    links: seq<LinkEntry>,
    underwriter: string,
    toggleWired: bool
  )

  /** The text of one peril entry: the peril's `description` property as a
      template literal prints it. */
  function PerilText(p: Peril): string {
    TemplateText(p.description)
  }

  /** The entries of a non-empty perils list, one per peril in order. */
  function PerilEntries(ps: seq<Peril>): (r: seq<string>)
    ensures |r| == |ps|
    ensures forall i :: 0 <= i < |ps| ==> r[i] == PerilText(ps[i])
  {
    if |ps| == 0 then [] else [PerilText(ps[0])] + PerilEntries(ps[1..])
  }

  function PerilsRegionOf(ps: seq<Peril>): (r: PerilsRegion)
    ensures r.NoPerilsPlaceholder? <==> |ps| == 0
    ensures r.PerilList? ==> |r.entries| == |ps|
    ensures r.PerilList? ==> forall i :: 0 <= i < |ps| ==> r.entries[i] == PerilText(ps[i])
  {
    if |ps| > 0 then PerilList(PerilEntries(ps)) else NoPerilsPlaceholder
  }

  /** One link entry per link, in order, labelled with the raw link type. */
  function LinkEntries(ls: seq<Link>): (r: seq<LinkEntry>)
    ensures |r| == |ls|
    ensures forall i :: 0 <= i < |ls| ==> r[i].href == ls[i].url && r[i].text == ls[i].kind
  {
    if |ls| == 0 then [] else [LinkEntry(ls[0].url, ls[0].kind)] + LinkEntries(ls[1..])
  }

  /** `name (legal_name)`. */
  function UnderwriterLine(u: Underwriter): (r: string)
    ensures |r| == |u.name| + |u.legalName| + 3
    ensures r[..|u.name|] == u.name
    ensures r[|u.name|..|u.name| + 2] == " ("
    ensures r[|u.name| + 2..|r| - 1] == u.legalName
    ensures r[|r| - 1] == ')'
  {
    u.name + " (" + u.legalName + ")"
  }

  /** The view written for a present response. The checkbox listener is
      attached only when the stored configuration holds a callback. */
  function ComposeView(d: ICWResponse, hasCallback: bool): WidgetView {
    WidgetView(d.quoteLiteral, PerilsRegionOf(d.perils), LinkEntries(d.links),
               UnderwriterLine(d.underwriter), hasCallback)
  }

  /** No ` (` occurs in `s`. */
  predicate NoOpenParen(s: string) {
    forall i :: 0 <= i < |s| - 1 ==> !(s[i] == ' ' && s[i + 1] == '(')
  }

  /** The underwriter line determines the name and the legal name, as long
      as the names hold no ` (`. */
  lemma UnderwriterLineInjective(u: Underwriter, v: Underwriter)
    requires NoOpenParen(u.name) && NoOpenParen(v.name)
    requires UnderwriterLine(u) == UnderwriterLine(v)
    ensures u.name == v.name && u.legalName == v.legalName
  {
    var line := UnderwriterLine(u);
    OpenParenFollowsName(u.name, u.legalName + ")");
    OpenParenFollowsName(v.name, v.legalName + ")");
    assert line == u.name + " (" + (u.legalName + ")");
    assert line == v.name + " (" + (v.legalName + ")");
    assert u.name == line[..|u.name|] == v.name;
    assert u.legalName == line[|u.name| + 2..|line| - 1] == v.legalName;
  }

  /** Index of the first ` (` in `s`, or `|s|` when there is none. */
  function OpenParenAt(s: string): (i: nat)
    ensures i <= |s|
  {
    if |s| < 2 then |s|
    else if s[0] == ' ' && s[1] == '(' then 0
    else 1 + OpenParenAt(s[1..])
  }

  /** In `name (rest`, the first ` (` is the one after the name. */
  lemma {:induction false} OpenParenFollowsName(name: string, rest: string)
    requires NoOpenParen(name)
    ensures OpenParenAt(name + " (" + rest) == |name|
  {
    var s := name + " (" + rest;
    if |name| > 0 {
      assert s[0] == name[0];
      assert s[1] == (if |name| > 1 then name[1] else ' ');
      assert s[1..] == name[1..] + " (" + rest;
      OpenParenFollowsName(name[1..], rest);
    }
  }

  /** Reads the link types back from the links region: the region loses
      nothing of the response's link list. */
  function LinksOf(entries: seq<LinkEntry>): (r: seq<Link>)
    ensures |r| == |entries|
  {
    if |entries| == 0 then [] else [Link(entries[0].href, entries[0].text)] + LinksOf(entries[1..])
  }

  lemma {:induction false} LinksRoundTrip(ls: seq<Link>)
    ensures LinksOf(LinkEntries(ls)) == ls
  {
    if |ls| > 0 {
      assert LinkEntries(ls)[1..] == LinkEntries(ls[1..]);
      LinksRoundTrip(ls[1..]);
    }
  }

  /** A peril carrying only the declared properties shows as `undefined`. */
  lemma DeclaredPerilShowsUndefined(p: Peril)
    requires p.description.None?
    ensures PerilsRegionOf([p]) == PerilList(["undefined"])
  {
  }

  /** The perils region is built from the list alone, entry by entry:
      appending a peril appends its entry. */
  lemma {:induction false} PerilEntriesAppend(ps: seq<Peril>, p: Peril)
    ensures PerilEntries(ps + [p]) == PerilEntries(ps) + [PerilText(p)]
  {
    if |ps| > 0 {
      assert (ps + [p])[1..] == ps[1..] + [p];
      PerilEntriesAppend(ps[1..], p);
    } else {
      assert ps + [p] == [p];
    }
  }
}
