/** The Markdown documents the generator writes.  Each page is a template
    literal whose every line ends in a newline, so it is modelled as its list
    of lines (the file content is `Unlines` of that list).  Each page has a
    reader that recovers what the page shows; the round-trip lemmas state
    what a reader of the page learns about the record it was rendered from.

    `startCase` is lodash's `_.startCase`, passed in as a parameter. */
module Pages {
  import opened Wrappers
  import opened Text
  import opened Normalizer
  import opened Grouping

  /** The text shown in place of an empty description. */
  const Placeholder: string := "Sem descrição fornecida."

  /** `description || 'Sem descrição fornecida.'` */
  function Shown(description: string): string {
    if description == "" then Placeholder else description
  }

  // ---------------------------------------------------------------------------
  // index.md
  // ---------------------------------------------------------------------------

  const TitleSuffix: string := " - Design System"
  const StylesTotal: string := "Total de estilos: "
  const ComponentsTotal: string := "Total de componentes: "
  const Overview: string := "Este documento contém " + "a documentação do " + "design system."

  /** `generateIndexPage`: the file name and the two totals.  Only the file
      name can break a line. */
  function IndexLines(fileName: string, styleCount: nat, componentCount: nat): (r: seq<string>)
    ensures |r| == 13
    ensures SingleLine(fileName) ==> AllSingleLine(r)
  {
    IndexTextSingleLine();
    DigitsSingleLine(NatToString(styleCount));
    DigitsSingleLine(NatToString(componentCount));
    [ "# " + fileName + TitleSuffix,
      "",
      "## Visão Geral",
      "",
      Overview,
      "",
      "## Estilos",
      "",
      StylesTotal + NatToString(styleCount),
      "",
      "## Componentes",
      "",
      ComponentsTotal + NatToString(componentCount) ]
  }

  /** None of the fixed texts of the index page holds a newline. */
  lemma IndexTextSingleLine()
    ensures SingleLine("") && SingleLine("# ") && SingleLine(TitleSuffix)
    ensures SingleLine("## Visão Geral") && SingleLine(Overview)
    ensures SingleLine("## Estilos") && SingleLine("## Componentes")
    ensures SingleLine(StylesTotal) && SingleLine(ComponentsTotal)
  {
    TitleTextSingleLine();
    OverviewSingleLine();
    TotalsSingleLine();
  }

  lemma TitleTextSingleLine()
    ensures SingleLine("") && SingleLine("# ") && SingleLine(TitleSuffix)
    ensures SingleLine("## Estilos") && SingleLine("## Componentes")
  {
  }

  lemma OverviewSingleLine()
    ensures SingleLine("## Visão Geral") && SingleLine(Overview)
  {
    HeadingTextSingleLine();
    OverviewTextSingleLine();
  }

  lemma HeadingTextSingleLine()
    ensures SingleLine("## Visão Geral")
  {
  }

  lemma OverviewTextSingleLine()
    ensures SingleLine(Overview)
  {
  }

  lemma TotalsSingleLine()
    ensures SingleLine(StylesTotal) && SingleLine(ComponentsTotal)
  {
  }

  /** What the index page tells its reader. */
  datatype IndexView = IndexView(fileName: string, styles: nat, components: nat)

  function ReadIndex(lines: seq<string>): Option<IndexView> {
    if |lines| != 13 then None
    else
      var title := StripPrefix(lines[0], "# ");
      var styles := StripPrefix(lines[8], StylesTotal);
      var components := StripPrefix(lines[12], ComponentsTotal);
      if title.None? || styles.None? || components.None? then None
      else
        var name := StripSuffix(title.value, TitleSuffix);
        var s := ParseNat(styles.value);
        var c := ParseNat(components.value);
        if name.None? || s.None? || c.None? then None
        else Some(IndexView(name.value, s.value, c.value))
  }

  /** The index page names the file and reports exactly the two counts. */
  lemma IndexRoundTrip(fileName: string, styleCount: nat, componentCount: nat)
    ensures ReadIndex(IndexLines(fileName, styleCount, componentCount))
            == Some(IndexView(fileName, styleCount, componentCount))
  {
    var lines := IndexLines(fileName, styleCount, componentCount);
    StripPrefixConcat("# ", fileName + TitleSuffix);
    assert lines[0] == "# " + (fileName + TitleSuffix);
    StripSuffixConcat(fileName, TitleSuffix);
    StripPrefixConcat(StylesTotal, NatToString(styleCount));
    StripPrefixConcat(ComponentsTotal, NatToString(componentCount));
    ParseNatToString(styleCount);
    ParseNatToString(componentCount);
  }

  /** The written `index.md`, cut at its newlines, names the file and reports
      the two counts, whenever the file name is a single line. */
  lemma IndexFileRoundTrip(fileName: string, styleCount: nat, componentCount: nat)
    requires SingleLine(fileName)
    ensures ReadIndex(LinesOf(Unlines(IndexLines(fileName, styleCount, componentCount))))
            == Some(IndexView(fileName, styleCount, componentCount))
  {
    LinesOfUnlines(IndexLines(fileName, styleCount, componentCount));
    IndexRoundTrip(fileName, styleCount, componentCount);
  }

  // ---------------------------------------------------------------------------
  // styles/<type>/<id>.md
  // ---------------------------------------------------------------------------

  const TypeLabel: string := "**Tipo:** "
  const NodeLabel: string := "**ID do Nó:** "

  /** `generateStylePage(stylesDir, type, style)`; `styleType` is the key of
      the group the style was listed under. */
  function StylePageLines(styleType: string, s: StyleRecord, startCase: string -> string): (r: seq<string>)
    ensures |r| == 8 && r[7] == Shown(s.description)
    ensures SingleLine(s.name) && SingleLine(startCase(styleType)) && SingleLine(s.nodeId)
            ==> AllSingleLine(r[..7])
  {
    PageTextSingleLine();
    [ "# " + s.name,
      "",
      TypeLabel + startCase(styleType),
      "",
      NodeLabel + s.nodeId,
      "",
      "",
      Shown(s.description) ]
  }

  /** None of the fixed texts of the style and component pages holds a
      newline. */
  lemma PageTextSingleLine()
    ensures SingleLine("") && SingleLine("# ")
    ensures SingleLine(TypeLabel) && SingleLine(NodeLabel) && SingleLine(RemoteLabel)
    ensures SingleLine(YesNo(true)) && SingleLine(YesNo(false))
    ensures SingleLine(ThumbnailOpen) && SingleLine(ThumbnailClose)
  {
    TitleTextSingleLine();
    LabelsSingleLine();
    FlagsSingleLine();
  }

  lemma LabelsSingleLine()
    ensures SingleLine(TypeLabel) && SingleLine(NodeLabel) && SingleLine(RemoteLabel)
  {
  }

  lemma FlagsSingleLine()
    ensures SingleLine(YesNo(true)) && SingleLine(YesNo(false))
    ensures SingleLine(ThumbnailOpen) && SingleLine(ThumbnailClose)
  {
  }

  /** What a style page tells its reader. */
  datatype StylePageView = StylePageView(name: string, typeTitle: string, nodeId: string, body: string)

  function ReadStylePage(lines: seq<string>): Option<StylePageView> {
    if |lines| != 8 then None
    else
      var name := StripPrefix(lines[0], "# ");
      var typeTitle := StripPrefix(lines[2], TypeLabel);
      var nodeId := StripPrefix(lines[4], NodeLabel);
      if name.None? || typeTitle.None? || nodeId.None? then None
      else Some(StylePageView(name.value, typeTitle.value, nodeId.value, lines[7]))
  }

  /** A style page shows the style's name, its title-cased type, its node id,
      and its description, or the placeholder when the description is
      empty. */
  lemma StylePageRoundTrip(styleType: string, s: StyleRecord, startCase: string -> string)
    ensures var v := ReadStylePage(StylePageLines(styleType, s, startCase));
            && v.Some?
            && v.value.name == s.name
            && v.value.typeTitle == startCase(styleType)
            && v.value.nodeId == s.nodeId
            && (s.description != "" ==> v.value.body == s.description)
            && (s.description == "" ==> v.value.body == Placeholder)
  {
    StripPrefixConcat("# ", s.name);
    StripPrefixConcat(TypeLabel, startCase(styleType));
    StripPrefixConcat(NodeLabel, s.nodeId);
  }

  /** Reads a style page from the written text: seven header lines, then the
      description up to the final newline, however many lines it spans. */
  function ReadStylePageFile(content: string): Option<StylePageView> {
    var pieces := Split(content, '\n');
    if |pieces| < 9 || pieces[|pieces| - 1] != "" then None
    else ReadStylePage(pieces[..7] + [Join(pieces[7..|pieces| - 1], '\n')])
  }

  /** The written style page shows the same as its lines do, a description
      with newlines included, whenever the name, the title-cased type and the
      node id are single lines. */
  lemma StylePageFileRoundTrip(styleType: string, s: StyleRecord, startCase: string -> string)
    requires SingleLine(s.name) && SingleLine(startCase(styleType)) && SingleLine(s.nodeId)
    ensures var v := ReadStylePageFile(Unlines(StylePageLines(styleType, s, startCase)));
            && v.Some?
            && v.value.name == s.name
            && v.value.typeTitle == startCase(styleType)
            && v.value.nodeId == s.nodeId
            && (s.description != "" ==> v.value.body == s.description)
            && (s.description == "" ==> v.value.body == Placeholder)
  {
    var lines := StylePageLines(styleType, s, startCase);
    var head := lines[..7];
    var body := Shown(s.description);
    assert lines == head + ([body] + []);
    SplitDocument(head, body, []);
    var parts := Split(body, '\n');
    DocumentSlices(head, parts, []);
    JoinSplit(body, '\n');
    assert head + [body] == lines;
    StylePageRoundTrip(styleType, s, startCase);
  }

  // ---------------------------------------------------------------------------
  // components/<id>.md
  // ---------------------------------------------------------------------------

  const RemoteLabel: string := "**Remoto:** "
  const ThumbnailOpen: string := "![Thumbnail]("
  const ThumbnailClose: string := ")"

  /** `component.remote ? 'Sim' : 'Não'` */
  function YesNo(b: bool): string {
    if b then "Sim" else "Não"
  }

  /** The thumbnail line: an image reference, or an empty line when there is
      no thumbnail URL. */
  function ThumbnailLine(url: string): string {
    if url != "" then ThumbnailOpen + url + ThumbnailClose else ""
  }

  /** `generateComponentPage(componentsDir, component)`. */
  function ComponentPageLines(c: ComponentRecord): (r: seq<string>)
    ensures |r| == 10 && r[7] == Shown(c.description)
    ensures SingleLine(c.name) && SingleLine(c.nodeId) ==> AllSingleLine(r[..7])
    ensures SingleLine(c.thumbnailUrl) ==> AllSingleLine(r[8..])
  {
    PageTextSingleLine();
    [ "# " + c.name,
      "",
      NodeLabel + c.nodeId,
      "",
      RemoteLabel + YesNo(c.remote),
      "",
      "",
      Shown(c.description),
      "",
      ThumbnailLine(c.thumbnailUrl) ]
  }

  /** What a component page tells its reader. */
  datatype ComponentPageView = ComponentPageView(
    name: string, nodeId: string, remote: bool, body: string, thumbnail: Option<string>)

  function ReadYesNo(s: string): Option<bool> {
    if s == "Sim" then Some(true) else if s == "Não" then Some(false) else None
  }

  function ReadThumbnail(line: string): Option<Option<string>> {
    if line == "" then Some(None)
    else
      var inner := StripPrefix(line, ThumbnailOpen);
      if inner.None? then None
      else
        var url := StripSuffix(inner.value, ThumbnailClose);
        if url.None? then None else Some(Some(url.value))
  }

  function ReadComponentPage(lines: seq<string>): Option<ComponentPageView> {
    if |lines| != 10 then None
    else
      var name := StripPrefix(lines[0], "# ");
      var nodeId := StripPrefix(lines[2], NodeLabel);
      var remote := StripPrefix(lines[4], RemoteLabel);
      var thumbnail := ReadThumbnail(lines[9]);
      if name.None? || nodeId.None? || remote.None? || thumbnail.None? then None
      else
        var flag := ReadYesNo(remote.value);
        if flag.None? then None
        else Some(ComponentPageView(name.value, nodeId.value, flag.value, lines[7], thumbnail.value))
  }

  /** A component page shows the name, the node id, the remote flag as
      'Sim'/'Não', the description or the placeholder, and a thumbnail
      reference exactly when the thumbnail URL is non-empty. */
  lemma ComponentPageRoundTrip(c: ComponentRecord)
    ensures var v := ReadComponentPage(ComponentPageLines(c));
            && v.Some?
            && v.value.name == c.name
            && v.value.nodeId == c.nodeId
            && v.value.remote == c.remote
            && (c.description != "" ==> v.value.body == c.description)
            && (c.description == "" ==> v.value.body == Placeholder)
            && (v.value.thumbnail.Some? <==> c.thumbnailUrl != "")
            && (v.value.thumbnail.Some? ==> v.value.thumbnail.value == c.thumbnailUrl)
  {
    StripPrefixConcat("# ", c.name);
    StripPrefixConcat(NodeLabel, c.nodeId);
    StripPrefixConcat(RemoteLabel, YesNo(c.remote));
    if c.thumbnailUrl != "" {
      var line := ThumbnailOpen + c.thumbnailUrl + ThumbnailClose;
      assert line == ThumbnailOpen + (c.thumbnailUrl + ThumbnailClose);
      StripPrefixConcat(ThumbnailOpen, c.thumbnailUrl + ThumbnailClose);
      StripSuffixConcat(c.thumbnailUrl, ThumbnailClose);
      assert line != "";
    }
  }

  /** Reads a component page from the written text: seven header lines, the
      description however many lines it spans, then a blank line and the
      thumbnail line before the final newline. */
  function ReadComponentPageFile(content: string): Option<ComponentPageView> {
    var pieces := Split(content, '\n');
    if |pieces| < 11 || pieces[|pieces| - 1] != "" then None
    else ReadComponentPage(pieces[..7] + [Join(pieces[7..|pieces| - 3], '\n')] + pieces[|pieces| - 3..|pieces| - 1])
  }

  /** The written component page shows the same as its lines do, a
      description with newlines included, whenever the name, the node id and
      the thumbnail URL are single lines. */
  lemma ComponentPageFileRoundTrip(c: ComponentRecord)
    requires SingleLine(c.name) && SingleLine(c.nodeId) && SingleLine(c.thumbnailUrl)
    ensures var v := ReadComponentPageFile(Unlines(ComponentPageLines(c)));
            && v.Some?
            && v.value.name == c.name
            && v.value.nodeId == c.nodeId
            && v.value.remote == c.remote
            && (c.description != "" ==> v.value.body == c.description)
            && (c.description == "" ==> v.value.body == Placeholder)
            && (v.value.thumbnail.Some? <==> c.thumbnailUrl != "")
            && (v.value.thumbnail.Some? ==> v.value.thumbnail.value == c.thumbnailUrl)
  {
    var lines := ComponentPageLines(c);
    var head := lines[..7];
    var body := Shown(c.description);
    var tail := lines[8..];
    assert lines == head + ([body] + tail);
    SplitDocument(head, body, tail);
    var parts := Split(body, '\n');
    DocumentSlices(head, parts, tail);
    JoinSplit(body, '\n');
    assert head + [body] + tail == lines;
    ComponentPageRoundTrip(c);
  }

  // ---------------------------------------------------------------------------
  // styles/README.md
  // ---------------------------------------------------------------------------

  const LinkPrefix: string := "- "
  const HeadingPrefix: string := "## "

  /** A Markdown list item. */
  function Bullet(item: string): string {
    LinkPrefix + item
  }

  /** `[text](target)` */
  function MarkdownLink(text: string, target: string): string {
    "[" + text + "](" + target + ")"
  }

  /** `- [name](type/id.md)`, relative to the styles directory. */
  function StyleLink(styleType: string, s: StyleRecord): string {
    Bullet(MarkdownLink(s.name, styleType + "/" + s.id + ".md"))
  }

  function StyleLinks(styleType: string, members: seq<StyleRecord>): (r: seq<string>)
    ensures |r| == |members|
    ensures forall i :: 0 <= i < |members| ==> r[i] == StyleLink(styleType, members[i])
  {
    seq(|members|, i requires 0 <= i < |members| => StyleLink(styleType, members[i]))
  }

  function Heading(styleType: string, startCase: string -> string): string {
    HeadingPrefix + startCase(styleType)
  }

  /** One type section: heading, blank line, one link per style, blank line. */
  function SectionLines(g: Group, startCase: string -> string): seq<string> {
    [Heading(g.key, startCase), ""] + StyleLinks(g.key, g.members) + [""]
  }

  function SectionsLines(gs: seq<Group>, startCase: string -> string): seq<string> {
    if |gs| == 0 then [] else SectionLines(gs[0], startCase) + SectionsLines(gs[1..], startCase)
  }

  /** The styles index built by `generateStylesPages`.  Only the groups'
      types, title-cased types, names and ids can break a line. */
  function StylesReadmeLines(gs: seq<Group>, startCase: string -> string): (r: seq<string>)
    ensures (forall i :: 0 <= i < |gs| ==> GroupSingleLine(gs[i], startCase)) ==> AllSingleLine(r)
  {
    ReadmeTextSingleLine();
    SectionsSingleLine(gs, startCase);
    AllSingleLineAppend(["# Estilos", ""], SectionsLines(gs, startCase));
    ["# Estilos", ""] + SectionsLines(gs, startCase)
  }

  /** Every text a group puts into the styles index fits on one line. */
  predicate GroupSingleLine(g: Group, startCase: string -> string) {
    && SingleLine(g.key)
    && SingleLine(startCase(g.key))
    && forall s :: s in g.members ==> SingleLine(s.name) && SingleLine(s.id)
  }

  /** None of the fixed texts of the two indexes holds a newline. */
  lemma ReadmeTextSingleLine()
    ensures SingleLine("") && SingleLine("# Estilos") && SingleLine("# Componentes")
    ensures SingleLine(HeadingPrefix) && SingleLine(LinkPrefix)
    ensures SingleLine("[") && SingleLine("](") && SingleLine(")") && SingleLine("/") && SingleLine(".md")
  {
    ReadmeTitlesSingleLine();
    LinkTextSingleLine();
  }

  lemma ReadmeTitlesSingleLine()
    ensures SingleLine("") && SingleLine("# Estilos") && SingleLine("# Componentes")
  {
  }

  lemma LinkTextSingleLine()
    ensures SingleLine(HeadingPrefix) && SingleLine(LinkPrefix)
    ensures SingleLine("[") && SingleLine("](") && SingleLine(")") && SingleLine("/") && SingleLine(".md")
  {
  }

  /** A list item linking single-line text to a single-line target is one
      line. */
  lemma LinkSingleLine(text: string, target: string)
    requires SingleLine(text) && SingleLine(target)
    ensures SingleLine(Bullet(MarkdownLink(text, target)))
  {
    LinkTextSingleLine();
  }

  lemma StyleLinkSingleLine(styleType: string, s: StyleRecord)
    requires SingleLine(styleType) && SingleLine(s.name) && SingleLine(s.id)
    ensures SingleLine(StyleLink(styleType, s))
  {
    LinkTextSingleLine();
    LinkSingleLine(s.name, styleType + "/" + s.id + ".md");
  }

  lemma SectionSingleLine(g: Group, startCase: string -> string)
    requires GroupSingleLine(g, startCase)
    ensures AllSingleLine(SectionLines(g, startCase))
  {
    var links := StyleLinks(g.key, g.members);
    forall i | 0 <= i < |links| ensures SingleLine(links[i]) {
      assert g.members[i] in g.members;
      StyleLinkSingleLine(g.key, g.members[i]);
    }
    ReadmeTextSingleLine();
    var head := [Heading(g.key, startCase), ""];
    assert AllSingleLine(head);
    AllSingleLineAppend(head, links);
    AllSingleLineAppend(head + links, [""]);
  }

  lemma {:induction false} SectionsSingleLine(gs: seq<Group>, startCase: string -> string)
    ensures (forall i :: 0 <= i < |gs| ==> GroupSingleLine(gs[i], startCase)) ==> AllSingleLine(SectionsLines(gs, startCase))
  {
    if |gs| > 0 && forall i :: 0 <= i < |gs| ==> GroupSingleLine(gs[i], startCase) {
      assert forall i :: 0 <= i < |gs[1..]| ==> GroupSingleLine(gs[1..][i], startCase) by {
        forall i | 0 <= i < |gs[1..]| ensures GroupSingleLine(gs[1..][i], startCase) {
          assert gs[1..][i] == gs[i + 1];
        }
      }
      SectionsSingleLine(gs[1..], startCase);
      SectionSingleLine(gs[0], startCase);
      AllSingleLineAppend(SectionLines(gs[0], startCase), SectionsLines(gs[1..], startCase));
    }
  }

  /** The link lines of all groups, group by group. */
  function GroupLinks(gs: seq<Group>): seq<string> {
    if |gs| == 0 then [] else StyleLinks(gs[0].key, gs[0].members) + GroupLinks(gs[1..])
  }

  function Headings(gs: seq<Group>, startCase: string -> string): (r: seq<string>)
    ensures |r| == |gs|
    ensures forall i :: 0 <= i < |gs| ==> r[i] == Heading(gs[i].key, startCase)
  {
    seq(|gs|, i requires 0 <= i < |gs| => Heading(gs[i].key, startCase))
  }

  lemma BulletIsNotHeading(item: string)
    ensures StartsWith(Bullet(item), LinkPrefix)
    ensures !StartsWith(Bullet(item), HeadingPrefix)
  {
    StartsWithConcat(LinkPrefix, item);
    assert Bullet(item)[0] == '-';
    FirstCharDiffers(Bullet(item), HeadingPrefix);
  }

  lemma HeadingIsNotLink(styleType: string, startCase: string -> string)
    ensures StartsWith(Heading(styleType, startCase), HeadingPrefix)
    ensures !StartsWith(Heading(styleType, startCase), LinkPrefix)
  {
    StartsWithConcat(HeadingPrefix, startCase(styleType));
    assert Heading(styleType, startCase)[0] == '#';
    FirstCharDiffers(Heading(styleType, startCase), LinkPrefix);
  }

  /** A line that starts with neither a heading nor a bullet. */
  lemma PlainLine(line: string)
    requires line == "" || (line[0] == '#' && (|line| < 2 || line[1] != '#'))
    ensures !StartsWith(line, HeadingPrefix) && !StartsWith(line, LinkPrefix)
  {
    FirstCharDiffers(line, LinkPrefix);
    if line != "" && |line| >= 3 {
      assert line[..3][1] == line[1];
    }
  }

  /** The headings and link lines of one section. */
  lemma SectionStructure(g: Group, startCase: string -> string)
    ensures LinesStartingWith(SectionLines(g, startCase), HeadingPrefix) == [Heading(g.key, startCase)]
    ensures LinesStartingWith(SectionLines(g, startCase), LinkPrefix) == StyleLinks(g.key, g.members)
  {
    var links := StyleLinks(g.key, g.members);
    forall i | 0 <= i < |links|
      ensures StartsWith(links[i], LinkPrefix) && !StartsWith(links[i], HeadingPrefix)
    {
      BulletIsNotHeading(MarkdownLink(g.members[i].name, g.key + "/" + g.members[i].id + ".md"));
    }
    HeadingIsNotLink(g.key, startCase);
    PlainLine("");
    LinesStartingWithAll(links, LinkPrefix);
    LinesStartingWithNone(links, HeadingPrefix);
    var head := [Heading(g.key, startCase), ""];
    LinesStartingWithAppend(head, links, HeadingPrefix);
    LinesStartingWithAppend(head, links, LinkPrefix);
    LinesStartingWithAppend(head + links, [""], HeadingPrefix);
    LinesStartingWithAppend(head + links, [""], LinkPrefix);
  }

  /** The headings of the sections, one per group, in order. */
  lemma {:induction false} SectionsHeadings(gs: seq<Group>, startCase: string -> string)
    ensures LinesStartingWith(SectionsLines(gs, startCase), HeadingPrefix) == Headings(gs, startCase)
  {
    if |gs| > 0 {
      var first := SectionLines(gs[0], startCase);
      var rest := SectionsLines(gs[1..], startCase);
      assert SectionsLines(gs, startCase) == first + rest;
      SectionsHeadings(gs[1..], startCase);
      SectionStructure(gs[0], startCase);
      LinesStartingWithAppend(first, rest, HeadingPrefix);
      assert Headings(gs, startCase) == [Heading(gs[0].key, startCase)] + Headings(gs[1..], startCase);
    }
  }

  /** The link lines of the sections, group by group. */
  lemma {:induction false} SectionsLinks(gs: seq<Group>, startCase: string -> string)
    ensures LinesStartingWith(SectionsLines(gs, startCase), LinkPrefix) == GroupLinks(gs)
  {
    if |gs| > 0 {
      var first := SectionLines(gs[0], startCase);
      var rest := SectionsLines(gs[1..], startCase);
      assert SectionsLines(gs, startCase) == first + rest;
      SectionsLinks(gs[1..], startCase);
      SectionStructure(gs[0], startCase);
      LinesStartingWithAppend(first, rest, LinkPrefix);
    }
  }

  /** The link line of a style under its own type. */
  function OwnLink(s: StyleRecord): string {
    StyleLink(s.styleType, s)
  }

  function OwnLinks(styles: seq<StyleRecord>): (r: seq<string>)
    ensures |r| == |styles|
    ensures forall i :: 0 <= i < |styles| ==> r[i] == OwnLink(styles[i])
  {
    seq(|styles|, i requires 0 <= i < |styles| => OwnLink(styles[i]))
  }

  lemma {:induction false} OwnLinksAppend(a: seq<StyleRecord>, b: seq<StyleRecord>)
    ensures OwnLinks(a + b) == OwnLinks(a) + OwnLinks(b)
  {
  }

  /** The multiset of a sequence is that of the sequence without its
      element at `k`, plus that element. */
  lemma MultisetRemove<T>(ys: seq<T>, k: nat)
    requires k < |ys|
    ensures multiset(ys) == multiset(ys[..k] + ys[k + 1..]) + multiset{ys[k]}
  {
    assert ys == ys[..k] + [ys[k]] + ys[k + 1..];
  }

  lemma MultisetCancel<T>(a: multiset<T>, b: multiset<T>, x: T)
    requires a + multiset{x} == b + multiset{x}
    ensures a == b
  {
    assert a == (a + multiset{x}) - multiset{x};
    assert b == (b + multiset{x}) - multiset{x};
  }

  /** Taking the first element out of `xs` and an equal one out of `ys`
      keeps them permutations of each other. */
  lemma PermutationTail<A>(xs: seq<A>, ys: seq<A>, k: nat)
    requires |xs| > 0 && k < |ys| && ys[k] == xs[0]
    requires multiset(xs) == multiset(ys)
    ensures multiset(xs[1..]) == multiset(ys[..k] + ys[k + 1..])
  {
    assert xs[..0] + xs[1..] == xs[1..];
    MultisetRemove(ys, k);
    MultisetRemove(xs, 0);
    MultisetCancel(multiset(xs[1..]), multiset(ys[..k] + ys[k + 1..]), xs[0]);
  }

  /** `xs.map(f)` */
  function Map<A, B>(f: A -> B, xs: seq<A>): (r: seq<B>)
    ensures |r| == |xs|
    ensures forall i :: 0 <= i < |xs| ==> r[i] == f(xs[i])
  {
    seq(|xs|, i requires 0 <= i < |xs| => f(xs[i]))
  }

  lemma MapRemove<A, B>(f: A -> B, ys: seq<A>, k: nat)
    requires k < |ys|
    ensures multiset(Map(f, ys)) == multiset(Map(f, ys[..k] + ys[k + 1..])) + multiset{f(ys[k])}
  {
    var ls := Map(f, ys);
    MultisetRemove(ls, k);
    assert ls[..k] + ls[k + 1..] == Map(f, ys[..k] + ys[k + 1..]);
  }

  lemma MapHead<A, B>(f: A -> B, xs: seq<A>)
    requires |xs| > 0
    ensures multiset(Map(f, xs)) == multiset(Map(f, xs[1..])) + multiset{f(xs[0])}
  {
    assert Map(f, xs) == [f(xs[0])] + Map(f, xs[1..]);
  }

  /** Mapping two permutations of each other gives permutations of each
      other. */
  lemma {:induction false} MapPermutation<A, B>(f: A -> B, xs: seq<A>, ys: seq<A>)
    requires multiset(xs) == multiset(ys)
    ensures multiset(Map(f, xs)) == multiset(Map(f, ys))
    decreases |xs|
  {
    if |xs| > 0 {
      var x := xs[0];
      assert x in multiset(ys);
      assert x in ys;
      var k :| 0 <= k < |ys| && ys[k] == x;
      var rest := ys[..k] + ys[k + 1..];
      PermutationTail(xs, ys, k);
      MapPermutation(f, xs[1..], rest);
      MapRemove(f, ys, k);
      MapHead(f, xs);
      calc {
        multiset(Map(f, xs));
        multiset(Map(f, xs[1..])) + multiset{f(x)};
        multiset(Map(f, rest)) + multiset{f(x)};
        multiset(Map(f, ys));
      }
    }
  }


  /** Equal multisets of styles give equal multisets of link lines. */
  lemma OwnLinksPermutation(xs: seq<StyleRecord>, ys: seq<StyleRecord>)
    requires multiset(xs) == multiset(ys)
    ensures multiset(OwnLinks(xs)) == multiset(OwnLinks(ys))
  {
    MapPermutation(OwnLink, xs, ys);
    assert OwnLinks(xs) == Map(OwnLink, xs);
    assert OwnLinks(ys) == Map(OwnLink, ys);
  }

  /** In groups built by `GroupByType`, every link is its style's own link. */
  lemma {:induction false} GroupLinksAreOwnLinks(gs: seq<Group>)
    requires forall i :: 0 <= i < |gs| ==> forall s :: s in gs[i].members ==> s.styleType == gs[i].key
    ensures GroupLinks(gs) == OwnLinks(Flatten(gs))
  {
    if |gs| > 0 {
      GroupLinksAreOwnLinks(gs[1..]);
      OwnLinksAppend(gs[0].members, Flatten(gs[1..]));
      assert StyleLinks(gs[0].key, gs[0].members) == OwnLinks(gs[0].members) by {
        forall i | 0 <= i < |gs[0].members| ensures gs[0].members[i].styleType == gs[0].key {
          assert gs[0].members[i] in gs[0].members;
        }
      }
    }
  }

  /** A title line and a blank line hold neither a heading nor a link. */
  lemma TitleLines(title: string)
    requires |title| >= 2 && title[0] == '#' && title[1] == ' '
    ensures LinesStartingWith([title, ""], HeadingPrefix) == []
    ensures LinesStartingWith([title, ""], LinkPrefix) == []
  {
    PlainLine(title);
    PlainLine("");
    LinesStartingWithNone([title, ""], HeadingPrefix);
    LinesStartingWithNone([title, ""], LinkPrefix);
  }

  lemma StylesReadmeSplit(gs: seq<Group>, startCase: string -> string)
    ensures LinesStartingWith(StylesReadmeLines(gs, startCase), HeadingPrefix) == Headings(gs, startCase)
    ensures LinesStartingWith(StylesReadmeLines(gs, startCase), LinkPrefix) == GroupLinks(gs)
  {
    var title := ["# Estilos", ""];
    var sections := SectionsLines(gs, startCase);
    assert StylesReadmeLines(gs, startCase) == title + sections;
    SectionsHeadings(gs, startCase);
    SectionsLinks(gs, startCase);
    TitleLines("# Estilos");
    LinesStartingWithAppend(title, sections, HeadingPrefix);
    LinesStartingWithAppend(title, sections, LinkPrefix);
  }


  /** The styles README has one `## StartCase(type)` heading per distinct
      type, in order of first occurrence. */
  lemma StylesReadmeHeadings(styles: seq<StyleRecord>, startCase: string -> string)
    ensures var types := Distinct(Types(styles));
            var headings := LinesStartingWith(StylesReadmeLines(GroupByType(styles), startCase), HeadingPrefix);
            && |headings| == |types|
            && forall i :: 0 <= i < |types| ==> headings[i] == HeadingPrefix + startCase(types[i])
  {
    StylesReadmeSplit(GroupByType(styles), startCase);
  }

  /** The link lines of the styles README are exactly one
      `- [name](type/id.md)` per style: the same lines as the styles' own
      links, counted with multiplicity (a style listed twice gets two). */
  lemma StylesReadmeLinks(styles: seq<StyleRecord>, startCase: string -> string)
    ensures var links := LinesStartingWith(StylesReadmeLines(GroupByType(styles), startCase), LinkPrefix);
            && |links| == |styles|
            && multiset(links) == multiset(OwnLinks(styles))
  {
    var gs := GroupByType(styles);
    StylesReadmeSplit(gs, startCase);
    GroupsAreUniform(styles);
    GroupLinksAreOwnLinks(gs);
    GroupingIsPermutation(styles);
    OwnLinksPermutation(Flatten(gs), styles);
    assert |multiset(OwnLinks(styles))| == |styles|;
  }

  // ---------------------------------------------------------------------------
  // components/README.md
  // ---------------------------------------------------------------------------

  /** `- [name](id.md)`, relative to the components directory. */
  function ComponentLink(c: ComponentRecord): string {
    Bullet(MarkdownLink(c.name, c.id + ".md"))
  }

  /** The components index built by `generateComponentsPages`.  Only the
      components' names and ids can break a line. */
  function ComponentsReadmeLines(cs: seq<ComponentRecord>): (r: seq<string>)
    ensures |r| == |cs| + 2
    ensures (forall c :: c in cs ==> SingleLine(c.name) && SingleLine(c.id)) ==> AllSingleLine(r)
  {
    var links := seq(|cs|, i requires 0 <= i < |cs| => ComponentLink(cs[i]));
    ReadmeTextSingleLine();
    ComponentLinksSingleLine(cs, links);
    AllSingleLineAppend(["# Componentes", ""], links);
    ["# Componentes", ""] + links
  }

  lemma ComponentLinksSingleLine(cs: seq<ComponentRecord>, links: seq<string>)
    requires |links| == |cs| && forall i :: 0 <= i < |cs| ==> links[i] == ComponentLink(cs[i])
    ensures (forall c :: c in cs ==> SingleLine(c.name) && SingleLine(c.id)) ==> AllSingleLine(links)
  {
    if forall c :: c in cs ==> SingleLine(c.name) && SingleLine(c.id) {
      LinkTextSingleLine();
      forall i | 0 <= i < |cs| ensures SingleLine(links[i]) {
        assert cs[i] in cs;
        LinkSingleLine(cs[i].name, cs[i].id + ".md");
      }
    }
  }

  /** The components README lists exactly one link per component, in input
      order, and nothing else starts like a link. */
  lemma ComponentsReadmeStructure(cs: seq<ComponentRecord>)
    ensures var links := LinesStartingWith(ComponentsReadmeLines(cs), LinkPrefix);
            && |links| == |cs|
            && forall i :: 0 <= i < |cs| ==> links[i] == ComponentLink(cs[i])
  {
    var links := seq(|cs|, i requires 0 <= i < |cs| => ComponentLink(cs[i]));
    assert ComponentsReadmeLines(cs) == ["# Componentes", ""] + links;
    forall i | 0 <= i < |links| ensures StartsWith(links[i], LinkPrefix) {
      BulletIsNotHeading(MarkdownLink(cs[i].name, cs[i].id + ".md"));
    }
    TitledList("# Componentes", links);
  }

  /** Under a title and a blank line, a list of items is all that starts like
      a link. */
  lemma TitledList(title: string, items: seq<string>)
    requires |title| >= 2 && title[0] == '#' && title[1] == ' '
    requires forall i :: 0 <= i < |items| ==> StartsWith(items[i], LinkPrefix)
    ensures LinesStartingWith([title, ""] + items, LinkPrefix) == items
  {
    LinesStartingWithAll(items, LinkPrefix);
    TitleLines(title);
    LinesStartingWithAppend([title, ""], items, LinkPrefix);
  }

  // ---------------------------------------------------------------------------
  // The two indexes as written
  // ---------------------------------------------------------------------------

  /** Every text a style puts into the styles index fits on one line. */
  predicate StyleSingleLine(s: StyleRecord, startCase: string -> string) {
    SingleLine(s.name) && SingleLine(s.id) && SingleLine(s.styleType) && SingleLine(startCase(s.styleType))
  }

  lemma GroupsSingleLine(styles: seq<StyleRecord>, startCase: string -> string)
    requires forall s :: s in styles ==> StyleSingleLine(s, startCase)
    ensures forall i :: 0 <= i < |GroupByType(styles)| ==> GroupSingleLine(GroupByType(styles)[i], startCase)
  {
    var gs := GroupByType(styles);
    forall i | 0 <= i < |gs| ensures GroupSingleLine(gs[i], startCase) {
      var t := gs[i].key;
      assert t == Keys(gs)[i];
      assert t in Types(styles);
      var k :| 0 <= k < |Types(styles)| && Types(styles)[k] == t;
      assert styles[k] in styles;
      assert gs[i].members == MembersOf(styles, t);
    }
  }

  /** The written styles index, cut at its newlines, is exactly its lines. */
  lemma StylesReadmeFileLines(styles: seq<StyleRecord>, startCase: string -> string)
    requires forall s :: s in styles ==> StyleSingleLine(s, startCase)
    ensures LinesOf(Unlines(StylesReadmeLines(GroupByType(styles), startCase)))
            == StylesReadmeLines(GroupByType(styles), startCase)
  {
    GroupsSingleLine(styles, startCase);
    LinesOfUnlines(StylesReadmeLines(GroupByType(styles), startCase));
  }

  /** The written styles index has one `## StartCase(type)` line per distinct
      type, in order of first occurrence, whenever the texts it shows are
      single lines. */
  lemma StylesReadmeFileHeadings(styles: seq<StyleRecord>, startCase: string -> string)
    requires forall s :: s in styles ==> StyleSingleLine(s, startCase)
    ensures var types := Distinct(Types(styles));
            var headings := LinesStartingWith(LinesOf(Unlines(StylesReadmeLines(GroupByType(styles), startCase))), HeadingPrefix);
            && |headings| == |types|
            && forall i :: 0 <= i < |types| ==> headings[i] == HeadingPrefix + startCase(types[i])
  {
    StylesReadmeFileLines(styles, startCase);
    StylesReadmeHeadings(styles, startCase);
  }

  /** The written styles index has exactly one link line per style, whenever
      the texts it shows are single lines. */
  lemma StylesReadmeFileLinks(styles: seq<StyleRecord>, startCase: string -> string)
    requires forall s :: s in styles ==> StyleSingleLine(s, startCase)
    ensures var links := LinesStartingWith(LinesOf(Unlines(StylesReadmeLines(GroupByType(styles), startCase))), LinkPrefix);
            && |links| == |styles|
            && multiset(links) == multiset(OwnLinks(styles))
  {
    StylesReadmeFileLines(styles, startCase);
    StylesReadmeLinks(styles, startCase);
  }

  /** The written components index has exactly one link line per component,
      in input order, whenever names and ids are single lines. */
  lemma ComponentsReadmeFileStructure(cs: seq<ComponentRecord>)
    requires forall c :: c in cs ==> SingleLine(c.name) && SingleLine(c.id)
    ensures var links := LinesStartingWith(LinesOf(Unlines(ComponentsReadmeLines(cs))), LinkPrefix);
            && |links| == |cs|
            && forall i :: 0 <= i < |cs| ==> links[i] == ComponentLink(cs[i])
  {
    LinesOfUnlines(ComponentsReadmeLines(cs));
    ComponentsReadmeStructure(cs);
  }
}
