/** `generateDocumentation` and the page writers it awaits, one after the
    other: the assets directory, `index.md`, the styles tree and the
    components tree.  Each writer is the sequence of file-system effects it
    performs; paths are relative to the output directory and joined the way
    `path.join` joins plain names. */
module Documentation {
  import opened Wrappers
  import opened Errors
  import opened Text
  import opened Payloads
  import opened Normalizer
  import opened Grouping
  import opened Pages
  import opened Disk

  // ---------------------------------------------------------------------------
  // Paths
  // ---------------------------------------------------------------------------

  /** `path.join(dir, name)` for names that need no normalisation. */
  function JoinPath(dir: string, name: string): string {
    dir + "/" + name
  }

  /** The output directory itself. */
  const OutputRoot: string := "."
  const AssetsDir: string := "assets"
  const IndexPath: string := "index.md"
  const StylesDir: string := "styles"
  const ComponentsDir: string := "components"
  const ReadmeName: string := "README.md"
  const StylesReadmePath: string := JoinPath(StylesDir, ReadmeName)
  const ComponentsReadmePath: string := JoinPath(ComponentsDir, ReadmeName)

  /** The directory of one style type. */
  function TypeDir(styleType: string): string {
    JoinPath(StylesDir, styleType)
  }

  function StylePath(styleType: string, id: string): string {
    JoinPath(TypeDir(styleType), id + ".md")
  }

  function ComponentPath(id: string): string {
    JoinPath(ComponentsDir, id + ".md")
  }

  /** Where the page of a normalised style goes: under the directory of its
      own type. */
  function StylePathOf(s: StyleRecord): string {
    StylePath(s.styleType, s.id)
  }

  function StylePage(styleType: string, s: StyleRecord, startCase: string -> string): string {
    Unlines(StylePageLines(styleType, s, startCase))
  }

  function ComponentPage(c: ComponentRecord): string {
    Unlines(ComponentPageLines(c))
  }

  // ---------------------------------------------------------------------------
  // The writers, as effects
  // ---------------------------------------------------------------------------

  /** `generateIndexPage(file, { styles, components })` */
  function IndexPageEffects(file: FileData, styles: seq<StyleRecord>, components: seq<ComponentRecord>): (r: seq<Effect>)
    ensures WrittenPaths(r) == {IndexPath} && DirsCreated(r) == {}
  {
    SingleEffect(WriteFile(IndexPath, Unlines(IndexLines(file.name, |styles|, |components|))));
    [WriteFile(IndexPath, Unlines(IndexLines(file.name, |styles|, |components|)))]
  }

  /** `generateStylePage(stylesDir, type, style)` */
  function StylePageEffects(styleType: string, s: StyleRecord, startCase: string -> string): (r: seq<Effect>)
    ensures DirsCreated(r) == {TypeDir(styleType)} && WrittenPaths(r) == {StylePath(styleType, s.id)}
  {
    var mkdir := Mkdir(TypeDir(styleType));
    var write := WriteFile(StylePath(styleType, s.id), StylePage(styleType, s, startCase));
    SingleEffect(mkdir);
    SingleEffect(write);
    DirsCreatedAppend([mkdir], [write]);
    WrittenPathsAppend([mkdir], [write]);
    [mkdir] + [write]
  }

  /** The inner loop of `generateStylesPages`: the pages of one group. */
  function GroupEffects(styleType: string, members: seq<StyleRecord>, startCase: string -> string): seq<Effect> {
    if |members| == 0 then []
    else StylePageEffects(styleType, members[0], startCase) + GroupEffects(styleType, members[1..], startCase)
  }

  /** The outer loop of `generateStylesPages`: group after group. */
  function GroupsEffects(gs: seq<Group>, startCase: string -> string): seq<Effect> {
    if |gs| == 0 then []
    else GroupEffects(gs[0].key, gs[0].members, startCase) + GroupsEffects(gs[1..], startCase)
  }

  /** `generateStylesPages(styles)`: the styles directory, the pages, then the
      index of the styles. */
  function StylesPagesEffects(styles: seq<StyleRecord>, startCase: string -> string): seq<Effect> {
    var gs := GroupByType(styles);
    [Mkdir(StylesDir)] + GroupsEffects(gs, startCase)
      + [WriteFile(StylesReadmePath, Unlines(StylesReadmeLines(gs, startCase)))]
  }

  /** `generateComponentPage(componentsDir, component)` */
  function ComponentPageEffects(c: ComponentRecord): (r: seq<Effect>)
    ensures WrittenPaths(r) == {ComponentPath(c.id)} && DirsCreated(r) == {}
  {
    SingleEffect(WriteFile(ComponentPath(c.id), ComponentPage(c)));
    [WriteFile(ComponentPath(c.id), ComponentPage(c))]
  }

  /** The loop of `generateComponentsPages`. */
  function ComponentsEffects(cs: seq<ComponentRecord>): seq<Effect> {
    if |cs| == 0 then [] else ComponentPageEffects(cs[0]) + ComponentsEffects(cs[1..])
  }

  /** `generateComponentsPages(components)`: the components directory, the
      pages, then the index of the components. */
  function ComponentsPagesEffects(cs: seq<ComponentRecord>): seq<Effect> {
    [Mkdir(ComponentsDir)] + ComponentsEffects(cs)
      + [WriteFile(ComponentsReadmePath, Unlines(ComponentsReadmeLines(cs)))]
  }

  /** The effects of `generateDocumentation` once `file` is defined. */
  function DocumentationEffects(file: FileData, styles: seq<StyleRecord>, components: seq<ComponentRecord>,
                                startCase: string -> string): seq<Effect> {
    (([Mkdir(AssetsDir)] + IndexPageEffects(file, styles, components))
      + StylesPagesEffects(styles, startCase))
      + ComponentsPagesEffects(components)
  }

  // ---------------------------------------------------------------------------
  // Which paths can coincide
  // ---------------------------------------------------------------------------

  /** The three trees are told apart by the first character of a path. */
  lemma PathHeads(styleType: string, id: string)
    ensures IndexPath[0] == 'i'
    ensures StylePath(styleType, id)[0] == 's' && StylesReadmePath[0] == 's'
    ensures ComponentPath(id)[0] == 'c' && ComponentsReadmePath[0] == 'c'
  {
  }

  /** No style page overwrites the styles index: a style path has a second
      separator after `styles/`, the index path has none. */
  lemma StylePathIsNotReadme(styleType: string, id: string)
    ensures StylePath(styleType, id) != StylesReadmePath
  {
    var tail := styleType + "/" + (id + ".md");
    assert StylePath(styleType, id) == "styles/" + tail;
    assert StylesReadmePath == "styles/" + ReadmeName;
    assert tail[|styleType|] == '/';
    assert forall k :: 0 <= k < |ReadmeName| ==> ReadmeName[k] != '/';
    assert tail != ReadmeName;
    assert ("styles/" + tail)[7..] == tail;
    assert ("styles/" + ReadmeName)[7..] == ReadmeName;
  }

  /** A component page path names exactly one id. */
  lemma ComponentPathInjective(a: string, b: string)
    ensures ComponentPath(a) == ComponentPath(b) ==> a == b
  {
    var pa := ComponentPath(a);
    var pb := ComponentPath(b);
    assert pa == "components/" + a + ".md";
    assert pb == "components/" + b + ".md";
    assert pa[11..|pa| - 3] == a;
    assert pb[11..|pb| - 3] == b;
  }

  /** The components index sits where the page of a component with id
      `README` would go. */
  lemma ReadmeComponentPath()
    ensures ComponentPath("README") == ComponentsReadmePath
  {
  }

  // ---------------------------------------------------------------------------
  // The styles tree
  // ---------------------------------------------------------------------------

  /** The page of `s` under the directory of its own type. */
  function StyleWrite(s: StyleRecord, startCase: string -> string): Effect {
    WriteFile(StylePathOf(s), StylePage(s.styleType, s, startCase))
  }

  /** `e` is one of the two effects `generateStylePage` has for `s`. */
  predicate StyleEffect(e: Effect, s: StyleRecord, startCase: string -> string) {
    e == Mkdir(TypeDir(s.styleType)) || e == StyleWrite(s, startCase)
  }

  /** Every member of every group carries the group's key as its type. */
  predicate Uniform(gs: seq<Group>) {
    forall i, s :: 0 <= i < |gs| && s in gs[i].members ==> s.styleType == gs[i].key
  }

  lemma {:induction false} GroupEffectsMembers(styleType: string, members: seq<StyleRecord>, startCase: string -> string)
    requires forall s :: s in members ==> s.styleType == styleType
    ensures forall e :: e in GroupEffects(styleType, members, startCase) <==>
              exists s :: s in members && StyleEffect(e, s, startCase)
  {
    if |members| > 0 {
      var rest := members[1..];
      var s0 := members[0];
      GroupEffectsMembers(styleType, rest, startCase);
      assert forall s :: s in members <==> s == s0 || s in rest by {
        assert members == [s0] + rest;
      }
      assert StylePageEffects(styleType, s0, startCase) == [Mkdir(TypeDir(s0.styleType)), StyleWrite(s0, startCase)];
      var es := GroupEffects(styleType, members, startCase);
      assert es == StylePageEffects(styleType, s0, startCase) + GroupEffects(styleType, rest, startCase);
      forall e ensures e in es <==> exists s :: s in members && StyleEffect(e, s, startCase) {
        if e in es && !StyleEffect(e, s0, startCase) {
          assert e in GroupEffects(styleType, rest, startCase);
        }
        if exists s :: s in members && StyleEffect(e, s, startCase) {
          var s :| s in members && StyleEffect(e, s, startCase);
          if s != s0 {
            assert s in rest;
          }
        }
      }
    }
  }

  lemma {:induction false} GroupsEffectsMembers(gs: seq<Group>, startCase: string -> string)
    requires Uniform(gs)
    ensures forall e :: e in GroupsEffects(gs, startCase) <==>
              exists s :: s in Flatten(gs) && StyleEffect(e, s, startCase)
  {
    if |gs| > 0 {
      assert Uniform(gs[1..]) by {
        forall i, s | 0 <= i < |gs[1..]| && s in gs[1..][i].members
          ensures s.styleType == gs[1..][i].key
        {
          assert gs[1..][i] == gs[i + 1];
        }
      }
      GroupsEffectsMembers(gs[1..], startCase);
      assert forall s :: s in gs[0].members ==> s.styleType == gs[0].key by {
        forall s | s in gs[0].members ensures s.styleType == gs[0].key {
          assert 0 <= 0 < |gs| && s in gs[0].members;
        }
      }
      GroupEffectsMembers(gs[0].key, gs[0].members, startCase);
    }
  }

  /** The pages `generateStylesPages` writes, over all groups: one style page
      (with its type directory) for each style, and nothing else. */
  lemma StylesTree(styles: seq<StyleRecord>, startCase: string -> string)
    ensures forall e :: e in GroupsEffects(GroupByType(styles), startCase) <==>
              exists s :: s in styles && StyleEffect(e, s, startCase)
  {
    var gs := GroupByType(styles);
    GroupsAreUniform(styles);
    assert Uniform(gs) by {
      forall i, s | 0 <= i < |gs| && s in gs[i].members ensures s.styleType == gs[i].key {
        assert gs[i].members == MembersOf(styles, gs[i].key);
      }
    }
    GroupsEffectsMembers(gs, startCase);
    GroupingIsPermutation(styles);
    assert forall s :: s in Flatten(gs) <==> s in styles by {
      forall s ensures s in Flatten(gs) <==> s in styles {
        assert s in Flatten(gs) <==> s in multiset(Flatten(gs));
        assert s in styles <==> s in multiset(styles);
      }
    }
  }

  /** The type directories of the styles. */
  function TypeDirs(styles: seq<StyleRecord>): set<string> {
    set s | s in styles :: TypeDir(s.styleType)
  }

  /** The page paths of the styles. */
  function StylePaths(styles: seq<StyleRecord>): set<string> {
    set s | s in styles :: StylePathOf(s)
  }

  /** Effects that are exactly the style effects of `styles` write the
      styles' page paths and create their type directories. */
  lemma StyleEffectsPaths(es: seq<Effect>, styles: seq<StyleRecord>, startCase: string -> string)
    requires forall e :: e in es <==> exists s :: s in styles && StyleEffect(e, s, startCase)
    ensures WrittenPaths(es) == StylePaths(styles)
  {
    forall p | p in WrittenPaths(es) ensures p in StylePaths(styles) {
      var i :| 0 <= i < |es| && es[i].WriteFile? && es[i].path == p;
      assert es[i] in es;
      var s :| s in styles && StyleEffect(es[i], s, startCase);
      assert StylePathOf(s) == p;
    }
    forall p | p in StylePaths(styles) ensures p in WrittenPaths(es) {
      var s :| s in styles && StylePathOf(s) == p;
      assert StyleEffect(StyleWrite(s, startCase), s, startCase);
      assert StyleWrite(s, startCase) in es;
      var i :| 0 <= i < |es| && es[i] == StyleWrite(s, startCase);
    }
  }

  lemma StyleEffectsDirs(es: seq<Effect>, styles: seq<StyleRecord>, startCase: string -> string)
    requires forall e :: e in es <==> exists s :: s in styles && StyleEffect(e, s, startCase)
    ensures DirsCreated(es) == TypeDirs(styles)
  {
    forall p | p in DirsCreated(es) ensures p in TypeDirs(styles) {
      var i :| 0 <= i < |es| && es[i].Mkdir? && es[i].path == p;
      assert es[i] in es;
      var s :| s in styles && StyleEffect(es[i], s, startCase);
      assert TypeDir(s.styleType) == p;
    }
    forall p | p in TypeDirs(styles) ensures p in DirsCreated(es) {
      var s :| s in styles && TypeDir(s.styleType) == p;
      assert StyleEffect(Mkdir(p), s, startCase);
      assert Mkdir(p) in es;
      var i :| 0 <= i < |es| && es[i] == Mkdir(p);
    }
  }

  lemma StylesTreePaths(styles: seq<StyleRecord>, startCase: string -> string)
    ensures WrittenPaths(GroupsEffects(GroupByType(styles), startCase)) == StylePaths(styles)
  {
    StylesTree(styles, startCase);
    StyleEffectsPaths(GroupsEffects(GroupByType(styles), startCase), styles, startCase);
  }

  lemma StylesTreeDirs(styles: seq<StyleRecord>, startCase: string -> string)
    ensures DirsCreated(GroupsEffects(GroupByType(styles), startCase)) == TypeDirs(styles)
  {
    StylesTree(styles, startCase);
    StyleEffectsDirs(GroupsEffects(GroupByType(styles), startCase), styles, startCase);
  }

  /** Whatever the styles tree last wrote to a path is the page of a style
      whose page goes there. */
  lemma StylesTreeLastWrite(styles: seq<StyleRecord>, startCase: string -> string, p: string)
    requires LastWrite(GroupsEffects(GroupByType(styles), startCase), p).Some?
    ensures exists s :: s in styles && StylePathOf(s) == p &&
              LastWrite(GroupsEffects(GroupByType(styles), startCase), p) == Some(StylePage(s.styleType, s, startCase))
  {
    var es := GroupsEffects(GroupByType(styles), startCase);
    StylesTree(styles, startCase);
    var v := LastWrite(es, p).value;
    assert WriteFile(p, v) in es;
    var s :| s in styles && StyleEffect(WriteFile(p, v), s, startCase);
    assert StylePathOf(s) == p;
  }

  // ---------------------------------------------------------------------------
  // The components tree
  // ---------------------------------------------------------------------------

  /** The page `generateComponentPage` writes for `c`. */
  function ComponentWrite(c: ComponentRecord): Effect {
    WriteFile(ComponentPath(c.id), ComponentPage(c))
  }

  /** The last component in `cs` whose id is `id`. */
  function LastWithId(cs: seq<ComponentRecord>, id: string): (r: Option<ComponentRecord>)
    ensures r.Some? ==> r.value in cs && r.value.id == id
    ensures r.None? <==> forall c :: c in cs ==> c.id != id
  {
    if |cs| == 0 then None
    else
      var r := LastWithId(cs[1..], id);
      assert forall c :: c in cs <==> c == cs[0] || c in cs[1..] by {
        assert cs == [cs[0]] + cs[1..];
      }
      if r.Some? then r else if cs[0].id == id then Some(cs[0]) else None
  }

  /** `LastWithId` finds a component with that id after which no other has
      it. */
  lemma {:induction false} LastWithIdIsLast(cs: seq<ComponentRecord>, id: string)
    requires LastWithId(cs, id).Some?
    ensures exists i :: 0 <= i < |cs| && cs[i] == LastWithId(cs, id).value &&
              forall j :: i < j < |cs| ==> cs[j].id != id
  {
    var rest := cs[1..];
    if LastWithId(rest, id).Some? {
      LastWithIdIsLast(rest, id);
      var i :| 0 <= i < |rest| && rest[i] == LastWithId(rest, id).value &&
                forall j :: i < j < |rest| ==> rest[j].id != id;
      assert cs[i + 1] == rest[i];
      forall j | i + 1 < j < |cs| ensures cs[j].id != id {
        assert cs[j] == rest[j - 1];
      }
    } else {
      forall j | 0 < j < |cs| ensures cs[j].id != id {
        assert cs[j] in rest;
      }
    }
  }

  lemma {:induction false} ComponentsTree(cs: seq<ComponentRecord>)
    ensures forall e :: e in ComponentsEffects(cs) <==> exists c :: c in cs && e == ComponentWrite(c)
  {
    if |cs| > 0 {
      ComponentsTree(cs[1..]);
      assert forall c :: c in cs <==> c == cs[0] || c in cs[1..] by {
        assert cs == [cs[0]] + cs[1..];
      }
      assert ComponentsEffects(cs) == [ComponentWrite(cs[0])] + ComponentsEffects(cs[1..]);
    }
  }

  /** The page paths of the components. */
  function ComponentPaths(cs: seq<ComponentRecord>): set<string> {
    set c | c in cs :: ComponentPath(c.id)
  }

  lemma ComponentsTreePaths(cs: seq<ComponentRecord>)
    ensures WrittenPaths(ComponentsEffects(cs)) == ComponentPaths(cs)
    ensures DirsCreated(ComponentsEffects(cs)) == {}
  {
    var es := ComponentsEffects(cs);
    ComponentsTree(cs);
    forall p | p in WrittenPaths(es) ensures p in ComponentPaths(cs) {
      var i :| 0 <= i < |es| && es[i].WriteFile? && es[i].path == p;
      assert es[i] in es;
    }
    forall p | p in ComponentPaths(cs) ensures p in WrittenPaths(es) {
      var c :| c in cs && ComponentPath(c.id) == p;
      assert ComponentWrite(c) in es;
      var i :| 0 <= i < |es| && es[i] == ComponentWrite(c);
    }
    forall i | 0 <= i < |es| ensures es[i].WriteFile? {
      assert es[i] in es;
    }
  }

  /** The file at a component's path holds the page of the last component
      with that id: later pages overwrite earlier ones. */
  lemma {:induction false} ComponentsTreeLastWrite(cs: seq<ComponentRecord>, id: string)
    ensures LastWrite(ComponentsEffects(cs), ComponentPath(id)) ==
            if LastWithId(cs, id).Some? then Some(ComponentPage(LastWithId(cs, id).value)) else None
  {
    if |cs| > 0 {
      var p := ComponentPath(id);
      ComponentsTreeLastWrite(cs[1..], id);
      LastWriteAppend(ComponentPageEffects(cs[0]), ComponentsEffects(cs[1..]), p);
      ComponentPathInjective(cs[0].id, id);
      if cs[0].id == id {
        LastWriteFinal([], p, ComponentPage(cs[0]));
        assert [] + [WriteFile(p, ComponentPage(cs[0]))] == ComponentPageEffects(cs[0]);
      }
    }
  }

  // ---------------------------------------------------------------------------
  // generateDocumentation
  // ---------------------------------------------------------------------------

  /** The assets directory and `index.md`. */
  lemma HeadBlock(file: FileData, styles: seq<StyleRecord>, cs: seq<ComponentRecord>)
    ensures WrittenPaths([Mkdir(AssetsDir)] + IndexPageEffects(file, styles, cs)) == {IndexPath}
    ensures DirsCreated([Mkdir(AssetsDir)] + IndexPageEffects(file, styles, cs)) == {AssetsDir}
    ensures LastWrite([Mkdir(AssetsDir)] + IndexPageEffects(file, styles, cs), IndexPath)
            == Some(Unlines(IndexLines(file.name, |styles|, |cs|)))
  {
    var w := WriteFile(IndexPath, Unlines(IndexLines(file.name, |styles|, |cs|)));
    SingleEffect(Mkdir(AssetsDir));
    SingleEffect(w);
    WrittenPathsAppend([Mkdir(AssetsDir)], [w]);
    DirsCreatedAppend([Mkdir(AssetsDir)], [w]);
    LastWriteFinal([Mkdir(AssetsDir)], IndexPath, w.content);
  }

  /** `generateStylesPages` writes the style pages and its index last, and
      creates the styles directory and the type directories. */
  lemma StylesBlock(styles: seq<StyleRecord>, startCase: string -> string)
    ensures WrittenPaths(StylesPagesEffects(styles, startCase)) == StylePaths(styles) + {StylesReadmePath}
    ensures DirsCreated(StylesPagesEffects(styles, startCase)) == {StylesDir} + TypeDirs(styles)
    ensures LastWrite(StylesPagesEffects(styles, startCase), StylesReadmePath)
            == Some(Unlines(StylesReadmeLines(GroupByType(styles), startCase)))
  {
    var gs := GroupByType(styles);
    var open := [Mkdir(StylesDir)];
    var pages := GroupsEffects(gs, startCase);
    var w := WriteFile(StylesReadmePath, Unlines(StylesReadmeLines(gs, startCase)));
    assert StylesPagesEffects(styles, startCase) == open + pages + [w];
    SingleEffect(Mkdir(StylesDir));
    SingleEffect(w);
    StylesTreePaths(styles, startCase);
    StylesTreeDirs(styles, startCase);
    WrittenPathsAppend(open, pages);
    WrittenPathsAppend(open + pages, [w]);
    DirsCreatedAppend(open, pages);
    DirsCreatedAppend(open + pages, [w]);
    LastWriteFinal(open + pages, StylesReadmePath, w.content);
  }

  /** `generateComponentsPages` writes the component pages and its index
      last, and creates the components directory. */
  lemma ComponentsBlock(cs: seq<ComponentRecord>)
    ensures WrittenPaths(ComponentsPagesEffects(cs)) == ComponentPaths(cs) + {ComponentsReadmePath}
    ensures DirsCreated(ComponentsPagesEffects(cs)) == {ComponentsDir}
    ensures LastWrite(ComponentsPagesEffects(cs), ComponentsReadmePath) == Some(Unlines(ComponentsReadmeLines(cs)))
  {
    var open := [Mkdir(ComponentsDir)];
    var pages := ComponentsEffects(cs);
    var w := WriteFile(ComponentsReadmePath, Unlines(ComponentsReadmeLines(cs)));
    assert ComponentsPagesEffects(cs) == open + pages + [w];
    SingleEffect(Mkdir(ComponentsDir));
    SingleEffect(w);
    ComponentsTreePaths(cs);
    WrittenPathsAppend(open, pages);
    WrittenPathsAppend(open + pages, [w]);
    DirsCreatedAppend(open, pages);
    DirsCreatedAppend(open + pages, [w]);
    LastWriteFinal(open + pages, ComponentsReadmePath, w.content);
  }

  /** Regrouping the three blocks' paths. */
  lemma PathsUnion(index: string, stylesIndex: string, componentsIndex: string, stylePaths: set<string>, componentPaths: set<string>)
    ensures {index} + (stylePaths + {stylesIndex}) + (componentPaths + {componentsIndex})
            == {index, stylesIndex, componentsIndex} + stylePaths + componentPaths
  {
  }

  lemma DirsUnion(assets: string, stylesDir: string, componentsDir: string, typeDirs: set<string>)
    ensures {assets} + ({stylesDir} + typeDirs) + {componentsDir} == {assets, stylesDir, componentsDir} + typeDirs
  {
  }

  lemma DocumentationPaths(file: FileData, styles: seq<StyleRecord>, cs: seq<ComponentRecord>, startCase: string -> string)
    ensures WrittenPaths(DocumentationEffects(file, styles, cs, startCase))
            == {IndexPath, StylesReadmePath, ComponentsReadmePath} + StylePaths(styles) + ComponentPaths(cs)
  {
    var head := [Mkdir(AssetsDir)] + IndexPageEffects(file, styles, cs);
    var st := StylesPagesEffects(styles, startCase);
    var co := ComponentsPagesEffects(cs);
    assert DocumentationEffects(file, styles, cs, startCase) == (head + st) + co;
    HeadBlock(file, styles, cs);
    StylesBlock(styles, startCase);
    ComponentsBlock(cs);
    ThreeBlocks(head, st, co);
    PathsUnion(IndexPath, StylesReadmePath, ComponentsReadmePath, StylePaths(styles), ComponentPaths(cs));
  }

  lemma DocumentationDirs(file: FileData, styles: seq<StyleRecord>, cs: seq<ComponentRecord>, startCase: string -> string)
    ensures DirsCreated(DocumentationEffects(file, styles, cs, startCase))
            == {AssetsDir, StylesDir, ComponentsDir} + TypeDirs(styles)
  {
    var head := [Mkdir(AssetsDir)] + IndexPageEffects(file, styles, cs);
    var st := StylesPagesEffects(styles, startCase);
    var co := ComponentsPagesEffects(cs);
    assert DocumentationEffects(file, styles, cs, startCase) == (head + st) + co;
    HeadBlock(file, styles, cs);
    StylesBlock(styles, startCase);
    ComponentsBlock(cs);
    ThreeBlocks(head, st, co);
    DirsUnion(AssetsDir, StylesDir, ComponentsDir, TypeDirs(styles));
  }

  /** `generateDocumentation` writes `index.md`, the two indexes and one page
      per style and per component, and creates the assets, styles and
      components directories and one directory per style type. */
  lemma DocumentationLayout(file: FileData, styles: seq<StyleRecord>, cs: seq<ComponentRecord>, startCase: string -> string)
    ensures WrittenPaths(DocumentationEffects(file, styles, cs, startCase))
            == {IndexPath, StylesReadmePath, ComponentsReadmePath} + StylePaths(styles) + ComponentPaths(cs)
    ensures DirsCreated(DocumentationEffects(file, styles, cs, startCase))
            == {AssetsDir, StylesDir, ComponentsDir} + TypeDirs(styles)
  {
    DocumentationPaths(file, styles, cs, startCase);
    DocumentationDirs(file, styles, cs, startCase);
  }

  /** Nothing written after `index.md` overwrites it. */
  lemma DocumentationIndexPage(file: FileData, styles: seq<StyleRecord>, cs: seq<ComponentRecord>, startCase: string -> string)
    ensures LastWrite(DocumentationEffects(file, styles, cs, startCase), IndexPath)
            == Some(Unlines(IndexLines(file.name, |styles|, |cs|)))
  {
    HeadBlock(file, styles, cs);
    PathHeads("", "");
    OutsideStyles(styles, startCase, IndexPath);
    OutsideComponents(cs, IndexPath);
    LastWriteInFirst([Mkdir(AssetsDir)] + IndexPageEffects(file, styles, cs), StylesPagesEffects(styles, startCase),
                     ComponentsPagesEffects(cs), IndexPath);
  }

  /** Only `index.md` is written before the styles tree. */
  lemma OutsideHead(file: FileData, styles: seq<StyleRecord>, cs: seq<ComponentRecord>, p: string)
    requires |p| > 0 && p[0] != 'i'
    ensures p !in WrittenPaths([Mkdir(AssetsDir)] + IndexPageEffects(file, styles, cs))
  {
    HeadBlock(file, styles, cs);
    PathHeads("", "");
  }

  /** The styles tree writes only paths under `styles/`. */
  lemma OutsideStyles(styles: seq<StyleRecord>, startCase: string -> string, p: string)
    requires |p| > 0 && p[0] != 's'
    ensures p !in WrittenPaths(StylesPagesEffects(styles, startCase))
  {
    StylesBlock(styles, startCase);
    PathHeads("", "");
    assert p != StylesReadmePath;
    forall q | q in StylePaths(styles) ensures q != p {
      var s :| s in styles && StylePathOf(s) == q;
      PathHeads(s.styleType, s.id);
    }
  }

  /** The components tree writes only paths under `components/`. */
  lemma OutsideComponents(cs: seq<ComponentRecord>, p: string)
    requires |p| > 0 && p[0] != 'c'
    ensures p !in WrittenPaths(ComponentsPagesEffects(cs))
  {
    ComponentsBlock(cs);
    PathHeads("", "");
    assert p != ComponentsReadmePath;
    forall q | q in ComponentPaths(cs) ensures q != p {
      var c :| c in cs && ComponentPath(c.id) == q;
      PathHeads("", c.id);
    }
  }

  /** Nothing written after the styles index overwrites it. */
  lemma DocumentationStylesReadme(file: FileData, styles: seq<StyleRecord>, cs: seq<ComponentRecord>, startCase: string -> string)
    ensures LastWrite(DocumentationEffects(file, styles, cs, startCase), StylesReadmePath)
            == Some(Unlines(StylesReadmeLines(GroupByType(styles), startCase)))
  {
    var head := [Mkdir(AssetsDir)] + IndexPageEffects(file, styles, cs);
    var st := StylesPagesEffects(styles, startCase);
    var co := ComponentsPagesEffects(cs);
    PathHeads("", "");
    OutsideHead(file, styles, cs, StylesReadmePath);
    OutsideComponents(cs, StylesReadmePath);
    LastWriteInSecond(head, st, co, StylesReadmePath);
    StylesBlock(styles, startCase);
  }

  /** The components index is the last file written. */
  lemma DocumentationComponentsReadme(file: FileData, styles: seq<StyleRecord>, cs: seq<ComponentRecord>, startCase: string -> string)
    ensures LastWrite(DocumentationEffects(file, styles, cs, startCase), ComponentsReadmePath)
            == Some(Unlines(ComponentsReadmeLines(cs)))
  {
    var head := [Mkdir(AssetsDir)] + IndexPageEffects(file, styles, cs);
    var st := StylesPagesEffects(styles, startCase);
    var co := ComponentsPagesEffects(cs);
    PathHeads("", "");
    OutsideHead(file, styles, cs, ComponentsReadmePath);
    OutsideStyles(styles, startCase, ComponentsReadmePath);
    LastWriteInThird(head, st, co, ComponentsReadmePath);
    ComponentsBlock(cs);
  }

  /** The file at a style's path holds the page of a style whose page goes
      there: the style itself unless another style shares its type and id. */
  lemma DocumentationStylePage(file: FileData, styles: seq<StyleRecord>, cs: seq<ComponentRecord>,
                               startCase: string -> string, s: StyleRecord)
    requires s in styles
    ensures exists t :: t in styles && StylePathOf(t) == StylePathOf(s) &&
              LastWrite(DocumentationEffects(file, styles, cs, startCase), StylePathOf(s))
              == Some(StylePage(t.styleType, t, startCase))
  {
    var p := StylePathOf(s);
    var head := [Mkdir(AssetsDir)] + IndexPageEffects(file, styles, cs);
    var gs := GroupByType(styles);
    var open := [Mkdir(StylesDir)];
    var pages := GroupsEffects(gs, startCase);
    var w := WriteFile(StylesReadmePath, Unlines(StylesReadmeLines(gs, startCase)));
    var st := StylesPagesEffects(styles, startCase);
    var co := ComponentsPagesEffects(cs);
    assert st == open + pages + [w];
    PathHeads(s.styleType, s.id);
    OutsideHead(file, styles, cs, p);
    OutsideComponents(cs, p);
    StylePathIsNotReadme(s.styleType, s.id);
    StylesTreePaths(styles, startCase);
    SingleEffect(Mkdir(StylesDir));
    SingleEffect(w);
    assert p in StylePaths(styles);
    LastWriteSkipsLater(head + st, co, p);
    LastWriteSkipsEarlier(head, st, p);
    LastWriteSkipsLater(open + pages, [w], p);
    LastWriteSkipsEarlier(open, pages, p);
    StylesTreeLastWrite(styles, startCase, p);
  }

  /** The file at the path of a component not named `README` holds the page
      of the last component with that id. */
  lemma DocumentationComponentPage(file: FileData, styles: seq<StyleRecord>, cs: seq<ComponentRecord>,
                                   startCase: string -> string, id: string)
    requires id != "README"
    ensures LastWrite(DocumentationEffects(file, styles, cs, startCase), ComponentPath(id))
            == if LastWithId(cs, id).Some? then Some(ComponentPage(LastWithId(cs, id).value)) else None
  {
    var p := ComponentPath(id);
    var open := [Mkdir(ComponentsDir)];
    var pages := ComponentsEffects(cs);
    var w := WriteFile(ComponentsReadmePath, Unlines(ComponentsReadmeLines(cs)));
    PathHeads("", id);
    OutsideHead(file, styles, cs, p);
    OutsideStyles(styles, startCase, p);
    ReadmeComponentPath();
    ComponentPathInjective(id, "README");
    LastWriteInThird([Mkdir(AssetsDir)] + IndexPageEffects(file, styles, cs), StylesPagesEffects(styles, startCase),
                     ComponentsPagesEffects(cs), p);
    assert ComponentsPagesEffects(cs) == open + pages + [w];
    SingleEffect(Mkdir(ComponentsDir));
    SingleEffect(w);
    LastWriteSkipsLater(open + pages, [w], p);
    LastWriteSkipsEarlier(open, pages, p);
    ComponentsTreeLastWrite(cs, id);
  }

  // ---------------------------------------------------------------------------
  // The output directory afterwards
  // ---------------------------------------------------------------------------

  /** The directories and files `generateDocumentation` adds to what was
      there. */
  predicate LaidOut(before: Disk, after: Disk, styles: seq<StyleRecord>, cs: seq<ComponentRecord>) {
    && after.dirs == before.dirs + ({AssetsDir, StylesDir, ComponentsDir} + TypeDirs(styles))
    && after.files.Keys == before.files.Keys + ({IndexPath, StylesReadmePath, ComponentsReadmePath}
                                                + StylePaths(styles) + ComponentPaths(cs))
  }

  /** `index.md` and the two indexes hold their final contents. */
  predicate IndexesWritten(after: Disk, file: FileData, styles: seq<StyleRecord>,
                           cs: seq<ComponentRecord>, startCase: string -> string) {
    && Holds(after, IndexPath, Unlines(IndexLines(file.name, |styles|, |cs|)))
    && Holds(after, StylesReadmePath, Unlines(StylesReadmeLines(GroupByType(styles), startCase)))
    && Holds(after, ComponentsReadmePath, Unlines(ComponentsReadmeLines(cs)))
  }

  /** At every style's path, the page of a style with that path. */
  predicate StylePagesWritten(after: Disk, styles: seq<StyleRecord>, startCase: string -> string) {
    forall s :: s in styles ==>
      exists t :: t in styles && StylePathOf(t) == StylePathOf(s) &&
                  Holds(after, StylePathOf(s), StylePage(t.styleType, t, startCase))
  }

  /** At every component's path other than `README`, the page of the last
      component with that id. */
  predicate ComponentPagesWritten(after: Disk, cs: seq<ComponentRecord>) {
    forall c :: c in cs && c.id != "README" ==>
      LastWithId(cs, c.id).Some? && Holds(after, ComponentPath(c.id), ComponentPage(LastWithId(cs, c.id).value))
  }

  /** What the output directory holds once `generateDocumentation` has
      finished. */
  predicate Documented(before: Disk, after: Disk, file: FileData, styles: seq<StyleRecord>,
                       cs: seq<ComponentRecord>, startCase: string -> string) {
    && LaidOut(before, after, styles, cs)
    && IndexesWritten(after, file, styles, cs, startCase)
    && StylePagesWritten(after, styles, startCase)
    && ComponentPagesWritten(after, cs)
  }

  lemma DocumentationLaidOut(before: Disk, file: FileData, styles: seq<StyleRecord>,
                             cs: seq<ComponentRecord>, startCase: string -> string)
    ensures LaidOut(before, Apply(before, DocumentationEffects(file, styles, cs, startCase)), styles, cs)
  {
    DocumentationPaths(file, styles, cs, startCase);
    DocumentationDirs(file, styles, cs, startCase);
    ApplyLayout(before, DocumentationEffects(file, styles, cs, startCase),
                {AssetsDir, StylesDir, ComponentsDir} + TypeDirs(styles),
                {IndexPath, StylesReadmePath, ComponentsReadmePath} + StylePaths(styles) + ComponentPaths(cs));
  }

  lemma DocumentationIndexesWritten(before: Disk, file: FileData, styles: seq<StyleRecord>,
                                    cs: seq<ComponentRecord>, startCase: string -> string)
    ensures IndexesWritten(Apply(before, DocumentationEffects(file, styles, cs, startCase)), file, styles, cs, startCase)
  {
    DocumentationIndexPage(file, styles, cs, startCase);
    DocumentationStylesReadme(file, styles, cs, startCase);
    DocumentationComponentsReadme(file, styles, cs, startCase);
  }

  lemma DocumentationStylePagesWritten(before: Disk, file: FileData, styles: seq<StyleRecord>,
                                       cs: seq<ComponentRecord>, startCase: string -> string)
    ensures StylePagesWritten(Apply(before, DocumentationEffects(file, styles, cs, startCase)), styles, startCase)
  {
    var after := Apply(before, DocumentationEffects(file, styles, cs, startCase));
    forall s | s in styles
      ensures exists t :: t in styles && StylePathOf(t) == StylePathOf(s) &&
                          Holds(after, StylePathOf(s), StylePage(t.styleType, t, startCase))
    {
      DocumentationStylePage(file, styles, cs, startCase, s);
    }
  }

  lemma DocumentationComponentPagesWritten(before: Disk, file: FileData, styles: seq<StyleRecord>,
                                           cs: seq<ComponentRecord>, startCase: string -> string)
    ensures ComponentPagesWritten(Apply(before, DocumentationEffects(file, styles, cs, startCase)), cs)
  {
    var after := Apply(before, DocumentationEffects(file, styles, cs, startCase));
    forall c | c in cs && c.id != "README"
      ensures LastWithId(cs, c.id).Some? && Holds(after, ComponentPath(c.id), ComponentPage(LastWithId(cs, c.id).value))
    {
      DocumentationComponentPage(file, styles, cs, startCase, c.id);
    }
  }

  lemma DocumentationOutcome(before: Disk, file: FileData, styles: seq<StyleRecord>,
                             cs: seq<ComponentRecord>, startCase: string -> string)
    ensures Documented(before, Apply(before, DocumentationEffects(file, styles, cs, startCase)), file, styles, cs, startCase)
  {
    DocumentationLaidOut(before, file, styles, cs, startCase);
    DocumentationIndexesWritten(before, file, styles, cs, startCase);
    DocumentationStylePagesWritten(before, file, styles, cs, startCase);
    DocumentationComponentPagesWritten(before, file, styles, cs, startCase);
  }

  /** `generateIndexPage` reads `file.name`: an undefined file rejects. */
  const UnreadableFileName: Error := TypeError("Cannot read properties of undefined (reading 'name')")

  /** The output directory after an operation, and what the operation
      settled with. */
  datatype Outcome<T> = Outcome(disk: Disk, result: Result<T, Error>)

  /** `generateDocumentation({ file, styles, components })`.  Without file
      data the index page throws after the assets directory is made; with it,
      every writer runs and the output directory is `Documented`. */
  function GenerateDocumentation(disk: Disk, file: Option<FileData>, styles: seq<StyleRecord>,
                                 cs: seq<ComponentRecord>, startCase: string -> string): (r: Outcome<()>)
    ensures r.result.Success? <==> file.Some?
    ensures file.None? ==> r.result == Failure(UnreadableFileName) && r.disk == disk.(dirs := disk.dirs + {AssetsDir})
    ensures file.Some? ==> Documented(disk, r.disk, file.value, styles, cs, startCase)
  {
    match file
    case None =>
      ApplyMkdir(disk, AssetsDir);
      Outcome(Apply(disk, [Mkdir(AssetsDir)]), Failure(UnreadableFileName))
    case Some(f) =>
      DocumentationOutcome(disk, f, styles, cs, startCase);
      Outcome(Apply(disk, DocumentationEffects(f, styles, cs, startCase)), Success(()))
  }

  /** No two styles share a type and an id. */
  predicate UniqueStylePaths(styles: seq<StyleRecord>) {
    forall s, t :: s in styles && t in styles && StylePathOf(s) == StylePathOf(t) ==> s == t
  }

  /** With no two styles at one path, every style's file is its own page. */
  lemma OwnStylePages(after: Disk, styles: seq<StyleRecord>, startCase: string -> string)
    requires StylePagesWritten(after, styles, startCase)
    requires UniqueStylePaths(styles)
    ensures forall s :: s in styles ==> Holds(after, StylePathOf(s), StylePage(s.styleType, s, startCase))
  {
    forall s | s in styles ensures Holds(after, StylePathOf(s), StylePage(s.styleType, s, startCase)) {
      var t :| t in styles && StylePathOf(t) == StylePathOf(s) &&
               Holds(after, StylePathOf(s), StylePage(t.styleType, t, startCase));
      assert t == s;
    }
  }

  /** With distinct component ids, every component other than one named
      `README` finds its own page at its path. */
  lemma OwnComponentPages(after: Disk, cs: seq<ComponentRecord>)
    requires ComponentPagesWritten(after, cs)
    requires forall i, j :: 0 <= i < j < |cs| ==> cs[i].id != cs[j].id
    ensures forall c :: c in cs && c.id != "README" ==> Holds(after, ComponentPath(c.id), ComponentPage(c))
  {
    forall c | c in cs && c.id != "README" ensures Holds(after, ComponentPath(c.id), ComponentPage(c)) {
      var l := LastWithId(cs, c.id).value;
      var i :| 0 <= i < |cs| && cs[i] == c;
      var j :| 0 <= j < |cs| && cs[j] == l;
      assert i == j;
    }
  }

  /** The page of a component with id `README` is lost: the components index
      is written to the same path afterwards, so that path holds the component's
      page only if the page happens to be the index text itself. */
  lemma ReadmeComponentOverwritten(after: Disk, file: FileData, styles: seq<StyleRecord>,
                                   cs: seq<ComponentRecord>, startCase: string -> string)
    requires IndexesWritten(after, file, styles, cs, startCase)
    ensures Holds(after, ComponentPath("README"), Unlines(ComponentsReadmeLines(cs)))
    ensures forall c :: c in cs && c.id == "README" ==>
              Holds(after, ComponentPath(c.id), ComponentPage(c)) ==> ComponentPage(c) == Unlines(ComponentsReadmeLines(cs))
  {
    ReadmeComponentPath();
  }
}
