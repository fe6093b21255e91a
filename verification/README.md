# Figma design-system generator: a Dafny model

This project models the core of the `figma-mcp-server` package:

- the adapter around the Figma client (`FigmaService` in `src/services/figma.service.js`);
- the generator that turns a Figma file into a tree of Markdown pages (`DesignSystemService` in `src/services/designSystem.service.js`).

The adapter checks its arguments, calls one client endpoint and hands back the response's `data`. For styles and components, a response without data becomes an empty envelope.

The generator works in this order:

1. It creates the output directory.
2. It fetches the file, its published styles and its published components together.
3. It normalises the raw style and component records.
4. It writes `index.md`, then `styles/` (one page per style under a directory per style type, plus a `README.md` index), then `components/` (one page per component plus a `README.md` index).
5. It resolves with the counts of styles and components.

## Modules

Every module is a set of pure functions over immutable values.

- `Wrappers`: `Option` and `Result`.
- `Errors`: the errors the code throws, each with its message.
- `Text`: ASCII lower-casing, decimal printing and parsing, prefixes and suffixes, `split`/`join` on one character, documents as lines, and how a written document cuts back into its lines.
- `Payloads`: the response shapes the services read. Optional fields are `Option`s.
- `FigmaService`: the constructor and the four operations.
  - The client is a value holding one total function per endpoint.
  - Every operation returns what it settled with and the client calls it made.
- `Controller`: how `GET /files/:fileKey/nodes` turns its `ids` query into the node-id list the adapter checks.
- `Normalizer`: `processStyles` and `processComponents`.
- `Grouping`: `_.groupBy(styles, 'type')` followed by `Object.entries`, built the way lodash accumulates it.
- `Pages`: each Markdown page as a list of lines, with a reader for each page.
- `Disk`: the output directory as directories plus a map from path to content.
  - A writer is a sequence of `mkdir`/`writeFile` effects applied in order.
  - A later write to a path replaces an earlier one.
- `Documentation`: `generateDocumentation` and the page writers, as effect sequences, and what the output directory holds afterwards.
- `DesignSystem`: `generateDesignSystem`, including how the generator's module sees the adapter.

The following are parameters:

- the environment's access token;
- the configuration's `figma` section;
- the `figma-js` client factory;
- lodash's `_.startCase`;
- the output directory's name;
- the directory's contents before the call.

## Model

| member | source | states |
|---|---|---|
| `FigmaService.New` | figma-mcp-server/src/services/figma.service.js:5-16 | An injected client is used as given. Otherwise a client is built from the configured token when that token is non-empty. Otherwise construction fails with 'Figma access token is not configured', and fails in no other case. |
| `FigmaService.GetFile` | figma-mcp-server/src/services/figma.service.js:18-34 | A missing or empty key is rejected with 'File key is required' before any client call. Then a missing or empty environment token is rejected with 'Figma access token is not configured'. The client is called, exactly once with the same key, iff both are present, and its response or rejection is handed through. |
| `FigmaService.SomeEmpty` | figma-mcp-server/src/services/figma.service.js:41 | `ids.some(id => !id)` is true iff some entry is absent or empty. |
| `FigmaService.GetFileNodes` | figma-mcp-server/src/services/figma.service.js:36-52 | The key check runs first. A missing, non-array or empty id list, or one with an absent or empty entry, is rejected with 'Node IDs are required' and no client call. Otherwise there is exactly one call with the key and the ids in order, and its result is handed through. |
| `FigmaService.GetFileStyles` | figma-mcp-server/src/services/figma.service.js:54-66 | A missing key is rejected with no call. Otherwise there is one call. A rejection is passed on, data is returned as is, and a response without data becomes `{ meta: { styles: [] } }`. |
| `FigmaService.GetFileComponents` | figma-mcp-server/src/services/figma.service.js:68-80 | The same as for styles, with `{ meta: { components: [] } }` as the fallback. |
| `FigmaService.OnlyGetFileChecksToken` | figma-mcp-server/src/services/figma.service.js:18-80 | With no environment token, `getFile` is rejected while the styles, components and (valid) nodes operations still reach the client. |
| `Controller.QueryNodeIdsChecked` | figma-mcp-server/src/controllers/figma.controller.js:22-23 | A node lookup through `?ids=` reaches the client iff the query is present and has no empty comma-separated piece (no leading, trailing or doubled comma). Otherwise it is rejected with 'Node IDs are required'. The ids handed on join back into the query. |
| `Controller.DoubledCommaRejected` | figma-mcp-server/src/controllers/figma.controller.js:23 | `?ids=a,,b` is rejected before any client call. |
| `Controller.NodeIdsFromQuery` | figma-mcp-server/src/controllers/figma.controller.js:23 | An absent or empty `ids` query gives an empty id list. Otherwise there is one present entry per comma-separated piece, no entry holds a comma, and the entries joined with commas give back the query. |
| `Text.JoinSplit` | figma-mcp-server/src/controllers/figma.controller.js:23 | Splitting on a separator and joining again restores the string. |
| `Text.SplitEmptyPiece` | figma-mcp-server/src/controllers/figma.controller.js:23 | `split` produces an empty piece iff the string is empty or has a leading, trailing or doubled separator. |
| `Payloads.StylesOf` | figma-mcp-server/src/services/designSystem.service.js:28 | `stylesData.meta?.styles`, or `[]` in its place, is the listed styles when `meta` and its list exist, and empty otherwise. |
| `Payloads.ComponentsOf` | figma-mcp-server/src/services/designSystem.service.js:31 | The same for components. |
| `Text.Lower` | figma-mcp-server/src/services/designSystem.service.js:60 | `toLowerCase` on ASCII keeps the length, maps each upper-case letter to its lower-case letter, leaves every other character, and leaves no upper-case letter. |
| `Text.LowerIdempotent` | figma-mcp-server/src/services/designSystem.service.js:60 | Lower-casing twice is lower-casing once. |
| `Normalizer.NormalizeStyle` | figma-mcp-server/src/services/designSystem.service.js:56-64 | `id` and `nodeId` are the raw `node_id`. `name` and `fileKey` are copied. The type is the lower-cased `style_type`. The description is empty iff the raw one is absent or empty, and is the raw one otherwise. `remote` is true iff the raw flag is `true`. |
| `Normalizer.ProcessStyles` | figma-mcp-server/src/services/designSystem.service.js:55-65 | One normalised record per raw style, in the same order. |
| `Normalizer.NormalizeComponent` | figma-mcp-server/src/services/designSystem.service.js:68-76 | The component fields follow the same rules. The thumbnail URL is empty iff the raw one is absent or empty. |
| `Normalizer.ProcessComponents` | figma-mcp-server/src/services/designSystem.service.js:67-77 | One normalised record per raw component, in the same order. |
| `Normalizer.NormalizeStyleIdempotent` | figma-mcp-server/src/services/designSystem.service.js:56-64 | A normalised style, written back in the raw shape, normalises to itself. |
| `Normalizer.ProcessStylesIdempotent` | figma-mcp-server/src/services/designSystem.service.js:55-65 | Normalising the normalised list again changes nothing. |
| `Normalizer.ProcessComponentsIdempotent` | figma-mcp-server/src/services/designSystem.service.js:67-77 | The same for components. |
| `Normalizer.FillStyleExample` | figma-mcp-server/src/services/designSystem.service.js:56-64 | A `FILL` style with no description or remote flag becomes type `fill`, an empty description, and not remote. |
| `Grouping.Distinct` | figma-mcp-server/src/services/designSystem.service.js:124 | The group keys are exactly the types that occur, each once. |
| `Grouping.GroupByType` | figma-mcp-server/src/services/designSystem.service.js:124 | The keys are the distinct types in order of first occurrence. Each group holds exactly the styles of its type, in input order. |
| `Grouping.DistinctInFirstOccurrenceOrder` | figma-mcp-server/src/services/designSystem.service.js:124-129 | Groups appear in the order in which their type first occurs among the styles. |
| `Grouping.GroupingIsPermutation` | figma-mcp-server/src/services/designSystem.service.js:124 | The groups' members, taken together, are a permutation of the styles. |
| `Grouping.EachStyleInOneGroup` | figma-mcp-server/src/services/designSystem.service.js:124 | Every style lies in the group keyed by its type, and in no group with another key. |
| `Grouping.GroupsAreUniform` | figma-mcp-server/src/services/designSystem.service.js:124 | No group is empty, and every member of a group has the group's key as its type. |
| `Grouping.AddToGroups` | figma-mcp-server/src/services/designSystem.service.js:124 | One step of `_.groupBy`. A style whose type already has a group leaves the keys as they are; otherwise a new group holding just that style is opened at the end. Each existing group gains the style exactly when its key is the style's type. |
| `Text.ParseNatToString` | figma-mcp-server/src/services/designSystem.service.js:105-109 | A count printed in decimal reads back as the same count. |
| `Text.LinesOfUnlines` | figma-mcp-server/src/services/designSystem.service.js:97-110 | A document whose lines hold no newline, cut at its newlines, gives back exactly its lines. |
| `Text.SplitDocument` | figma-mcp-server/src/services/designSystem.service.js:190-198 | Cut at its newlines, a document of single lines with one entry that may span several lines gives: the lines before that entry, the entry's own lines, the lines after it, and the empty piece after the final newline. |
| `Pages.IndexRoundTrip` | figma-mcp-server/src/services/designSystem.service.js:97-110 | The index page reads back as the file name, the number of styles and the number of components. |
| `Pages.StylePageRoundTrip` | figma-mcp-server/src/services/designSystem.service.js:153-159 | A style page reads back as the name, the title-cased type, the node id, and the description or 'Sem descrição fornecida.' when it is empty. |
| `Pages.ComponentPageRoundTrip` | figma-mcp-server/src/services/designSystem.service.js:190-198 | A component page reads back as the name, the node id, and the remote flag as 'Sim'/'Não'. It also carries the description or the placeholder, and a thumbnail image exactly when the URL is non-empty, with that URL. |
| `Pages.StylesReadmeHeadings` | figma-mcp-server/src/services/designSystem.service.js:127-140 | The styles index has one `## StartCase(type)` heading per distinct type, in order of first occurrence, and no other heading of that level. |
| `Pages.StylesReadmeLinks` | figma-mcp-server/src/services/designSystem.service.js:127-140 | The index's link lines are one `- [name](type/id.md)` per style, counted with multiplicity, and nothing else. |
| `Pages.ComponentsReadmeStructure` | figma-mcp-server/src/services/designSystem.service.js:173-180 | The components index's link lines are exactly one `- [name](id.md)` per component, in input order. |
| `Pages.IndexLines` | figma-mcp-server/src/services/designSystem.service.js:97-110 | The index page has 13 lines. Only the file name can break a line: when it holds no newline, neither does any line. |
| `Pages.IndexFileRoundTrip` | figma-mcp-server/src/services/designSystem.service.js:97-116 | The text written to `index.md`, cut at its newlines, reads back as the file name and both counts whenever the file name holds no newline. |
| `Pages.StylePageLines` | figma-mcp-server/src/services/designSystem.service.js:153-159 | A style page has 8 lines, the last being the description or the placeholder. The seven lines before it are single lines whenever the name, the title-cased type and the node id are. |
| `Pages.StylePageFileRoundTrip` | figma-mcp-server/src/services/designSystem.service.js:153-165 | The text written for a style reads back as its name, title-cased type, node id, and description (whole, even when it spans several lines) or the placeholder. This holds whenever the name, the title-cased type and the node id hold no newline. |
| `Pages.ComponentPageLines` | figma-mcp-server/src/services/designSystem.service.js:190-198 | A component page has 10 lines, the eighth being the description or the placeholder. The lines before it are single lines whenever the name and node id are. The lines after it are single lines whenever the thumbnail URL is. |
| `Pages.ComponentPageFileRoundTrip` | figma-mcp-server/src/services/designSystem.service.js:190-204 | The text written for a component reads back as its name, node id, remote flag, description (whole, even across lines) or the placeholder, and its thumbnail exactly when the URL is non-empty. This holds whenever the name, node id and URL hold no newline. |
| `Pages.StylesReadmeLines` | figma-mcp-server/src/services/designSystem.service.js:127-140 | Every line of the styles index is a single line whenever every group's type, title-cased type, and style names and ids are. |
| `Pages.StylesReadmeFileHeadings` | figma-mcp-server/src/services/designSystem.service.js:127-146 | Cut at its newlines, the written `styles/README.md` has one `## StartCase(type)` line per distinct type, in order of first occurrence, and no other. This holds whenever no style's name, id, type or title-cased type holds a newline. |
| `Pages.StylesReadmeFileLinks` | figma-mcp-server/src/services/designSystem.service.js:127-146 | Under the same condition, the written styles index has exactly one `- [name](type/id.md)` line per style, counted with multiplicity. |
| `Pages.ComponentsReadmeLines` | figma-mcp-server/src/services/designSystem.service.js:173-180 | The components index has two lines more than there are components. Every line is a single line whenever every name and id is. |
| `Pages.ComponentsReadmeFileStructure` | figma-mcp-server/src/services/designSystem.service.js:173-186 | Cut at its newlines, the written `components/README.md` has exactly one `- [name](id.md)` line per component, in input order, whenever names and ids hold no newline. |
| `Disk.LastWrite` | figma-mcp-server/src/services/designSystem.service.js:161-165 | The content a path holds after a writer comes from a write to it. There is none iff nothing wrote to the path. |
| `Disk.Apply` | figma-mcp-server/src/services/designSystem.service.js:79-94 | After awaited writers, every directory created exists. A written path holds its last write's content. Every other file is as before. |
| `Disk.LastWriteAppend` | figma-mcp-server/src/services/designSystem.service.js:79-94 | Of two writers in a row, the later one decides the content of every path it writes. |
| `Documentation.StylePathIsNotReadme` | figma-mcp-server/src/services/designSystem.service.js:142-165 | With paths joined by a plain `/`, no style page path is the styles index path. The page path always has a second separator after `styles/`, and the index path has none. |
| `Documentation.ComponentPathInjective` | figma-mcp-server/src/services/designSystem.service.js:200-204 | Distinct component ids give distinct page paths. |
| `Documentation.HeadBlock` | figma-mcp-server/src/services/designSystem.service.js:82-87 | Before the two trees, `generateDocumentation` creates only the assets directory and writes only `index.md`, whose last content is the index page's text. |
| `Documentation.IndexPageEffects` | figma-mcp-server/src/services/designSystem.service.js:96-117 | `generateIndexPage` writes `index.md` and nothing else, and creates no directory. |
| `Documentation.StylePageEffects` | figma-mcp-server/src/services/designSystem.service.js:149-166 | `generateStylePage` creates exactly its type's directory and writes exactly `styles/<type>/<id>.md`. |
| `Documentation.GroupEffectsMembers` | figma-mcp-server/src/services/designSystem.service.js:132-137 | For a group whose members all carry its type, the inner loop does exactly this, for each member and nothing else: a `mkdir` of the member's type directory and the write of its page. |
| `Documentation.GroupsEffectsMembers` | figma-mcp-server/src/services/designSystem.service.js:129-140 | For groups as `_.groupBy` builds them, the outer loop does exactly this for each style of every group: the type `mkdir` and the page write. |
| `Documentation.StylesBlock` | figma-mcp-server/src/services/designSystem.service.js:119-147 | `generateStylesPages` writes exactly the style pages and `styles/README.md`, the index last. It creates exactly the styles directory and one directory per style type. The index's final content is the grouped listing. |
| `Documentation.ComponentPageEffects` | figma-mcp-server/src/services/designSystem.service.js:189-205 | `generateComponentPage` writes exactly `components/<id>.md` and creates no directory. |
| `Documentation.ComponentsTree` | figma-mcp-server/src/services/designSystem.service.js:175-180 | The loop of `generateComponentsPages` performs exactly one page write per component and no other effect. |
| `Documentation.ComponentsBlock` | figma-mcp-server/src/services/designSystem.service.js:168-187 | `generateComponentsPages` writes exactly the component pages and `components/README.md`, the index last. It creates only the components directory. The index's final content is the component listing. |
| `Documentation.StylesTree` | figma-mcp-server/src/services/designSystem.service.js:129-140 | The loops of `generateStylesPages` do, for each style and nothing else, a `mkdir` of its type's directory and a write of its page. |
| `Documentation.StylesTreeLastWrite` | figma-mcp-server/src/services/designSystem.service.js:129-140 | Whatever those loops last write to a path is the page of a style whose page goes there. |
| `Documentation.LastWithId` | figma-mcp-server/src/services/designSystem.service.js:175-180 | The component found has the id and is in the list. None is found iff no component has the id. |
| `Documentation.LastWithIdIsLast` | figma-mcp-server/src/services/designSystem.service.js:175-180 | No component after the one found has its id. |
| `Documentation.ComponentsTreeLastWrite` | figma-mcp-server/src/services/designSystem.service.js:175-180 | The file at a component's path holds the page of the last component with that id. |
| `Documentation.DocumentationLayout` | figma-mcp-server/src/services/designSystem.service.js:79-94 | `generateDocumentation` writes exactly: `index.md`, the two indexes, one page per style and one per component. It creates exactly the assets, styles and components directories and one directory per style type. |
| `Documentation.DocumentationIndexPage` | figma-mcp-server/src/services/designSystem.service.js:112-116 | Nothing written later overwrites `index.md`. |
| `Documentation.DocumentationStylesReadme` | figma-mcp-server/src/services/designSystem.service.js:142-146 | Nothing written later overwrites the styles index. |
| `Documentation.DocumentationComponentsReadme` | figma-mcp-server/src/services/designSystem.service.js:182-186 | The components index holds the index of the components. |
| `Documentation.DocumentationStylePage` | figma-mcp-server/src/services/designSystem.service.js:149-166 | The file at a style's path holds the page of a style with that path. |
| `Documentation.DocumentationComponentPage` | figma-mcp-server/src/services/designSystem.service.js:189-205 | The file at a component's path (id other than `README`) holds the page of the last component with that id. |
| `Documentation.DocumentationOutcome` | figma-mcp-server/src/services/designSystem.service.js:79-94 | Applying the documentation writers leaves the output directory `Documented`: laid out as above, with each index and page as stated. |
| `Documentation.GenerateDocumentation` | figma-mcp-server/src/services/designSystem.service.js:79-94 | It succeeds iff the file data is defined. Without file data it rejects reading `name` after creating only the assets directory. With it, the output directory ends up `Documented`. |
| `Documentation.OwnStylePages` | figma-mcp-server/src/services/designSystem.service.js:149-166 | When no two styles share a type and an id, every style's file is its own page. |
| `Documentation.OwnComponentPages` | figma-mcp-server/src/services/designSystem.service.js:189-205 | When component ids are distinct, every component not named `README` finds its own page. |
| `Documentation.ReadmeComponentOverwritten` | figma-mcp-server/src/services/designSystem.service.js:182-186 | A component with id `README` loses its page to the components index. `components/README.md` ends up holding the listing, and holds such a component's page only when that page is the listing text itself. |
| `DesignSystem.FetchAll` | figma-mcp-server/src/services/designSystem.service.js:21-25 | `Promise.all` resolves iff all three fetches do, with their three values. Otherwise it rejects with the first rejection in array order, which is the components request's error when only that one fails. |
| `DesignSystem.AfterFetch` | figma-mcp-server/src/services/designSystem.service.js:27-48 | After the fetches resolve, a run resolves iff every style has a type and the file has data. A missing type rejects before anything is written, and missing file data rejects after only the assets directory. A resolved run reports the counts of the normalised lists and leaves them `Documented`. |
| `DesignSystem.GenerateDesignSystem` | figma-mcp-server/src/services/designSystem.service.js:15-53 | The output directory always exists afterwards. A rejection writes no file. A resolved run required a file key and a token, and reports `success: true`, the output directory and the key. With the binding as written, every run rejects with `TypeError`. |
| `DesignSystem.AsWrittenAlwaysFails` | figma-mcp-server/src/services/designSystem.service.js:5-22 | With `figmaService` bound to the exported class, every run rejects with 'figmaService.getFile is not a function' after creating only the output directory. |
| `DesignSystem.SucceedsIffReady` | figma-mcp-server/src/services/designSystem.service.js:15-53 | With a constructed service, a run resolves iff it has a key, a token, three resolved fetches with file data, and a type on every style. |
| `DesignSystem.RejectionCauses` | figma-mcp-server/src/services/designSystem.service.js:21-25 | A missing key rejects with 'File key is required'. Then a missing token rejects with 'Figma access token is not configured'. Only the output directory is created. |
| `DesignSystem.ClientRejections` | figma-mcp-server/src/services/designSystem.service.js:21-25 | A client rejection of the file, the styles or the components is the run's rejection, in that order. |
| `DesignSystem.PayloadRejections` | figma-mcp-server/src/services/designSystem.service.js:28-38 | A style without `style_type` rejects before any page is written. A file response without data rejects after the assets directory is created. |
| `DesignSystem.GenerationOutput` | figma-mcp-server/src/services/designSystem.service.js:40-48 | A ready run resolves with counts equal to the lengths of the upstream style and component lists. It leaves the normalised styles and components `Documented`. |
| `DesignSystem.IndexReportsStats` | figma-mcp-server/src/services/designSystem.service.js:34-48 | The `index.md` of a ready run names the file and reports exactly the counts the run resolves with. |

## Left out

- Console logging (`console.error`) is not modelled: it has no effect on results.
- `fs` failures are not modelled. `mkdir` and `writeFile` always succeed, and no write is partial.
- `path.join` normalisation is not modelled. Paths are joined with `/` and taken relative to the output directory, which is `.`. A style type or id that contains `/` or `..` is not normalised as `path.join` would.
- `Documentation.StylePathIsNotReadme` holds only for the plain `/` join. `path.join` (figma-mcp-server/src/services/designSystem.service.js:150,162) drops an empty segment and collapses `.`, so a style whose type is `""` or `"."` has its page written directly under `styles/`. If that style's id is `README`, the page goes to `styles/README.md` and is overwritten by the styles index at lines 142-146, as happens to components (`Documentation.ReadmeComponentOverwritten`). The model puts that page at `styles//README.md` or `styles/./README.md`. So `Documentation.DocumentationStylePage`, `Documentation.OwnStylePages`, `Documentation.StylesBlock` and `Documentation.DocumentationLayout` promise a surviving page at a separate path, and the program does not.
- `process.cwd()` is not modelled. The absolute output directory is a parameter named `outputDir`.
- The numeric ordering of integer-like keys in `Object.entries` is not modelled. Groups are in order of first occurrence, which is what `Object.entries` gives for non-numeric style types.
- `Promise.all` timing is not modelled. The three fetches are taken in array order, and the first rejection in that order is the one reported. With real concurrency, the earliest-settling rejection would win.
- `_.startCase` is a parameter, since its word-splitting rules belong to lodash. The pages carry whatever it returns.
- `toLowerCase` is modelled on ASCII letters only; other characters are left as they are.
- A raw style or component whose `node_id` or `name` is absent is not modelled; those fields are strings. Absent `description`, `style_type`, `remote` and `thumbnail_url` are modelled.
- Node ids are modelled as optional strings: an entry is either absent or a string. A non-string entry is not representable. A falsy one such as `0` would be rejected by `nodeIds.some(id => !id)` (figma-mcp-server/src/services/figma.service.js:41). A truthy one such as `1` or `{}` would pass that check and reach the client.
- An absent `file.name` is not modelled. The index page would print `undefined` for it, but the model's file name is always a string. An absent or `undefined` `file_key` is not modelled either; the key is a string passed through to the client.
- The HTTP layer, routes, configuration loading, the design-tokens endpoint and the server entry point are not modelled. The only exception is the `ids` query split in `Controller`.
- A repeated `ids` query (`?ids=a&ids=b`) is not modelled. Express hands it over as an array, and `ids.split` at figma-mcp-server/src/controllers/figma.controller.js:23 then throws a `TypeError`. The model's query value is one optional string.
- The `figma-js` client is not modelled; each endpoint is an arbitrary total function.
- `Documentation.DocumentationStylePage` is weaker than "every style's file is its own page". When two styles share a type and an id, the later page overwrites the earlier one. The lemma therefore promises the page of some style at that path. `Documentation.OwnStylePages` gives the strong form when paths are unique.
- `Pages.IndexFileRoundTrip`, `Pages.StylePageFileRoundTrip`, `Pages.ComponentPageFileRoundTrip`, `Pages.StylesReadmeFileHeadings`, `Pages.StylesReadmeFileLinks` and `Pages.ComponentsReadmeFileStructure` are stated over the written text cut at its newlines. They say nothing when a header field holds a newline: a file name, style or component name, node id, style type, title-cased type or thumbnail URL. Such a field splits its line, so the written page no longer reads back field by field. A description may span lines; it is read back whole. The line-level lemmas (`Pages.IndexRoundTrip` and the rest) hold for every input.
- `Documentation.DocumentationComponentPage` excludes a component with id `README`, because its page is overwritten by the components index (`Documentation.ReadmeComponentOverwritten`).

## Findings

| source | as written | input that shows it | evidently intended | confidence | as-written member | corrected member |
|---|---|---|---|---|---|---|
| figma-mcp-server/src/services/designSystem.service.js:5 | `import figmaService from './figma.service.js'` binds the default export. That export is the `FigmaService` class itself (figma.service.js:4), so `figmaService.getFile` is undefined and line 22 throws `TypeError: figmaService.getFile is not a function`. | Any call, e.g. `generateDesignSystem('abc')` with a valid token: it rejects after `mkdir`, before any Figma request. | Fetch through a constructed service (`new FigmaService()`) and document the file. | not executed | `DesignSystem.AsWrittenAlwaysFails` | `DesignSystem.GenerationOutput` |
