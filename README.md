# Diagnostics dashboard: a Dafny model of its core

The dashboard fetches a diagnostics document from one of three cloud
environments (Public, Fairfax, Mooncake) and shows three things from it:
the hosted extensions, the build information and the server information.

This project models the parts of the dashboard that decide things:

- The per-environment **diagnostics cache** behind `useDiagnostics`. It is a
  process-wide map from an environment URL to an entry that holds the
  resolved payload, the stored failure and the in-flight fetch. A read does
  one of three things: it returns the payload, it rethrows the failure, or it
  suspends on the one in-flight fetch, starting that fetch if there is none.
  The fetch's settle callbacks fill the entry in, and `clearCache` empties
  the map.
- The **extension navigation list**. The `ExtensionInfo` values of the
  `extensions` record each become a link, and the links are sorted by key.
- The **top-level component's state and selection rules**:
  - the environment label;
  - the initial state;
  - the environment-change reset;
  - the link and `paasserverless`/`websites` selection;
  - the null-diagnostics guard;
  - what one render shows.
- The **color-mode hook**: the mode on display, the toggle's next theme, and
  `useColorModeValue`.
- The **key/value tables** of an extension: Stage Definitions, with each
  step list joined by ", ", and Configuration.
- The **chunk-naming rule** `manualChunks` of the production build.

Layout, one module per file:

| file | module | what it holds |
|---|---|---|
| `wrappers.dfy` | `Wrappers` | `Option` and `Result` |
| `strings.dfy` | `Strings` | `includes`, `indexOf`, `split`, `join` and `<` on strings |
| `records.dfy` | `Records` | a JavaScript object as its `Object.entries` sequence; `Object.values`; `obj[key]` |
| `diagnostics_types.dfy` | `DiagnosticsTypes` | the payload's data contract |
| `use_diagnostics.dfy` | `UseDiagnostics` | the fetcher, the step functions on a `Store` value, and the class `DiagnosticsCache` that performs those steps in place |
| `extensions.dfy` | `Extensions` | `isExtensionInfo`, `toNavLink`, `byKey`, the sorted link list, the click |
| `app.dfy` | `App` | the environment constants and label, the selection rules, the page of one render, and the class `App` |
| `color_mode.dfy` | `ColorMode` | the color-mode hook |
| `tables.dfy` | `Tables` | the `reduce` shared by both tables |
| `stage_definition.dfy` | `StageDefinition` | the Stage Definitions rows |
| `configuration.dfy` | `Configuration` | the Configuration rows |
| `vite_config.dfy` | `ViteConfig` | `manualChunks` |

How the cache is modelled:

- Each promise is identified by the number of its `fetch` call in
  `fetches`, the log of URLs passed to `fetch`.
- A settle step is given the key and the promise number it was started for.
- The callbacks write into the entry object they captured. A settle
  therefore changes the map only while the entry under that key still holds
  that promise. Once `clearCache` has dropped the entry, its late settle
  writes somewhere no read can see.
- JavaScript truthiness is explicit:
  - `if (!entry.data)` treats a body that parses to `null`, `false`, `0` or
    `""` as no data (`FalsyLiteral`);
  - `forcedTheme || resolvedTheme` treats `undefined` and `""` as false.

`src/utils.ts` is not part of this model. Its three functions
`isExtensionInfo`, `toNavLink` and `byKey` are specified from what their
tests assert. For `byKey`, those tests pin only "a" before "b", "b" after
"a" and "a" with "a". The model assumes the full lexicographic `<` order
of the keys, character by character (see "Left out").

## Model

| member | source | states |
|---|---|---|
| UseDiagnostics.FetchDiagnosticsData | src/useDiagnostics.ts:11-18 | A network failure passes through unchanged. An ok response settles to its parsed body, or to the parser's own error. A non-ok response fails with the message "Failed to fetch diagnostics: " followed by the status text. |
| UseDiagnostics.ReadStore | src/useDiagnostics.ts:24-61 | A read leaves the key present and every other key unchanged. It raises exactly when the entry holds an error. It returns a value exactly when there is no error and the data is truthy. Otherwise it suspends on the entry's promise. It issues a fetch exactly when the entry was idle: no error, no data, no promise. It keeps the cache invariant that a pending promise means neither data nor error and names a fetch of this key. |
| UseDiagnostics.SettleStore | src/useDiagnostics.ts:46-54 | When the entry still holds this promise, the promise is cleared. On success the entry's data becomes the fetched body, with the error untouched. On failure the entry's error becomes the fetched error, with the data untouched. Otherwise nothing changes. No other key changes, no fetch is issued, and the cache invariant is kept. |
| UseDiagnostics.SettleThenRead | src/useDiagnostics.ts:46-54 | From any consistent cache, once the pending fetch of a key settles, the next read of that key returns the fetched payload or raises the fetched error. For a falsy body it starts a new fetch. |
| UseDiagnostics.ClearStore | src/useDiagnostics.ts:20-22 | The map is emptied, so every key is idle. Fetches already issued stay issued. |
| UseDiagnostics.ReadOfNewKey | src/useDiagnostics.ts:28-36 | The first read of a key creates an entry with no data and no error and starts the fetch at once. It suspends, and only that key's entry is added. |
| UseDiagnostics.ReadAgain | src/useDiagnostics.ts:39-58 | A second read of the same key changes nothing and returns what the first read returned, without starting a fetch. |
| UseDiagnostics.RepeatedReads | src/useDiagnostics.ts:27-58 | Any number of reads of one key leave the cache as the first read did. Every later read returns the first read's result, with no new fetch. |
| UseDiagnostics.ConcurrentReadsFetchOnce | src/useDiagnostics.ts:43-57 | Reads of an unsettled key all suspend on the same promise. Together they issue at most one fetch, and exactly one when none was pending. |
| UseDiagnostics.FailedKeyRaisesOnEveryRead | src/useDiagnostics.ts:39-41 | A failed key raises the same stored error on every read and issues no fetch. |
| UseDiagnostics.ResolvedKeyReturnsOnEveryRead | src/useDiagnostics.ts:43-60 | A resolved key returns its data on every read and issues no fetch. |
| UseDiagnostics.SettleKeepsSettledEntries | src/useDiagnostics.ts:46-54 | Settling any promise leaves a resolved or failed entry unchanged. |
| UseDiagnostics.ReadsFetchIdleKeys | src/useDiagnostics.ts:25-45 | Across any sequence of reads, the fetches issued are for exactly those keys read while idle. Keys are compared by exact equality. |
| UseDiagnostics.ReadsFetchEachIdleKeyOnce | src/useDiagnostics.ts:25-45 | Across any sequence of reads, there is exactly one fetch per distinct idle key: distinct environments are fetched independently, and no key is fetched twice. |
| UseDiagnostics.ClearThenReadFetches | src/useDiagnostics.ts:20-45 | After `clearCache`, the next read of any key starts a new fetch and suspends on it, whether the key was resolved, failed or pending before. |
| UseDiagnostics.ReadAllKeepsPendingFrom | src/useDiagnostics.ts:43-45 | Reads create promises only for new fetches. Every promise pending afterwards was issued after a given point if every promise pending before was. |
| UseDiagnostics.StaleSettleIgnored | src/useDiagnostics.ts:46-54 | A fetch issued before `clearCache` that settles afterwards changes nothing the cache can show, whatever was read in between. |
| UseDiagnostics.FalsyBodyFetchesAgain | src/useDiagnostics.ts:43-49 | A body that parses to a falsy literal is stored, but the next read does not use it: that read issues a new fetch. |
| UseDiagnostics.SuccessfulFetchScenario | src/__tests__/useDiagnostics.test.tsx:63-78 | The first read suspends on fetch 0. After a successful settle, the read returns the payload, with one fetch in all. |
| UseDiagnostics.FailedFetchScenario | src/__tests__/useDiagnostics.test.tsx:141-161 | A non-ok response with status "Network error" makes the next read raise "Failed to fetch diagnostics: Network error". |
| UseDiagnostics.ParseFailureScenario | src/__tests__/useDiagnostics.test.tsx:236-253 | A body that fails to parse with "Invalid JSON" makes the next read raise that same error. |
| UseDiagnostics.DiagnosticsCache.constructor | src/useDiagnostics.ts:9 | The cache starts as an empty map, with no fetches issued and the invariant holding. |
| UseDiagnostics.DiagnosticsCache.Read | src/useDiagnostics.ts:24-61 | The in-place read returns what `ReadStore` returns, leaves the map and the fetch log as `ReadStore` says, and keeps the invariant. |
| UseDiagnostics.DiagnosticsCache.Settle | src/useDiagnostics.ts:46-54 | The in-place settle callbacks leave the state `SettleStore` gives and keep the invariant. |
| UseDiagnostics.DiagnosticsCache.Clear | src/useDiagnostics.ts:20-22 | The in-place clear leaves the state `ClearStore` gives. |
| Records.Values | src/Extensions.tsx:8 | `Object.values` has one value per entry, in entry order. |
| Records.Lookup | src/App.tsx:49 | `record[key]` is `undefined` exactly when no entry has that key. Otherwise it is the value of an entry with that key. |
| Extensions.ByKey | src/__tests__/utils.test.ts:30-51 | The comparator gives -1, 1 or 0 exactly when the first key sorts before, after or with the second. |
| Extensions.ByKeyAntisymmetric | src/__tests__/utils.test.ts:30-51 | Swapping the two links negates the comparison. |
| Extensions.IsExtensionInfo | src/__tests__/utils.test.ts:4-28 | The guard is false exactly for `undefined` and for an `ExtensionError`. |
| Extensions.ToNavLink | src/__tests__/utils.test.ts:53-82 | A link's key and name are both the `extensionName`, and its url is empty, whether or not `config` is present. |
| Extensions.InfoValues | src/Extensions.tsx:9 | The filter keeps exactly the `ExtensionInfo` values and drops every `ExtensionError`. Each `ExtensionInfo` is kept as many times as it occurs, so all values are kept when all are `ExtensionInfo`. |
| Extensions.NavLinks | src/Extensions.tsx:10 | There is one link per `ExtensionInfo`, in order, each built by `toNavLink`. |
| Extensions.Insert | src/Extensions.tsx:11 | Inserting into a sorted list keeps it sorted by key and adds exactly the one link. |
| Extensions.SortByKey | src/Extensions.tsx:11 | The result is sorted by key and is a permutation of the input. |
| Extensions.Links | src/Extensions.tsx:7-11 | The navigation list is sorted by key and is a permutation of the mapped `ExtensionInfo` values. |
| Extensions.LinkOrigin | src/Extensions.tsx:7-11 | Every link has an empty url, its name equals its key, and some `ExtensionInfo` entry has that key as its `extensionName`. |
| Extensions.LinksSpec | src/Extensions.tsx:7-11 | The list holds one link per `ExtensionInfo` value and none for an `ExtensionError`. Each link has key and name equal to `extensionName` and an empty url, whether or not `config` is present. Every `ExtensionInfo` has its link. The list is sorted by key, and an empty record gives an empty list. |
| Extensions.ClickCalls | src/Extensions.tsx:34 | A click makes at most one call to `onLinkClick`, and exactly one when a callback is given. Any call carries the clicked link. |
| App.ClickedLinkNamesItsExtension | src/Extensions.tsx:34 | A click on link `i` of the navigation list hands `onLinkClick` one link. Its key equals its name and names an `ExtensionInfo` of the record, which the corrected lookup finds. The lookup as written finds something only when the record holds an `ExtensionInfo` under that same key. |
| App.EnvironmentName | src/App.tsx:19-30 | Each of the Public, Fairfax and Mooncake URLs gets its own label: "Public Cloud", "Fairfax" or "Mooncake", in both directions. Anything else gets "Select environment". |
| App.ExtensionAt | src/App.tsx:49-50 | A lookup selects something exactly when there are diagnostics and `extensions[key]` is an `ExtensionInfo`, and then selects that very value. |
| App.ShowPaasServerless | src/App.tsx:58-61 | The button is shown exactly when there are diagnostics and `extensions["paasserverless"]` is an `ExtensionInfo`. |
| App.PaasServerlessShownIffSelectable | src/App.tsx:58-61 | The `paasserverless` button is shown exactly when `extensions["paasserverless"]` is an `ExtensionInfo`. Clicking it selects that value. |
| App.FirstNamed | src/App.tsx:46-56 | The search finds an `ExtensionInfo` with the given name whenever one exists, and only such a value. |
| App.LinkedExtension | src/App.tsx:46-56 | The corrected lookup of a link gives an `ExtensionInfo` of the record named by the link's key. It gives nothing only when there are no diagnostics or no such extension exists. |
| App.EveryLinkHasItsExtension | src/App.tsx:46-56 | Under the corrected lookup, every link of the navigation list selects an `ExtensionInfo` of the record whose name is the link's name. |
| App.LinkClickMissesExtensionKeyedByOtherName | src/App.tsx:49 | With the record `{testExtension: {extensionName: "Test Extension"}}`, the one link selects nothing under the handler as written. The corrected lookup selects that extension. |
| App.PageFor | src/App.tsx:81-175 | Null diagnostics render nothing. Otherwise the page shows the environment label and the `paasserverless` button rule, and the Extensions panel (sorted links plus the selected extension) exactly when the tab is "extensions". |
| App.App.constructor | src/App.tsx:33-44 | The initial environment is the Public URL, no extension is selected, and the tab is "extensions". |
| App.App.HandleEnvironmentChange | src/App.tsx:68-79 | An empty value changes nothing. Any other value becomes the environment, clears the selected extension and clears the cache. The tab is unchanged either way. |
| App.App.HandleLinkClick | src/App.tsx:46-56 | The handler as written. The selection becomes `extensions[item.key]` only when an item is given and that value is an `ExtensionInfo`. Otherwise the selection is unchanged, and so are the environment and the tab. |
| App.App.HandleLinkClickCorrected | src/App.tsx:46-56 | The corrected handler (see "Findings"). A click with an item selects the `ExtensionInfo` whose name is the item's key, when there is one. Otherwise the selection is unchanged. |
| App.App.HandleNamedButton | src/App.tsx:113-132 | The `paasserverless` and `websites` buttons select the named record entry when it is an `ExtensionInfo`, and otherwise leave the selection unchanged. |
| App.App.HandleTabChange | src/App.tsx:141 | The tab becomes the given value; the environment and the selection are unchanged. |
| App.App.Render | src/App.tsx:42 | One render reads the cache for the current environment. The view is loading, crashed or the page, exactly as that read suspends, raises or returns. |
| ColorMode.ColorModeOf | src/hooks/useColorMode.ts:13 | The color mode is the forced theme when one is set, and otherwise the resolved theme. |
| ColorMode.SetTheme | src/hooks/useColorMode.ts:24 | `setColorMode` sets exactly the given theme and leaves the forced theme and the system preference alone. |
| ColorMode.Toggle | src/hooks/useColorMode.ts:14-21 | A toggle sets the theme to "light" or "dark" and nothing else. |
| ColorMode.ColorModeValue | src/hooks/useColorMode.ts:29-32 | The dark value when the color mode is "dark", the light value otherwise. |
| ColorMode.NextTheme | src/hooks/useColorMode.ts:14-21 | The toggle always chooses "light" or "dark". From "system" it chooses the opposite of the resolved theme. Otherwise it chooses "light" exactly when the current theme is "dark". |
| ColorMode.ToggleFlipsExplicitTheme | src/hooks/useColorMode.ts:14-21 | The toggle never sets "system". It moves "light" to "dark" and "dark" to "light". From "system" it moves to the opposite of the system preference. |
| ColorMode.ToggleTwiceRestores | src/hooks/useColorMode.ts:14-21 | Toggling twice from "light" or "dark" comes back to it. |
| ColorMode.ToggleChangesColorMode | src/hooks/useColorMode.ts:13-21 | Unless a theme is forced, a toggle changes the color mode on display, and the new mode is light or dark. |
| ColorMode.ForcedThemeWins | src/hooks/useColorMode.ts:13 | A forced theme stays on display whatever a toggle or `setColorMode` does. |
| ColorMode.SetColorModeShowsIt | src/hooks/useColorMode.ts:24 | Unless a theme is forced, `setColorMode("light")` shows light and `setColorMode("dark")` shows dark. |
| ColorMode.ColorModeValuePicksByMode | src/hooks/useColorMode.ts:29-32 | `useColorModeValue` gives the dark value exactly when the color mode is "dark". |
| Tables.AppendPairs | src/StageDefinition.tsx:9-12 | The reduce keeps what it started from and appends one pair per entry, in entry order, with key and value unchanged. |
| Tables.Items | src/Configuration.tsx:7-10 | There is one item per entry, in entry order, with key and value unchanged. |
| StageDefinition.StepsText | src/StageDefinition.tsx:32 | No steps give the empty text. Otherwise the text is as long as the steps together plus two characters between each pair of steps. |
| StageDefinition.Rows | src/StageDefinition.tsx:29-32 | There is one row per stage, in entry order. Each row holds the stage's key and its steps joined by ", ". |
| StageDefinition.StepsTextOfFewSteps | src/StageDefinition.tsx:32 | No steps show as the empty string, and one step shows as itself. |
| StageDefinition.StepsTextAppend | src/StageDefinition.tsx:32 | Adding a step at the end adds ", " and that step to the text. |
| StageDefinition.ThreeSteps | src/__tests__/StageDefinition.test.tsx:43-53 | The steps "build", "test" and "package" show as "build, test, package". |
| Configuration.Rows | src/Configuration.tsx:29-30 | The rows are the config entries themselves: same count, same order, keys and values unchanged. |
| ViteConfig.ManualChunks | vite.config.ts:10-16 | Anything under `node_modules/@emotion` goes to "@emotion", and that check comes first. An id without `node_modules/` gets no chunk. Any other id gets a "/"-free prefix of the text after its first `node_modules/`, with no `node_modules/` starting inside it. That prefix ends at the first of: the end of the text, a "/", or the start of a second `node_modules/`. |
| ViteConfig.PackageSegmentBounds | vite.config.ts:14 | The second branch's segment is a "/"-free prefix of the text after the first `node_modules/`. It ends at the first end point `ManualChunks` states. |
| ViteConfig.ChunkEndsAtSecondNodeModules | vite.config.ts:14 | When a second `node_modules/` follows the package name with no "/" between them, the chunk is the name, cut where the second one begins. |
| ViteConfig.NestedNodeModulesChunk | vite.config.ts:14 | `p/node_modules/xnode_modules/y` goes to the chunk "x". |
| ViteConfig.EmotionIsUnderNodeModules | vite.config.ts:11-13 | Every id the first branch catches would also match the second branch, so the order of the two checks matters. |
| ViteConfig.PackageChunk | vite.config.ts:13-14 | For a path `<prefix>node_modules/<name>/<rest>`, the chunk is the package name. This holds when that `node_modules/` is the first one, the path is not an emotion path, and the name holds no "/" and no "node_modules". |
| ViteConfig.EmotionChunk | vite.config.ts:11-12 | Any path through `node_modules/@emotion` goes to the "@emotion" chunk. |
| Strings.Split | vite.config.ts:14 | `split` with a non-empty separator gives at least one piece. With no occurrence it gives the whole string. Otherwise the first piece is the text before the first occurrence, and the rest is the split of the text after it. |
| Strings.Join | src/StageDefinition.tsx:32 | `join` of no parts is empty. Otherwise it begins with the first part, and its length is the parts' lengths plus one separator between each pair. |
| Strings.JoinSplit | vite.config.ts:14 | Joining the pieces of a split with the same separator gives back the original string. This checks the model of `split`. |

## Left out

- The network and the JSON decoder are not modelled. A `fetch` call is
  represented by what it settles to: a response with `ok`, `statusText` and
  the outcome of `json()`, or a network failure.
- Promises and asynchrony are not modelled. A settle is an explicit step
  that the caller orders freely. React Suspense's thrown promise is the
  `Suspend` result, carrying the promise's fetch number.
- `useMemo` memoisation of the cache entry across renders is not modelled.
  Each read is a fresh lookup-or-create, so a component that keeps an entry
  object across `clearCache` with an unchanged key is not modelled.
- Entries are values in a map, not shared objects. A late settle's write
  into an entry that `clearCache` dropped is modelled as having no visible
  effect, which is what the map shows.
- Every stored `error` is taken to be truthy, since it is an `Error` object.
  A rejection with a falsy reason is not modelled.
- A truthy JSON body that is not an object (a number, a string, an array) is
  not modelled. A body is either a diagnostics payload or a falsy literal.
- React state hooks, `startTransition` and re-rendering order are not
  modelled. The component's state is three fields that the handlers update
  at once.
- The `environments` record of the component is collapsed to the one
  environment it holds.
- JSX, Chakra UI layout, snapshot markup and the menu items listing the
  environments are not modelled.
- `ServerInfo`, `BuildInfo`, `Extension`, the `ColorModeButton` and
  provider wiring, `index` and `reportWebVitals` are not modelled. They
  project fields into markup or wire libraries together.
- The theme library (next-themes) is modelled only through what the hook
  reads from it: `resolvedTheme` is the system preference under "system",
  and the theme itself otherwise.
- `src/utils.ts` is not part of this model. `IsExtensionInfo`, `ToNavLink`
  and `ByKey` follow what its tests assert.
- Extensions.ByKey: the order of keys is an assumption, since `byKey` is
  not part of this model and its tests fix only "a" against "b". The model
  assumes the lexicographic order of `<`, comparing keys character by
  character on Unicode code points. A `byKey` built on `localeCompare`
  would order keys differently. A `byKey` built on `<` compares UTF-16 code
  units, which differs from the model only between characters outside the
  Basic Multilingual Plane and characters from U+E000 to U+FFFF.
- A record may list the same key twice, which a JavaScript object cannot.
  `Records.Lookup` then gives the first entry with that key. No contract
  depends on the keys being distinct.
- `Object.entries` order for integer-like keys (listed first, ascending) is
  not modelled. A record is the sequence of its entries in the order given.
- The build plugins and the test and coverage settings of `vite.config.ts`
  are not modelled.

## Findings

| source | as written | input that shows it | evidently intended | confidence | as-written member | corrected member |
|---|---|---|---|---|---|---|
| src/App.tsx:46-56 | A click on a navigation link looks `extensions[item.key]` up. But a link's key is the extension's `extensionName`, not its key in the record. | The record `{testExtension: {extensionName: "Test Extension"}}`: the one link, key "Test Extension", selects nothing. | The click selects the `ExtensionInfo` the link was made from, found by its name. | not executed; shows only when a record key differs from its `extensionName` | App.LinkClickMissesExtensionKeyedByOtherName | App.App.HandleLinkClickCorrected |

The component's own test data uses exactly that record
(src/__tests__/App.test.tsx:23-28). The test of a link click
(src/__tests__/App.test.tsx:189-205) passes only with the handler as
written. After the click it looks "Test Extension" up with `getByText`, and
that text is already on the navigation button. If the click selected the
extension, its details view would show the name a second time as a heading
(src/Extension.tsx:19-21), and `getByText` would fail on the two matches.
The only statement of intent is the test's comment that the click should
display the extension details (src/__tests__/App.test.tsx:201). Whether
real payloads key their extensions by name is not known, so the finding
may never show in practice.

`App.ExtensionAt` is the lookup as written. The `paasserverless` and
`websites` buttons use it as intended, with record keys. The class method
`App.App.HandleLinkClick` models the link handler as written. The
corrected lookup is `App.LinkedExtension`, and `App.App.HandleLinkClickCorrected`
is the handler built on it.
