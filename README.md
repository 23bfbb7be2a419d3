# kosmtik project server: dispatch, poll queue and page strings

A Dafny model of the sequential core of `src/back/ProjectServer.js`, the
per-project request server of kosmtik (a map-style development server).
It covers:

- **Request dispatch** (`serve`): an ordered chain of tests that hands a
  request path to exactly one handler (redirect, main page, options, poll,
  export, reload, a project route of the parent router, tile, not found),
  and `serveTile`, which splits the last path component at `.` and picks the
  vector or the raster renderer from the extension.
- **The poll queue**: the `_poll_queue` field of the server, filled by the
  filesystem watcher through `addToPollQueue` and drained by `poll`, which
  answers 200 with the serialized queue or 304 with an empty body.
- **The watcher's filename filter**: names starting with `.` are ignored.
- **Page strings**: the `<script>`/`<link>` tags that `main` folds from the
  configured asset lists and substitutes into the page template, and the
  `var project = …;` script of `options`.

Modules, one per concern:

- `wrappers.dfy` (`Wrappers`): `Option`, standing for JavaScript `undefined`.
- `jsbuiltins.dfy` (`JsBuiltins`): the JavaScript built-ins the code relies on,
  with their ECMAScript meaning: `String.prototype.indexOf`, `split` with a
  one-character separator, `replace` with a string pattern (which expands
  `$$`, `$&`, `` $` `` and `$'` in the replacement text), `Array.prototype.indexOf`
  (identity, `===`).
- `router.dfy` (`Router`): `serve` and `serveTile`.
- `pages.dfy` (`Pages`): the tag folds, `main`'s template substitution and
  `options`' template.
- `server.dfy` (`Server`): the `ProjectServer` class with its `pollQueue`
  field, the `Message` objects the watcher allocates, the JSON text `poll`
  sends and its parser, and the watcher callback.

Notifications are Dafny objects (`Server.Message`), so the duplicate test of
`addToPollQueue` is object identity, as `indexOf` is in JavaScript. The watcher
allocates a new `{isDirty: true}` for every change (line 16), so repeated
changes to one file are not collapsed: two changes give two queued
notifications (`Server.WatcherScenario`).

The parent router's `hasProjectRoute` is a parameter of `Router.Serve` (a
total `string -> bool`); only its place in the order of tests is modelled.
The request's query is an opaque string.

Paths reach the tile branch whenever they split at `/` into five segments
with `tile` second; the first segment is not required to be empty (the code
does not test it), so `x/tile/1/2/3` is a tile request as well.

## Model

| member | source | states |
|---|---|---|
| `Router.Serve` | src/back/ProjectServer.js:23-36 | each handler is chosen exactly under its test and the failure of all earlier tests: empty path redirects; `/`, `/options/`, `/poll/`, `/export/`, `/reload/` go to their handlers whatever the parent's routes are; a parent project route wins over tile handling; tile needs 5 segments with `tile` second and passes segments 2, 3, 4; everything else is not found |
| `Router.TilePathNotFixed` | src/back/ProjectServer.js:27-32 | no path of the tile shape equals one of the fixed paths, so the fixed tests never shadow a tile |
| `Router.TileRouteOfShape` | src/back/ProjectServer.js:33-34 | every path `first/tile/z/x/last` with slash-free segments is a tile request for exactly (z, x, last), unless the parent claims it as a project route |
| `Router.TileRouteShape` | src/back/ProjectServer.js:25-34 | conversely every tile request comes from a path `first/tile/z/x/last` with slash-free z, x and last |
| `Router.ExtensionSpec` | src/back/ProjectServer.js:39-40 | the extension is missing exactly when the last component has no dot; otherwise it holds no dot and is the text from just after the first dot up to the next dot or the end |
| `Router.ServeTile` | src/back/ProjectServer.js:38-44 | z and x are passed on unchanged; y is the piece before the first `.` and holds no `.`; vector exactly when the piece after the first `.` exists and is `json` |
| `Router.ServeTileY` | src/back/ProjectServer.js:39-41 | y is the longest dot-free prefix of the last component: the whole of it, or the part before a `.` |
| `Router.ServeTileByExtension` | src/back/ProjectServer.js:39-43 | for `y.ext` followed by nothing or by a further `.`-suffix, vector exactly when ext is `json`, with y kept |
| `Router.ServeTileNoDot` | src/back/ProjectServer.js:40-43 | a last component without a dot is rendered as raster with y unchanged |
| `Router.ServeTileExamples` | src/back/ProjectServer.js:38-44 | `7.json` is vector; `7.png` and `7` are raster; y is `7` in each |
| `Router.ServeTileFirstDotExample` | src/back/ProjectServer.js:39-43 | `7.tar.json` is raster with y `7`: only the piece after the first dot is the extension |
| `Router.VectorTileRequest` | src/back/ProjectServer.js:34-42 | `/tile/5/3/7.json` reaches the vector renderer with z 5, x 3, y 7 unless it is a project route |
| `JsBuiltins.Split` | src/back/ProjectServer.js:25 | `split('/')` yields at least one piece, no piece holds the separator, and joining the pieces with it gives back the string |
| `JsBuiltins.SplitJoin` | src/back/ProjectServer.js:39 | `split` inverts `join` for separator-free pieces, so the pieces are unique |
| `JsBuiltins.IndexOf` | src/back/ProjectServer.js:15 | `indexOf` is -1 exactly when the pattern occurs nowhere; otherwise it is an index where the pattern occurs and no occurrence starts earlier |
| `JsBuiltins.IndexOfAt` | src/back/ProjectServer.js:107 | `indexOf` finds a pattern at the place it was put whenever no occurrence starts before that place |
| `JsBuiltins.NoMatchStartsInAny` | src/back/ProjectServer.js:107-108 | whether an occurrence of the pattern starts inside a prefix depends only on the prefix and the pattern, not on the text after them |
| `JsBuiltins.FirstCharNotIn` | src/back/ProjectServer.js:84 | a pattern whose first character is absent from a prefix cannot start inside it |
| `JsBuiltins.IndexOfElement` | src/back/ProjectServer.js:118 | `Array.prototype.indexOf` is -1 exactly when no element is identical to the argument, and otherwise the first such index |
| `JsBuiltins.SubstitutionLiteral` | src/back/ProjectServer.js:84 | a replacement text without `$` is inserted literally by `replace` |
| `JsBuiltins.SubstitutionOnePattern` | src/back/ProjectServer.js:107 | a single `$$`, `$&`, `` $` `` or `$'` in a replacement is expanded to `$`, the match, the text before or the text after it |
| `JsBuiltins.ReplaceFirst` | src/back/ProjectServer.js:107-108 | `replace` with a string pattern returns a string without any occurrence unchanged; otherwise it replaces the first occurrence only, keeping the text before and after it, by the replacement with `$`-patterns expanded from the matched text and the text around it |
| `JsBuiltins.ReplaceFirstAt` | src/back/ProjectServer.js:107-108 | a pattern put after a prefix inside which no occurrence starts is the one replaced: by the expanded replacement, or, literally, by the replacement |
| `JsBuiltins.ReplaceFirstAfter` | src/back/ProjectServer.js:107-108 | the same, with the condition stated on the prefix and the pattern alone |
| `JsBuiltins.ReplaceFirstExpands` | src/back/ProjectServer.js:84 | where the pattern occurs, `replace` is literal replacement by the expanded replacement text |
| `JsBuiltins.ReplaceFirstLiteralAgrees` | src/back/ProjectServer.js:84 | with no `$` in the replacement, `replace` and literal replacement agree |
| `Pages.ReduceIsConcat` | src/back/ProjectServer.js:99-104 | the `reduce` from an accumulator is the accumulator followed by one tag per URL, in order |
| `Pages.ConcatTagsAppend` | src/back/ProjectServer.js:99-104 | the tags of two lists concatenated are the tags of the first followed by the tags of the second |
| `Pages.ScriptTags` | src/back/ProjectServer.js:99-101 | the `js` string is the in-order concatenation of one `<script src="…"></script>` line per configured URL; `''` for none |
| `Pages.StylesheetTags` | src/back/ProjectServer.js:102-104 | the `css` string is the in-order concatenation of one `<link rel="stylesheet" href="…" />` line per configured URL; `''` for none |
| `Pages.MainPage` | src/back/ProjectServer.js:105-108 | a template holding neither placeholder is sent unchanged |
| `Pages.MainPageIntendedLayout` | src/back/ProjectServer.js:107-108 | a template `pre %%JS%% mid %%CSS%% post` gets the script tags for the first placeholder and the stylesheet tags for the second, whenever no `%%JS%%` starts inside pre and no `%%CSS%%` starts before the second placeholder once the first is replaced |
| `Pages.MainPageIntendedLayoutCssFirst` | src/back/ProjectServer.js:107-108 | a template `pre %%CSS%% mid %%JS%% post` gets the stylesheet tags for the first placeholder and the script tags for the second, whenever no `%%JS%%` starts before the script placeholder and no `%%CSS%%` inside pre |
| `Pages.PercentFreeNoPlaceholder` | src/back/ProjectServer.js:107-108 | neither placeholder can start inside a text without `%` |
| `Pages.MainPageAgrees` | src/back/ProjectServer.js:107-108 | when no URL holds `$`, the page as written equals the page with literal insertion |
| `Pages.MainPageDollarUrl` | src/back/ProjectServer.js:107 | a script URL `a$$b` comes out as `a$b` on the page, where `a$$b` was intended |
| `Pages.OptionsTemplateShape` | src/back/ProjectServer.js:83 | the template is `var project = `, `%`, `;`, and no `%` starts inside the prefix, so the one `%` is the one replaced |
| `Pages.OptionsBody` | src/back/ProjectServer.js:83-84 | the script is `var project = `, then the serialization with its `$`-patterns expanded (the match being `%`, the text before it the prefix, the text after it `;`), then `;` |
| `Pages.OptionsBodyIntended` | src/back/ProjectServer.js:83-84 | literal insertion into the template gives `var project = ` + json + `;` for every json |
| `Pages.OptionsBodyWithoutDollar` | src/back/ProjectServer.js:83-84 | for a serialization without `$` the code sends `var project = ` + json + `;` |
| `Pages.OptionsBodyDollarPattern` | src/back/ProjectServer.js:84 | a serialization `a$&b` is sent as `var project = a%b;` |
| `Server.IsIgnoredFilename` | src/back/ProjectServer.js:15 | the watcher ignores a name exactly when it starts with `.`; the empty name is not ignored |
| `Server.Enqueued` | src/back/ProjectServer.js:117-119 | after a push the message is queued, the old entries keep their order as a prefix, the length grows by at most one, the queue is unchanged exactly when that object was already there, and no identity is ever duplicated |
| `Server.EnqueuedIdempotent` | src/back/ProjectServer.js:118 | pushing the same object twice is the same as pushing it once |
| `Server.EnqueuedAllDistinct` | src/back/ProjectServer.js:117-119 | distinct objects pushed in turn are all kept, after what was pending, in push order |
| `Server.ElementsRoundTrip` | src/back/ProjectServer.js:123 | the comma-separated notification texts of a non-empty list parse back to that list |
| `Server.ArrayJson` | src/back/ProjectServer.js:123 | the serialization of any list of notifications parses back to exactly that list, in order |
| `Server.DirtyFlags` | src/back/ProjectServer.js:123 | the serialized fields are the `isDirty` fields of the queue, one per entry, in queue order |
| `Server.PollResponse` | src/back/ProjectServer.js:121-132 | status 200 exactly when the body is non-empty, which is exactly when the queue was non-empty, 304 otherwise; Content-Length is the body length; an empty queue gives `''`; a non-empty one gives its entries serialized in insertion order |
| `Server.ProjectServer.constructor` | src/back/ProjectServer.js:9 | a new server starts with an empty queue |
| `Server.ProjectServer.AddToPollQueue` | src/back/ProjectServer.js:117-119 | the queue becomes `Enqueued` of the old queue and keeps having no duplicates |
| `Server.ProjectServer.Poll` | src/back/ProjectServer.js:121-133 | the queue is left empty and the answer is `PollResponse` of the old queue |
| `Server.ProjectServer.FileChanged` | src/back/ProjectServer.js:14-16 | a hidden name leaves the queue unchanged; any other name appends one fresh dirty notification after the old entries |
| `Server.WatcherScenario` | src/back/ProjectServer.js:15-16 | changes to `a.txt`, `a.txt`, `.hidden` then a poll give 200 with two dirty notifications; a second poll gives 304 with an empty body |

## Left out

- The filesystem watch registration (line 14), the change log line (line 17) and the file read of the page template (line 105): I/O. The watcher callback is `Server.ProjectServer.FileChanged`; the template is a parameter of `Pages.MainPage`.
- All `res.writeHead`/`write`/`end` calls: I/O. Only `poll`'s status, headers and body are modelled, as the `Server.Response` value.
- `tile` and `vectortile` (lines 46-77): map-pool acquisition and release, rendering, PNG encoding and `toGeoJSON` are calls into modules that are not part of this model.
- The map pools and `reload` (lines 12-13, 135-148): an external asynchronous pool library whose semantics are not visible here. The code starts draining the old raster pool, then installs the new one without waiting for the drain, and does not replace the vector pool at all; neither is modelled.
- `project.when('loaded', …)`, `project.load` and `project.reload` (lines 11, 20, 34, 137-138): deferral by a foreign event primitive. Tile requests are modelled as the route they are given, without the deferral.
- `export` (lines 88-96): `project.export` is foreign; dispatch passes the query on, which is all that is modelled.
- The body of the project-route branch (line 33): it calls a handler of the parent through `req` and `this.projects`, neither of which this file defines; only the branch's position is modelled.
- `redirect` and `notFound` (lines 27, 35) belong to the parent router; the model stops at the choice of handler.
- `JSON.stringify(this.project.toFront())` (line 84) is foreign; `Pages.OptionsBody` takes its result as a string.
- `JSON.stringify` of queue entries other than `{isDirty: b}` objects: the watcher is the only producer in this file and allocates only those.
- `Server.PollResponse`: Content-Length is `data.length`, which counts UTF-16 code units; the poll body is ASCII, so this equals the character count used here. The same header of `main` (line 111) is not modelled.
- `Server.ProjectServer.FileChanged`: a missing filename is not modelled; the name is a string. `fs.watch` may pass `null` for it, on which `indexOf` at line 15 throws inside the callback.
- A missing pathname (`uri.pathname` null, on which `split` at line 25 would throw) is not modelled; the pathname is a string.
- Concurrency: JavaScript runs each callback to completion, so `addToPollQueue` and `poll` are atomic and are modelled as sequential methods.

## Findings

| source | as written | input that shows it | evidently intended | confidence | as-written member | corrected member |
|---|---|---|---|---|---|---|
| src/back/ProjectServer.js:84 | `tpl.replace('%', json)` with a string replacement, which expands `$`-patterns | a project whose serialization holds `$&`, e.g. `{"name":"$&"}`, is sent as `var project = {"name":"%"};` | `var project = ` + json + `;` for every json | medium; not executed | `Pages.OptionsBodyDollarPattern` | `Pages.OptionsBodyIntended` |
| src/back/ProjectServer.js:107 | `data.replace('%%JS%%', js)` expands `$`-patterns in the script tags (line 108 does the same with the stylesheet tags) | a configured script URL `a$$b` is emitted as `<script src="a$b">` | the tags inserted literally | medium; not executed | `Pages.MainPageDollarUrl` | `Pages.MainPageIntendedLayout` |
