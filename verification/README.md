# sveltego: a verified model of its hard parts

sveltego is a SvelteKit-shaped framework in Go: a code generator that turns a
route scan into a Go manifest, a request pipeline that renders, streams and
hydrates pages, a cookie-session library with secret rotation, an in-memory auth
store and a small language server. This project models the parts where several
functions, many requests or arbitrary interleavings have to agree, and proves
what they promise each other.

Go strings and byte slices are both `string`, one `char` per byte, and Go ints
are unbounded except where the code depends on their width; in the manifest
modules a `char` is a rune, and which runes beyond ASCII are letters or digits
is a parameter. Objects that the
code updates in place are classes; loops are loops; everything the loops are
proved against is a function on values, and the main results are lemmas about
those functions. What the code calls but does not contain (AES-GCM, JSON of
arbitrary values, handlers, the client of a connection, the order of a map
iteration) is a parameter, with its defining laws where there are any.

Where a promise is false of the code, the code is kept as it is, an input that
breaks the promise is given, and the exact condition under which the promise
holds is proved in both directions. The one exception is the policy cache: the
condition on good configs is proved sufficient, and each of its clauses is shown
to be needed by a pair of configs that breaks that clause alone.

| files | what they model |
|---|---|
| `Aliases`, `Manifest`, `ManifestEmit`, `ManifestScope`, `ManifestNames`, `ManifestTable`, `ManifestChains`, `ManifestGenerate` | the manifest emitter as a compiler to abstract declarations: alias search, import flags, adapters, the route table, exactly when generation fails, and when the result is well scoped |
| `RenderChain`, `ChainMeaning` | the emitted layout chain: lines, a parser, statements, an interpreter, and the nested composition it equals |
| `Vite` | the import walk behind the head fragment |
| `InitGate` | the init goroutine against any number of requests, one event per atomic action |
| `Streaming`, `BufferOwnership` | streaming under an adversarial client; pooled buffers across repeated resolve calls |
| `PayloadWriter`, `ScriptEscape`, `PayloadReads`, `Sorting` | the splice serializer against the plain one; escaping JSON for a script element; the document read back token for token |
| `CookieCodec`, `CookieSession`, `CookieJar`, `CookieHistory`, `SessionReload`, `SecretRotation`, `SessionRotation` | chunked cookie sessions, the browser jar over many requests with any operations, expiry, secret rotation |
| `Links`, `RawParams`, `LinkFields`, `LinkNames`, `LinkEmit` | building a path, reading it back, and the generated builders with their names and struct fields |
| `SpanCutting`, `HeadTitle` | title deduplication, on a general theory of scanners that cut spans |
| `Csp`, `CspCache`, `CspCollisions` | the spliced policy header, the template cache in front of it, and configs its fingerprint confuses |
| `AuthStore`, `AuthHistory` | the in-memory store: index, cascade, private copies, and what every lookup finds after any history of calls |
| `LspFraming` | message framing and the serve loop |
| `Text` | decimals, trimming, splitting and joining |

Where code and comments disagree the model follows the code:
`writeEscapedScriptJSON` copies its input although its comment says it escapes
(packages/sveltego/server/pipeline.go:1256-1285, proved of its loop as
`ScriptEscape.WriteEscapedScriptJSON`), so the escaping results are about
`escapeScriptSpecial`; the comment on `GenerateManifest` says page routes
get a `Page` handler, but a page that is not in Svelte mode gets an adapter and
no `Page` field (packages/sveltego/internal/codegen/manifest.go:1085-1100,
proved with the exact condition as `ManifestNames.PageHandlerExactly` and
`ManifestNames.PlainPageUnserved`); the comment on `planSSR` says any annotated
Svelte page goes to the sidecar, but one that is neither prerendered nor rendered
live goes nowhere (packages/sveltego/internal/codegen/ssr.go:492-519, proved with
the exact condition as `ManifestTable.PlansExactly` and
`ManifestTable.AnnotatedButOff`); the comment on the passed-over layout says the output stays valid, but it does not
balance (manifest.go:1040-1048, 1068-1071).

## Model

| member | source | states |
|---|---|---|
| `Aliases.AliasTable.FreeName` | packages/sveltego/internal/codegen/manifest.go:123-130 | the search ends, because all names tried differ, with the first of them that nobody has |
| `Aliases.AliasTable.UniqueAlias` | packages/sveltego/internal/codegen/manifest.go:119-134 | a new package gets the first free of its names, a known one keeps its alias, and the table stays injective for any sequence of packages |
| `Aliases.CandidatesDiffer` | packages/sveltego/internal/codegen/manifest.go:123-130 | no two names of the search for one package are equal |
| `Aliases.PackageAliasClashes` | packages/sveltego/internal/codegen/manifest.go:446-453 | packageAlias alone is not injective |
| `Aliases.PackageAliasSpelled` | packages/sveltego/internal/codegen/manifest.go:446-453 | the alias of a package below .gen/ is page_ and its path with underscores for slashes |
| `Aliases.AliasFits` | packages/sveltego/internal/codegen/manifest.go:446-453 | an alias, numbered or not, is an identifier if and only if its package path below .gen/ is made of identifier characters and slashes, or is .gen itself |
| `Aliases.HyphenDoesNotFit` | packages/sveltego/internal/routescan/segments.go:202-210 | the path of a static directory about-us, which the scanner accepts, is not |
| `Manifest.PlanSSR` | packages/sveltego/internal/codegen/ssr.go:495-548 | the planner's loop: exactly the patterns to transpile and, apart from them, those for the sidecar, in scan order |
| `ManifestEmit.CollectEntries` | packages/sveltego/internal/codegen/manifest.go:116-141 | the entries are the page and server routes in order, and every one's package has an alias |
| `ManifestEmit.CollectLayouts` | packages/sveltego/internal/codegen/manifest.go:147-165 | every layout of every route is registered once, with an alias, and the ones with a server file are known |
| `ManifestEmit.CollectErrors` | packages/sveltego/internal/codegen/manifest.go:174-187 | every error package of every route is registered once, with an alias |
| `ManifestEmit.PageFlags` | packages/sveltego/internal/codegen/manifest.go:233-249 | the two flags say whether some page is rendered at all, and whether some Svelte page has an SSR emit |
| `ManifestEmit.FmtFlag` | packages/sveltego/internal/codegen/manifest.go:267-276 | the flag says whether some page route is not Svelte |
| `ManifestEmit.CsrfFlag` | packages/sveltego/internal/codegen/manifest.go:222-232 | the flag says whether some sidecar pattern has CSRF on |
| `ManifestEmit.ImportPackages` | packages/sveltego/internal/codegen/manifest.go:284-317 | each package worth importing is imported once, no other is |
| `ManifestEmit.FixedImports` | packages/sveltego/internal/codegen/manifest.go:337-360 | the framework imports follow their flags, none twice |
| `ManifestEmit.CheckRouteIDs` | packages/sveltego/internal/codegen/manifest.go:466-477 | fails exactly when two entries share an identifier |
| `ManifestEmit.EmitRenderAdapters` | packages/sveltego/internal/codegen/manifest.go:500-553 | one adapter for each page that is not Svelte or has an SSR emit, with the qualifiers each kind uses |
| `ManifestEmit.EmitFallbackAdapters` | packages/sveltego/internal/codegen/manifest.go:621-677 | one handler for each Svelte page in the sidecar plan, using csrfinject only when CSRF is on |
| `ManifestEmit.EmitLayoutAdapters` | packages/sveltego/internal/codegen/manifest.go:707-717 | one adapter per layout package, and a load adapter per layout with a server file |
| `ManifestEmit.EmitErrorAdapters` | packages/sveltego/internal/codegen/manifest.go:794-837 | one adapter per error package |
| `ManifestEmit.EmitChains` | packages/sveltego/internal/codegen/manifest.go:859-871 | chains and error chains per route, the data helper once, before the first |
| `ManifestEmit.EmitRouteEntry` | packages/sveltego/internal/codegen/manifest.go:1074-1157 | one table entry, field by field |
| `ManifestEmit.EmitRoutes` | packages/sveltego/internal/codegen/manifest.go:406-429 | the route table: one entry after the other, and what all of them name and use |
| `ManifestGenerate.GenerateManifest` | packages/sveltego/internal/codegen/manifest.go:99-440 | an error if and only if two routes share an identifier or an imported package has a path that does not fit; otherwise the imports and declarations that the scoping results are about |
| `ManifestGenerate.DeclWrites` | packages/sveltego/internal/codegen/manifest.go:284-317 | no declaration spells an alias whose package is not imported |
| `ManifestGenerate.FormatsExactly` | packages/sveltego/internal/codegen/manifest.go:434-437 | every alias written is an identifier, so that the text parses, if and only if the path of every imported package fits |
| `ManifestGenerate.HyphenFails` | packages/sveltego/internal/codegen/manifest.go:434-453 | any scan with an imported package in a directory about-us fails, collision or not |
| `ManifestScope.ErrorChainExactly` | packages/sveltego/internal/codegen/manifest.go:920-956 | an entry gets an error chain if and only if it has an error boundary |
| `ManifestScope.EntryImport` | packages/sveltego/internal/codegen/manifest.go:286-303 | a route's package is imported if and only if the route refers to it |
| `ManifestScope.UsedExactly` | packages/sveltego/internal/codegen/manifest.go:211-367 | which routes, layouts and error pages are the reason a qualifier is used, for every qualifier |
| `ManifestScope.CsrfImport` | packages/sveltego/internal/codegen/manifest.go:222-232 | csrfinject is imported if and only if a handler uses it, because sidecar patterns come from Svelte pages |
| `ManifestScope.LayoutsRegistered` | packages/sveltego/internal/codegen/manifest.go:150-162 | every layout of every scanned route is in the layout import map |
| `ManifestScope.ImportsMatchExactly` | packages/sveltego/internal/codegen/manifest.go:337-367 | imports are exactly the qualifiers used if and only if kit has a use: page options given, or no entries, or a page, a layout or an error page |
| `ManifestNames.AllCallsDeclared` | packages/sveltego/internal/codegen/manifest.go:1074-1157 | every handler named in Routes() and every function a chain calls is declared |
| `ManifestNames.PageHandlerExactly` | packages/sveltego/internal/codegen/manifest.go:1085-1100 | for every scan: a page route gets a Page handler if and only if it has no server file and some route with its pattern is planned for SSR or the sidecar; with unique patterns, if and only if it is planned itself |
| `ManifestNames.AdapterNamedExactly` | packages/sveltego/internal/codegen/manifest.go:1085-1100 | Routes() names a package's render adapter if and only if a page of that package has an SSR emit and no server file |
| `ManifestNames.PlainPageUnserved` | packages/sveltego/internal/codegen/manifest.go:500-553 | the failing family: a page that is not Svelte has its adapter declared and gets no handler, and if its package is its own, nothing in the table names the adapter |
| `ManifestTable.TableServes` | packages/sveltego/internal/codegen/manifest.go:1074-1157 | for every scan, every entry has exactly the fields its route asks for: server, page by plan, load, chain if it is a page with layouts, loaders position by position, options, error chain if it has a boundary |
| `ManifestTable.ChainNamedExactly` | packages/sveltego/internal/codegen/manifest.go:1108-1117 | Routes() names a chain if and only if it is that of a page entry with layouts |
| `ManifestTable.ErrorChainNamedExactly` | packages/sveltego/internal/codegen/manifest.go:1144-1152 | Routes() names an error chain if and only if it is that of an entry with an error boundary |
| `ManifestTable.LoaderNamedExactly` | packages/sveltego/internal/codegen/manifest.go:1119-1142 | Routes() names a layout's loader if and only if the layout has a server file and belongs to an entry |
| `ManifestTable.FallbackNamedExactly` | packages/sveltego/internal/codegen/manifest.go:1085-1100 | Routes() names a sidecar handler if and only if it is that of a page without server file whose pattern is for the sidecar and not transpiled |
| `ManifestTable.PlansExactly` | packages/sveltego/internal/codegen/ssr.go:470-549 | a pattern is in a plan if and only if some route with it meets that plan's conditions, written out on its fields |
| `ManifestTable.AnnotatedButOff` | packages/sveltego/internal/codegen/ssr.go:507-519 | an annotated Svelte page with rendering off is in neither plan |
| `ManifestNames.DeclaredOnceExactly` | packages/sveltego/internal/codegen/manifest.go:462-553 | no name is declared twice if and only if no two pages with a render adapter share a package |
| `ManifestNames.WellScopedExactly` | packages/sveltego/internal/codegen/manifest.go:99-440 | for every scan with plans from planSSR and no identifier collision: well scoped if and only if both conditions hold |
| `ManifestNames.ServerOnlyWithoutOptions` | packages/sveltego/internal/codegen/manifest.go:1164-1167 | without page options a lone API route imports kit for nothing |
| `ManifestNames.SpellingIsUnique` | packages/sveltego/internal/codegen/manifest.go:462-553 | different declared names are different identifiers, because every alias starts with page_ |
| `ManifestChains.EveryChainComposes` | packages/sveltego/internal/codegen/manifest.go:396-404 | for every route of every scan, running its emitted chain is the page inside its layouts, the i-th with the i-th layout data, and running its error chain the error page inside those left |
| `ManifestChains.EveryLayoutGetsItsData` | packages/sveltego/internal/codegen/manifest.go:1119-1142 | on the data that the loaders of its table entry return, a route's chain renders every layout with its own loader's data, nil where there is none |
| `ManifestChains.ChainLinesCall` | packages/sveltego/internal/codegen/manifest.go:897-912 | a chain is declared to call exactly the layout adapters its lines call |
| `ManifestChains.ErrorChainLinesCall` | packages/sveltego/internal/codegen/manifest.go:920-956 | the same for an error chain |
| `RenderChain.OpenLayoutCalls` | packages/sveltego/internal/codegen/manifest.go:1026-1072 | the lines written, a missing layout passed over but still closed, and the indentation after them |
| `RenderChain.EmitChainBody` | packages/sveltego/internal/codegen/manifest.go:975-992 | the lines of a page chain; indentation is restored when every layout is registered |
| `RenderChain.EmitErrorChainBody` | packages/sveltego/internal/codegen/manifest.go:1001-1007 | the lines of an error chain, likewise |
| `RenderChain.Builder.Dedent` | packages/sveltego/internal/codegen/emit.go:61-65 | indentation stops at zero |
| `RenderChain.NestParses` | packages/sveltego/internal/codegen/manifest.go:1039-1071 | the nested calls parse and leave over exactly the closing lines without an opening one |
| `RenderChain.ChainBalanced` | packages/sveltego/internal/codegen/manifest.go:975-1072 | for any chain length, opens and closes balance if and only if every layout is registered, and then the code is the nested calls in order |
| `RenderChain.ErrorChainBalanced` | packages/sveltego/internal/codegen/manifest.go:1001-1072 | the same for error chains |
| `ChainMeaning.RunAdapter` | packages/sveltego/internal/codegen/manifest.go:729-775 | the emitted layout adapter: children into a buffer of their own, first child error latched, own error first |
| `ChainMeaning.ChainComposes` | packages/sveltego/internal/codegen/manifest.go:897-912 | interpreting the emitted chain is block-open, l0(d0, l1(d1, ... block-open, page, block-close)), block-close, where di is the i-th entry of the layout data or nil when there are too few |
| `ChainMeaning.LayoutWraps` | packages/sveltego/internal/codegen/manifest.go:729-775 | a layout with one child slot writes its head, what stands before the slot, the children, what stands behind |
| `ChainMeaning.ErrorChainComposes` | packages/sveltego/internal/codegen/manifest.go:920-956 | interpreting the emitted error chain is the error page inside the surviving layouts, no data, no markers |
| `ChainMeaning.ComposeFails` | packages/sveltego/internal/codegen/manifest.go:755-772 | the composition fails with the first error from the outside in, having written nothing |
| `ChainMeaning.FailedChain` | packages/sveltego/internal/codegen/manifest.go:975-992 | a failing page chain reports that error and has written the opening marker alone |
| `Vite.ClosedHoldsReachable` | packages/sveltego/server/vite.go:99-120 | a set closed under imports that holds the first hop holds everything reachable |
| `Vite.ImportCollector.Collect` | packages/sveltego/server/vite.go:99-119 | the recursive walk ends on any graph, cyclic or not, adds a closed set of names reachable from the key, and emits them in the order of a depth-first search with a stack |
| `Vite.WalkIsClosure` | packages/sveltego/server/vite.go:99-120 | a finished walk has seen exactly the names reachable by one or more imports |
| `Vite.ImporterFirst` | packages/sveltego/server/vite.go:99-119 | in depth-first order a chunk is an import of the route or of a chunk hinted before it |
| `Vite.SharedChunk` | packages/sveltego/server/vite.go:99-119 | a chunk two others import is hinted behind the first of them |
| `Vite.ImportTags` | packages/sveltego/server/vite.go:99-120 | one preload for each listed key reachable by one or more imports, each key once, in depth-first order |
| `Vite.HeadAssetTags` | packages/sveltego/server/vite.go:81-128 | the whole fragment: global stylesheet, those preloads in that order, the route's stylesheets; nothing for an unknown route |
| `Vite.HintLines` | packages/sveltego/server/vite.go:81-128 | a preload hint carries the nonce when there is one, a stylesheet never |
| `Vite.GlobalFirst` | packages/sveltego/server/vite.go:81-97 | the global stylesheet stands first |
| `Vite.SharedHead` | packages/sveltego/server/vite.go:81-128 | the lines of a route whose two imports share a chunk |
| `Vite.TrimmedBase` | packages/sveltego/server/vite.go:89 | all slashes at the end of the base go, and nothing else |
| `InitGate.ClosesOnceStep` | packages/sveltego/server/server.go:349-356 | every atomic step keeps: an init has closed its own channel once if finished, else not |
| `InitGate.EveryChannelClosedAtMostOnce` | packages/sveltego/server/server.go:436-476 | in any interleaving of any number of inits and requests exactly the channel of New and those of finished inits are closed, each once |
| `InitGate.SingleInitStep` | packages/sveltego/server/server.go:369-398 | every atomic step keeps the one-init invariant on gate, init and all requests |
| `InitGate.OneInitIsSafe` | packages/sveltego/server/server.go:340-398 | over every interleaving with one init: a request that read pending waits on the fresh channel, the channel is closed only after pending is left, such a request is handled only after success, and 500 is answered only after a failure |
| `InitGate.NobodySlipsThrough` | packages/sveltego/server/server.go:369-398 | from the moment the one init has stored pending, no request that is not being handled yet is handled in any continuation unless hook and sidecar succeeded |
| `InitGate.OutcomeDecides` | packages/sveltego/server/server.go:376-398 | once the outcome is stored, a request that comes then or has not looked yet gets 500 after a failure and is handled after a success, in every continuation |
| `InitGate.GivenUpExactly` | packages/sveltego/server/server.go:389-394 | 503 goes exactly to the requests whose wait timed out, and those that disconnect get nothing, for any number of inits |
| `InitGate.AnsweredForGood` | packages/sveltego/server/server.go:369-398 | an answered request is never answered again |
| `InitGate.ParkedRequestsWake` | packages/sveltego/server/server.go:369-398 | once the init is finished every parked request can be woken, and ends as the init's outcome says |
| `InitGate.LetThroughNeedsASecondInit` | packages/sveltego/server/server.go:369-398 | with no successful init, a woken request is let through if and only if it reads pending again, which takes a second init |
| `InitGate.SecondInitLetsARequestThrough` | packages/sveltego/server/server.go:349-398 | an interleaving of two inits in which that happens |
| `BufferOwnership.Request.RenderBuffered` | packages/sveltego/server/pipeline.go:916-985 | a failed or panicking render releases its buffer; a successful one replaces and releases the previous page's; buffers of layout slots, nested in any way, are taken and given back in between |
| `BufferOwnership.Request.Resolve` | packages/sveltego/server/pipeline.go:700-985 | any resolve call (shell, failed head, streamed or buffered page with a head and layout slots) keeps: every lease released once, except the newest page response's, which is live |
| `BufferOwnership.Handle` | packages/sveltego/server/pipeline.go:118-176 | for any sequence of resolve calls and any hook result, an error page included, every lease is released exactly once, and the bytes written are still owned if and only if the hook did not answer with a replaced page |
| `Streaming.Writer.FlushTo` | packages/sveltego/render/writer.go:13-27 | an empty buffer cannot fail; what was accepted is on the wire; a failed write keeps the buffer |
| `Streaming.CancelStreams` | packages/sveltego/server/pipeline.go:1187-1204 | exactly the cancellable streams from a position on, in order |
| `Streaming.RenderStreaming` | packages/sveltego/server/pipeline.go:1106-1183 | exactly, for any moment of death and any failing write: the first stream with a dead context before or after its flush, or a failed flush, is the last one waited on; the outcome, the bytes sent and the streams cancelled follow from it, and from the tail when there is none |
| `Streaming.EveryStreamOnce` | packages/sveltego/server/pipeline.go:1106-1204 | on Done and ClientGone every stream is waited on or, if it can be, cancelled, never both, never twice |
| `Streaming.LiveClientGetsEverything` | packages/sveltego/server/pipeline.go:1106-1183 | a client that stays connected gets the whole document and no stream is cancelled |
| `Streaming.DeadClientStops` | packages/sveltego/server/pipeline.go:1147-1165 | a context done behind the first t streams: at most one more is waited on |
| `Streaming.DeadFromTheStart` | packages/sveltego/server/pipeline.go:1147-1152 | a context done once the shell is out: stream 0 waited on, all others cancelled, nothing more sent |
| `Streaming.SentIsPrefix` | packages/sveltego/server/pipeline.go:1106-1183 | whatever happens, the client has the beginning of the document |
| `Streaming.RenderBuffered` | packages/sveltego/server/pipeline.go:924-952 | the page that is not streamed buffers the document that streaming sends when there are no streams |
| `Sorting.SortIsSorted` | packages/sveltego/server/payload_writer.go:283-290 | sorting sorts, and permutes |
| `Sorting.SortedIsCanonical` | packages/sveltego/server/payload_writer.go:283-290 | two sorted lists with the same elements are equal, so sorted output forgets iteration order |
| `Sorting.LeIsByteOrder` | packages/sveltego/server/payload_writer.go:283-290 | the order sorted by is byte order: a beginning, or the first differing byte |
| `PayloadWriter.NeedsJSONStringEscape` | packages/sveltego/server/payload_writer.go:256-268 | whether some byte is one the encoder could change |
| `PayloadWriter.FastPathIsExact` | packages/sveltego/server/payload_writer.go:234-268 | the fast path is taken only where the encoding is the string in quotes (section 7 of RFC 8259), and on every such string of bytes below 0x7f |
| `PayloadWriter.EncodeJSONString` | packages/sveltego/server/payload_writer.go:234-250 | both paths give the encoder's text |
| `PayloadWriter.EncodeStringMap` | packages/sveltego/server/payload_writer.go:272-304 | fast path or not, whatever the two iteration orders, the marshaller's text with sorted keys |
| `PayloadWriter.MapJsonForgetsOrder` | packages/sveltego/server/payload_writer.go:272-304 | the text of a map does not depend on its iteration order |
| `PayloadReads.NilMapReads` | packages/sveltego/server/payload_writer.go:270-282 | a nil map is null |
| `PayloadWriter.EncodeRouteIDs` | packages/sveltego/server/payload_writer.go:78-92 | every pattern's encoding, and only theirs |
| `PayloadWriter.NewServer` | packages/sveltego/server/payload_writer.go:36-92 | the pre-encoded bytes are the encodings of the server's own values; exactly when construction fails |
| `PayloadWriter.PipelinePayloadsAgree` | packages/sveltego/server/pipeline.go:499-545 | every payload of buildClientPayload, with or without the initial fields and with any deps, may be spliced |
| `PayloadWriter.Splice` | packages/sveltego/server/payload_writer.go:106-213 | splicing pre-encoded bytes keeps the buffer equal to the document of the fields so far |
| `PayloadWriter.WritePayloadJSON` | packages/sveltego/server/payload_writer.go:106-213 | the same bytes, or the same failure, as field-by-field marshalling with omitempty |
| `PayloadReads.PageHasFields` | packages/sveltego/server/pipeline.go:499-545 | the payload built for a page has exactly these members in this order, in terms of what the page was rendered from |
| `PayloadReads.QuoteReads` | packages/sveltego/server/payload_writer.go:225-251 | a written ASCII string reads back as itself |
| `PayloadReads.DocumentReads` | packages/sveltego/server/payload_writer.go:109-222 | the document of an ASCII page is token for token the object with its members, and so it is escaped for the script element |
| `PayloadReads.PayloadText` | packages/sveltego/server/pipeline.go:558-576 | what stands in the script element: that object, or an empty one when a value does not marshal, and nothing that ends the element |
| `ScriptEscape.IndexScriptSpecial` | packages/sveltego/server/pipeline.go:1289-1296 | the first "<" before "/" or "!", or none |
| `ScriptEscape.WriteEscapedScriptJSON` | packages/sveltego/server/pipeline.go:1263-1285 | whatever the input, the loop writes exactly the input, so its output is safe if and only if the input was |
| `ScriptEscape.ScriptEndIsSpecial` | packages/sveltego/server/pipeline.go:1256-1285 | an input that ends the script element, and so an output that does |
| `ScriptEscape.EscapeScriptSpecial` | packages/sveltego/server/pipeline.go:468-486 | exactly those bytes are replaced by their escape |
| `ScriptEscape.NothingSpecialLeft` | packages/sveltego/server/pipeline.go:468-486 | the output contains neither "</" nor "<!" |
| `ScriptEscape.EscapingTwice` | packages/sveltego/server/pipeline.go:468-486 | a second application changes nothing |
| `ScriptEscape.EscapedScansAlike` | packages/sveltego/server/pipeline.go:468-486 | from any scanner state a text that can be scanned and its escaped form end in the same state with the same tokens |
| `ScriptEscape.EscapingKeepsTheValue` | packages/sveltego/server/pipeline.go:468-486 | for every JSON text and every parser of its tokens the value is the same |
| `CookieCodec.SplitChunks` | packages/cookiesession/codec.go:52-66 | the shrinking loop cuts every 4000 bytes |
| `CookieCodec.ChunksRoundTrip` | packages/cookiesession/codec.go:52-71 | joining undoes splitting, every chunk fits, and one chunk if and only if the wire fits in one |
| `CookieCodec.ChunksAreFull` | packages/cookiesession/codec.go:52-66 | every chunk but the last has 4000 bytes, so there are as few as the limit allows |
| `CookieCodec.NamesDistinct` | packages/cookiesession/codec.go:74-81 | plain, meta and chunk cookie names never coincide |
| `CookieCodec.ChunkMetaRoundTrip` | packages/cookiesession/codec.go:84-95 | the chunk count reads back |
| `CookieSession.Session.Open` | packages/cookiesession/session.go:73-102 | the payload the request's wire decodes to; an error exactly when a wire does not decode; an expired payload leaves a destroyed session marked for flushing |
| `CookieSession.Session.ReadRequest` | packages/cookiesession/session.go:242-271 | the plain cookie first, else all counted chunks joined, else nothing |
| `CookieSession.Session.Set` | packages/cookiesession/session.go:133-144 | replaces the data, moves the expiry when there is a maximum age, and adds exactly the cookies of one flush |
| `CookieSession.Session.Update` | packages/cookiesession/session.go:149-160 | the same for a function of the current data |
| `CookieSession.Session.Refresh` | packages/cookiesession/session.go:164-177 | keeps the data, moves the expiry, and adds exactly the cookies of one flush |
| `CookieSession.Session.Flush` | packages/cookiesession/session.go:196-239 | exactly the Set-Cookie headers of the single or the chunked case, computed from the request |
| `CookieSession.Session.Destroy` | packages/cookiesession/session.go:181-192 | clears the data and expires what the request showed |
| `CookieJar.ShapeReads` | packages/cookiesession/session.go:242-271 | a jar that is empty, one plain cookie, or meta n with exactly chunks 0..n-1 reads as exactly that text |
| `CookieJar.OneOpShape` | packages/cookiesession/session.go:196-239 | one flush or Destroy turns any such jar into exactly the expected one and leaves other cookies alone |
| `CookieJar.JarShape` | packages/cookiesession/session.go:181-287 | over any number of requests with at most one operation each the jar stays in one of those shapes |
| `CookieJar.SessionReadsBack` | packages/cookiesession/session.go:181-340 | and the next request reads exactly the last flushed wire, nothing after Destroy (section 5.3 of RFC 6265) |
| `CookieHistory.ShapeKeeps` | packages/cookiesession/session.go:242-271 | the three shapes are states of a plain cookie and counted chunks |
| `CookieHistory.OpKeeps` | packages/cookiesession/session.go:196-287 | one operation on a jar that has moved on from its request: which plain cookie and which counted chunks are there afterwards, for any request and any jar |
| `CookieHistory.HistoryKeeps` | packages/cookiesession/session.go:181-340 | over any history of requests, each with any list of operations, the jar is in the state that history leads to |
| `CookieHistory.ReadsBackExactly` | packages/cookiesession/session.go:223-227 | after any such history and then a request with operations: the last one is what the next request reads if and only if no earlier one of the same request made it stale |
| `CookieHistory.OneOpReadsBack` | packages/cookiesession/session.go:181-340 | whatever a history left behind, a request with one operation reads back |
| `CookieHistory.StaleExample` | packages/cookiesession/session.go:223-227 | a short Set then a long Set in one request loses the long one |
| `CookieHistory.BothExample` | packages/cookiesession/session.go:196-239 | a long Set then a short one leave a jar with a plain cookie and counted chunks |
| `SessionReload.SetAndReload` | packages/cookiesession/session.go:75-139 | on any reachable jar, a value set now is loaded by a later request until maxAge has passed, and from then on the session is empty and marked for deletion |
| `SecretRotation.HexRoundTrip` | packages/cookiesession/internal/crypto/crypto.go:101-157 | hex decodes to what was encoded and never contains the separator |
| `SecretRotation.SplitJoinID` | packages/cookiesession/internal/crypto/crypto.go:161-181 | SplitID inverts JoinID |
| `SecretRotation.Decode` | packages/cookiesession/internal/crypto/crypto.go:81-96 | the scan lets the first secret with the ID decrypt, and reports the head exactly when it did |
| `SecretRotation.DecryptsExactly` | packages/cookiesession/crypto.go:43-64 | a cookie decrypts under any list whose first secret with its ID has its key, and with an authentic cipher under no other |
| `SecretRotation.RotationKeepsCookies` | packages/cookiesession/internal/crypto/crypto.go:65-96 | prepending secrets with fresh IDs keeps every cookie readable |
| `SessionRotation.PayloadSurvives` | packages/cookiesession/session.go:196-271 | jar, chunks and cipher together, after any history: a payload flushed last in a request is read back after any number of idle requests if and only if the flush was not stale, and decrypts after a rotation |
| `Links.Link` | packages/sveltego/exports/kit/link.go:26-78 | the loop's path or its first error |
| `Links.PrintedReads` | packages/sveltego/runtime/router/segment.go:33-55 | Link reads every printed segment as what it is |
| `Links.LinkOnRoute` | packages/sveltego/exports/kit/link.go:26-86 | on a scanned route Link fails exactly for a missing required parameter, else writes the pieces in order |
| `Links.LinkFailsExactly` | packages/sveltego/exports/kit/link.go:26-78 | on any pattern: an error without a leading slash, or that of the first part that fails, and no other |
| `RawParams.RawParamsFromPath` | packages/sveltego/server/pipeline.go:1306-1359 | the index loop reads the segments off the raw pieces |
| `RawParams.ReadOffExactly` | packages/sveltego/server/pipeline.go:1306-1359 | reading the split pieces of a route gives the parameters if and only if every value is clean |
| `RawParams.LinkRoundTrip` | packages/sveltego/server/pipeline.go:1306-1359 | rawParamsFromPath on the path Link builds returns the original parameters, absent ones empty, if and only if values are clean and the path is not a lone empty piece |
| `LinkFields.Pascal` | packages/sveltego/internal/codegen/link_emit.go:187-216 | empty if and only if the name has no ASCII letter or digit, else an identifier, and made of the name's letters and digits in order up to case |
| `LinkFields.RouteIdent` | packages/sveltego/internal/codegen/link_emit.go:164-181 | an identifier, whatever the segments are |
| `LinkFields.CollectParams` | packages/sveltego/internal/codegen/link_emit.go:140-158 | one slot per dynamic segment, the k-th of equal names numbered k; all fields are identifiers and distinct if and only if the names fit |
| `LinkFields.DistinctExactly` | packages/sveltego/internal/codegen/link_emit.go:140-158 | the fields are distinct if and only if no numbered name reads like another name, numbered or not |
| `LinkFields.UsableExactly` | packages/sveltego/internal/codegen/link_emit.go:218-227 | the struct can be declared if and only if every name has a letter or digit and no numbered names clash |
| `LinkFields.UnderscoreHasNoField` | packages/sveltego/internal/codegen/link_emit.go:140-158 | a parameter called _, which the scanner accepts, has no field, so its struct cannot be declared |
| `LinkFields.FieldsCanCollide` | packages/sveltego/internal/codegen/link_emit.go:140-158 | a route the scanner accepts, with parameters id, Id and id2, whose struct has one field twice and cannot be declared |
| `LinkNames.CollectLinkRoutes` | packages/sveltego/internal/codegen/link_emit.go:101-138 | one link per route with a page or server file, in order, the k-th of equal identifiers named with _k, with its method and slots |
| `LinkNames.NamesDistinctExactly` | packages/sveltego/internal/codegen/link_emit.go:101-128 | no function or type name occurs twice if and only if no route's identifier is another's followed by _k or by Params, or by both, for a number k that was given out |
| `LinkNames.LinksFileExactly` | packages/sveltego/internal/codegen/link_emit.go:101-248 | for every scan: all names of the links file are identifiers declared once and all its structs can be declared if and only if no names clash that way and every route's parameter names fit |
| `LinkNames.TypeAndFunctionClash` | packages/sveltego/internal/codegen/link_emit.go:218-248 | two plain pages, /x and /x/params, both of which declare XParams |
| `LinkNames.NumberedClash` | packages/sveltego/internal/codegen/link_emit.go:101-128 | /[x], /x and /x/2, of which the last two are both named X_2 |
| `LinkEmit.EmitLinkBuild` | packages/sveltego/internal/codegen/link_emit.go:250-287 | the statements emitted for a pattern, slots used up in order; it indexes out of range if and only if more parts take a slot than there are |
| `LinkEmit.StrayBracket` | packages/sveltego/internal/codegen/link_emit.go:250-303 | a part with a stray bracket, on no scanned route: kit.Link writes it and the emitted helper nothing |
| `LinkEmit.EmittedCodeWrites` | packages/sveltego/internal/codegen/link_emit.go:250-299 | for a route's own slots the emitter never runs out of them, and executing the statements writes the route's pieces |
| `LinkEmit.HelperMatchesLink` | packages/sveltego/internal/codegen/link_emit.go:218-299 | for every scanned route: its struct can be declared if and only if the names fit; then every assignment of parameters has a struct, and with any struct that holds them the helper returns what kit.Link returns, except "" for "/" when no part is written |
| `SpanCutting.RescanExactly` | packages/sveltego/server/head.go:69-86 | for any lawful scanner: rescanning the cut text finds exactly the last span if and only if nothing opens in what was joined before it |
| `SpanCutting.PassOver` | packages/sveltego/server/head.go:98-137 | a scan passes over a prefix in which nothing opens |
| `SpanCutting.CutKeeps` | packages/sveltego/server/head.go:69-86 | cutting keeps all text between spans, the last span and the text behind it, and drops the other spans' text |
| `SpanCutting.CutRegions` | packages/sveltego/server/head.go:69-86 | copying the gaps is the input with exactly all but the last span removed |
| `HeadTitle.IndexClose` | packages/sveltego/server/head.go:143-167 | the first closing tag, in any case, or none |
| `HeadTitle.TagsExactly` | packages/sveltego/server/head.go:98-167 | what the scan takes for a tag: `</title>`, and `<title` with a delimiter behind it, in any case |
| `HeadTitle.LookIsLawful` | packages/sveltego/server/head.go:98-137 | one turn of the cursor loop skips no opening tag |
| `HeadTitle.FindTitleSpans` | packages/sveltego/server/head.go:98-137 | all spans, in bounds, ordered, disjoint, not empty |
| `HeadTitle.TitleEndExactly` | packages/sveltego/server/head.go:98-137 | where a title ends: behind the first closing tag that follows the end of its own tag, in any case |
| `HeadTitle.TitlesExactly` | packages/sveltego/server/head.go:98-137 | the titles of any text from the left: none when no tag opens or the first that opens is not closed, else that title and those behind it |
| `HeadTitle.DedupeTitle` | packages/sveltego/server/head.go:69-86 | the input with exactly all but the last title removed |
| `HeadTitle.DedupeKeeps` | packages/sveltego/server/head.go:69-86 | deduplication keeps the text between titles, the last title, and the text behind it |
| `HeadTitle.RescanFindsLastTitle` | packages/sveltego/server/head.go:69-137 | rescanning finds exactly the last title if and only if the joined text opens none |
| `HeadTitle.DedupeTwiceExactly` | packages/sveltego/server/head.go:69-86 | deduplicating again changes nothing if and only if the first pass left at most one title |
| `HeadTitle.ClosedGapsDedupe` | packages/sveltego/server/head.go:69-137 | when every "<" of the gaps between titles is closed, one title is left and deduplicating is idempotent |
| `HeadTitle.GluedTitles` | packages/sveltego/server/head.go:69-137 | a text on which it is not: cutting glues a new title together |
| `Csp.CollectKeys` | packages/sveltego/exports/kit/csp.go:157-161 | whatever the iteration order, the sorted keys |
| `Csp.Merge` | packages/sveltego/exports/kit/csp.go:146-153 | overrides replace defaults, an empty list removes, in any order |
| `Csp.MergeExactly` | packages/sveltego/exports/kit/csp.go:146-153 | directive by directive: an override with values wins, one without removes |
| `Csp.Compose` | packages/sveltego/exports/kit/csp.go:154-193 | the template cut where script-src belongs |
| `Csp.SplicedIsPlain` | packages/sveltego/exports/kit/csp.go:111-193 | prefix, nonce, suffix is the header that sorts all directives with script-src among them and joins them |
| `Csp.DefaultPolicy` | packages/sveltego/exports/kit/csp.go:77-87 | the header of a config without overrides, directive by directive |
| `CspCache.WriteKey` | packages/sveltego/exports/kit/csp.go:198-221 | the fingerprint |
| `CspCache.KeyUnique` | packages/sveltego/exports/kit/csp.go:198-221 | good configs with one fingerprint are equal but for the mode, which the header ignores |
| `CspCache.ServedIsFresh` | packages/sveltego/exports/kit/csp.go:131-139 | for any history of good configs a good config is served its own fresh header |
| `CspCache.TemplateCache.LoadOrStore` | packages/sveltego/exports/kit/csp.go:136-138 | whatever others stored meanwhile, the first template with the fingerprint is kept |
| `CspCache.TemplateCache.BuildCSPHeader` | packages/sveltego/exports/kit/csp.go:131-139 | for any history of any configs, and any calls of others between its two looks at the cache: exactly the header of the first config with that fingerprint |
| `CspCache.SharedFingerprint` | packages/sveltego/exports/kit/csp.go:198-221 | a comma in a value: two configs with one fingerprint and different headers |
| `CspCollisions.SemicolonInValueConfuses` | packages/sveltego/exports/kit/csp.go:198-221 | the same for a semicolon in a value, the other config being good |
| `CspCollisions.EqualsInNameConfuses` | packages/sveltego/exports/kit/csp.go:198-221 | the same for = in a name |
| `CspCollisions.BarInReportConfuses` | packages/sveltego/exports/kit/csp.go:198-221 | the same for a bar in the report target |
| `CspCollisions.EmptyValueConfuses` | packages/sveltego/exports/kit/csp.go:198-221 | the same for an empty value |
| `AuthStore.Store.CreateUser` | packages/auth/storage/memory/memory.go:41-51 | conflict or the new state; only a fresh copy enters the table |
| `AuthStore.Store.UserByEmail` | packages/auth/storage/memory/memory.go:66-75 | the index lookup, a fresh copy, or the nil dereference |
| `AuthStore.Store.UpdateUser` | packages/auth/storage/memory/memory.go:78-93 | not found or the new state; only a fresh copy enters the table |
| `AuthStore.DropOwned` | packages/auth/storage/memory/memory.go:106-120 | the deletion loop: exactly the rows whose owner is another user are left, with their pointers |
| `AuthStore.Store.DeleteUser` | packages/auth/storage/memory/memory.go:97-122 | user, index entry, and every session, account and verification of that user gone, all others kept |
| `AuthStore.Store.SessionByToken` | packages/auth/storage/memory/memory.go:137-149 | missing, expired, or a fresh copy |
| `AuthStore.Store.RefreshSession` | packages/auth/storage/memory/memory.go:153-163 | the write through the stored pointer changes that session and no other |
| `AuthStore.Store.RevokeAllSessions` | packages/auth/storage/memory/memory.go:174-183 | exactly the user's sessions go |
| `AuthStore.DeleteLeaves` | packages/auth/storage/memory/memory.go:97-122 | on any tables: the user, their email and exactly the sessions, accounts and verifications that are theirs go, every other row stays as it was |
| `AuthStore.RevokeLeaves` | packages/auth/storage/memory/memory.go:174-183 | exactly the sessions that are the user's go, and nothing else changes |
| `AuthHistory.LookupsExactly` | packages/auth/storage/memory/memory.go:41-183 | after any history of calls, every lookup finds what the calls about that one key say, going back through them |
| `AuthHistory.ReportsExactly` | packages/auth/storage/memory/memory.go:41-264 | after any history: conflict exactly for a taken email, not found exactly when the key the call is about is not there |
| `AuthHistory.ErrorsChangeNothing` | packages/auth/storage/memory/memory.go:41-264 | a call that reports an error has changed nothing |
| `AuthHistory.DeletedUserOwnsNothing` | packages/auth/storage/memory/memory.go:97-122 | after a user is deleted nothing in the store is theirs, whatever follows, until something is created for them |
| `AuthHistory.RevokedUserIsSignedOut` | packages/auth/storage/memory/memory.go:174-183 | after all sessions of a user are revoked no token finds one of theirs until one is created |
| `AuthHistory.SessionReadsBack` | packages/auth/storage/memory/memory.go:127-149 | a created session is found as it was given until it expires, whatever is done to others |
| `AuthHistory.RefreshMovesExpiry` | packages/auth/storage/memory/memory.go:153-163 | a refreshed session is the old one with the new expiry |
| `AuthHistory.CodesAreSingleUse` | packages/auth/storage/memory/memory.go:231-264 | a consumed code is not found again until it is created again |
| `AuthStore.CallKeepsIndex` | packages/auth/storage/memory/memory.go:41-122 | a call keeps usersByEmail the exact inverse of users if and only if a created ID is new and a new email is free |
| `AuthStore.IndexedExactly` | packages/auth/storage/memory/memory.go:41-183 | over every history: the index is right in every state if and only if every call was careful |
| `AuthStore.LookupIsLinearSearch` | packages/auth/storage/memory/memory.go:66-75 | UserByEmail equals a linear search in any order |
| `AuthStore.DanglingEmail` | packages/auth/storage/memory/memory.go:41-122 | one ID created twice then deleted: looking up the first email dereferences nil |
| `AuthStore.StolenEmail` | packages/auth/storage/memory/memory.go:78-93 | moving a user to another's email hides the other |
| `AuthStore.ScribbleOnUsers` | packages/auth/storage/memory/memory.go:41-63 | writing to the user passed in and to the user returned changes nothing stored |
| `AuthStore.ScribbleOnSessions` | packages/auth/storage/memory/memory.go:127-149 | the same for sessions |
| `LspFraming.ReadHeader` | packages/lsp/internal/server/jsonrpc.go:81-108 | the header loop: last Content-Length wins, blank line ends, errors as the code gives them |
| `LspFraming.ReadMessage` | packages/lsp/internal/server/jsonrpc.go:47-61 | one frame off the input, or the error that ends the session |
| `LspFraming.FrameComesBack` | packages/lsp/internal/server/jsonrpc.go:47-79 | reading undoes writing, byte for byte, whatever follows |
| `LspFraming.FramesComeBack` | packages/lsp/internal/server/jsonrpc.go:47-108 | any sequence of frames reads back as that sequence with nothing left over |
| `LspFraming.HeaderReads` | packages/lsp/internal/server/jsonrpc.go:81-108 | a header of any lines: an error when one is malformed or none says a length, else the last length |
| `LspFraming.FrameWithOthers` | packages/lsp/internal/server/jsonrpc.go:47-108 | a frame with other header lines, such as Content-Type, before and behind its length line is read like one without |
| `LspFraming.ContentTypeIsOther` | packages/lsp/internal/server/jsonrpc.go:94-104 | a Content-Type line is such a line |
| `LspFraming.FrameWithoutLength` | packages/lsp/internal/server/jsonrpc.go:105-107 | without a length line no frame is read |
| `LspFraming.CutFrame` | packages/lsp/internal/server/jsonrpc.go:47-61 | a frame cut off inside its body is an error, one cut off before its body looks like the end of the input |
| `LspFraming.Serve` | packages/lsp/internal/server/server.go:42-64 | the read and dispatch loop |
| `LspFraming.ServeReadsBodies` | packages/lsp/internal/server/server.go:42-64 | on any input, Serve dispatches the messages among the bodies read, up to the first exit |
| `LspFraming.ServeStaysInStep` | packages/lsp/internal/server/server.go:42-64 | a body that does not parse is consumed whole, so every later frame is read in step |
| `LspFraming.CutSession` | packages/lsp/internal/server/server.go:42-64 | a connection lost inside a frame: every frame before it is dispatched, and the loop ends with an error if and only if a part of the last body, but not all of it, had come |

## Left out

- Adapters, CLI, scaffolding, editor extension, SQL storage, mailers: file copying, templates and drivers.
- The router tree, the route scanner, the Svelte parser and transpiler: a scan is an input of the manifest model.
- AES-GCM, randomness and hashing: the cipher is a pair of functions with the laws of an authenticated cipher, the nonce a parameter.
- encoding/json on arbitrary values and on UTF-8 sequences: a parameter of the payload writer, whose ASCII string encoder is spelled out.
- JSON grammar: the escaping result is stated on tokens and holds for every parser of them.
- White space beyond ASCII in TrimSpace, and case folding beyond ASCII, which "title" does not need.
- Wall-clock expiry of cookies in the jar: all cookies are unexpired; sessions and the store take the time as a parameter.
- The generated text of an adapter: a declaration carries its name, qualifiers and calls; only the chain bodies are modelled line by line.
- The error path of an `_error.svelte` with no layouts in the SSR driver (ssr.go:256-258): nothing is claimed about which planned boundaries are transpiled.
- Order of layout and package imports in the manifest: the sorts only permute the lists, and no result depends on order.
- The nil-scan and empty-module-path guards and the latched error of Builder: one branch each.
- Package name, module path, generation root and scanner diagnostics of the generated manifest: taken to be valid where they are written, so that only aliases can make the text invalid.
- `routeIdent` enters the manifest model as a route's `ident`, since only equality of identifiers matters there.
- Layout, page and hook bodies: functions of their data; a layout's body is any sequence of markup and child slots with any error.
- The text of a resolve script (`emitResolveScript`) and the stream values behind it: a stream is its script and whether it can be cancelled.
- The HTTP status and headers written before the streaming shell, and the timeout of a stream: not part of the bytes modelled.
- Cancellation by the context inside the language server's Serve loop, and the handlers it dispatches to.
- sync.Map and the store's mutex: each call is atomic, except that the template cache's Load and LoadOrStore are two steps.
- Static files, prerendering, CSRF, auth policies, source maps and the page-options cascade: much easier than the rest.
