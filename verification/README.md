# Postizer: a model and its proofs

Postizer is a blog server. This project models the parts of it that carry real invariants and proves what they
keep. `dafny verify dfyconfig.toml` checks everything.

- **Rendering.** `MathProtection` cuts math out of Markdown and puts it back. `LineScanner`, `Figures` and
  `Equations` number figures and display equations in one pass and resolve references in a second one, which has to
  read the lines as the first one meant them: `Figures` and `EquationPasses` say when it does, `Rewriting` and
  `Rendering` put the passes together, and `SourceBlocks` reads the conditions off the source. `MathDetection` shows that the test for math misses nothing in the text that
  is protected, `RawDetection` and `EscapedReference` what it misses when it is put to the source as written.
  `Substitution` is the theory of texts with holes behind all token replacement; `BackSubstitution` and `Elements`
  say when putting figures and anchors back into HTML is safe. `MarkdownLines`, `Patterns` and `Links` hold what the
  passes share. `Entities`, `LinkTexts`, `Commands`, `FigureSources` and `EquationSources` are readers of HTML,
  links and sources, written on their own, for what the program escapes, writes and looks for.
- **Settings.** `MenuText`, `MenuItems`, `MenuLists`, `ThemeValues` and `ThemeSettings` clean theme settings, whose
  maps are visited in arbitrary order; `Sidebar` shows that migrating old sidebars preserves what is rendered.
  `Spelling` says which words a cleaned text has, `MenuMeaning` what the kinds and addresses of links stand for.
- **Posts.** `Permalinks` decides when URLs identify posts, `PostFiles` allocates slugs, `FrontMatter` and
  `PostFormat` are the printer and parser of post files. `FreshNames` is the shared search for an unused name.
- **Appearance.** `Appearance` and `AppearanceCatalog` merge messages in place and offer locales.
- **Protocols and stores.** `PluginHost`, `SelfUpdate` and `MediaStore` are state machines over all interleavings,
  with the critical sections also given as methods of a class, and so is `LoginOverlap`, where logins interleave;
  `PluginStarts` says which plugins are started at all.
  `LoginThrottle` is about logins one after another. `MediaPaths` and `Pbkdf2` go with them. `Importer` and `ImportBatch` follow a WordPress import from URLs to saved paths, `ImportClashes` shows what
  IDs that begin with one another do to it.

Some things hold less often than one might expect. Each comes with its condition and with an input that shows it:

- The two passes over figures can disagree about fences after a block that is copied unread (`Figures.PassesAlign`,
  `UnparsedBlockMayDiverge`).
- The two passes over equations disagree after a block left unclosed, and also after a closed one that holds a code
  fence (`FenceInBlockDiverges`) or, once its labels are taken out, its own end (`LabelInBlockDiverges`). They agree
  on every line exactly when no block is of these kinds (`PassesAlignThroughout`).
- A page is tested for math in its source as written. A reference with a backslash before its own becomes math that
  the test does not see (`EscapedReferenceMissesMath`); without such references nothing is missed
  (`SourceShowsItsMath`).
- Figure and anchor tokens are not padded, so putting them back is safe for at most ten of each
  (`RestoresIffAtMostTen`). A clean page with the eleventh or a later figure alone in its paragraph loses it in some
  order (`EleventhFigureIsLost`, `ElevenImages`). Math tokens are padded to six digits and safe up to a million (`TokensPrefixFree`).
- A reconcile leaves only plugins that match the active ones, but a start that is under way meanwhile can register an
  old one afterwards (`OldStartOutlivesReconcile`). The entries go on matching exactly as long as nothing else is
  registered (`MatchingLasts`).
- Import IDs such as `wxr-1` and `wxr-12` defeat the placeholder substitution (`WorksIffPrefixFree`,
  `RightOnlyByAccident`, `TwelveIsLost`).
- An imported figure whose text has a closing bracket is not read as a figure (`ImportedFigureReads`).
- The number of an equation is lost in a tag that the body begins and leaves open (`NumberShows`).
- A permalink pattern can pass validation without a slug that shows (`InjectiveIffSlugToken`).
- Quotes and backslashes in front matter are escaped and never unescaped (`ValueSurvivesIffPlain`).
- A post saved again after loading has other bytes if its body has Windows line ends or a summary was made up for it
  from its text (`SavedAgain`).
- A media file whose extension ends in white space is left behind by its deletion (`DeletionRemovesOwnFile`,
  `SpacedFileIsLeftBehind`).

The login throttle lets at most eight failed checks of an address through in any fifteen minutes if its logins come
one after another, and eight can happen (`EightPerWindow`, `EightHappens`). It does not hold its lock while a password
is checked. With at most m logins of the address under way at a time the bound is 2m^2 + 7m - 1 (`BoundedByOverlap`),
and without a limit on m there is none: however many arrive together are all checked (`AllAtOnce`).

Strings are sequences of Unicode code points. Library behaviour is a parameter where a proof needs it: a function
for what is computed, an order for what a map iteration leaves open, an outcome for an operation that may fail.

## Model

| member | source | states |
|---|---|---|
| MathProtection.IsEscapedAt | internal/site/site.go:2931-2937 | a position is escaped exactly when an odd run of backslashes stands before it, counted backwards |
| MathProtection.FindMathEnd | internal/site/site.go:2909-2916 | the first unescaped closing delimiter at or after the start, or -1 when there is none |
| MathProtection.FindInlineDollarEnd | internal/site/site.go:2918-2929 | the first single unescaped dollar at or after the start, or -1; a dollar that begins a pair does not count |
| MathProtection.MathSpanEnd | internal/site/site.go:2872-2897 | where the span that begins at a position ends, with the delimiters tried in the order the program tries them |
| MathProtection.SpanEndsAtFirstCloser | internal/site/site.go:2872-2929 | a span ends at a position if and only if that is just after its first valid closer |
| MathProtection.ProtectionSegments | internal/site/site.go:2868-2901 | the protected spans of any text are ordered, disjoint, nonempty, each ends at its first valid closer, and no position at which a span could begin lies outside them |
| MathProtection.ProtectKeepsSource | internal/site/site.go:2868-2901 | with every token read as its span the output is the input: cutting loses and moves nothing |
| MathProtection.BlocksKeepText | internal/site/site.go:2833-2863 | fenced lines and the chunks between them, in order, are the whole document |
| MathProtection.DocumentKeepsSource | internal/site/site.go:2825-2866 | the same for a whole document with its code fences |
| MathProtection.AddMathReplacement | internal/site/site.go:2903-2907 | the next token is the one with the number of spans so far, and the map gains exactly that token, with a text without markup that is read as the span |
| MathProtection.EscapedReads | internal/site/site.go:2903-2907 | read from left to right, entity by entity, an escaped text is the text, and it holds neither angle bracket nor quote |
| MathProtection.ProtectMathInText | internal/site/site.go:2868-2901 | the index loop writes the protected text and extends the map as the specification of the protection says |
| MathProtection.ProtectMathSegments | internal/site/site.go:2825-2866 | the line loop with its fence flag and pending chunk produces the protected document and the map of all its spans; fenced lines are copied |
| MathProtection.TokensPrefixFree | internal/site/site.go:2903-2907 | the zero-padded tokens are prefix-free if and only if there are at most a million |
| MathProtection.ReplacementsAre | internal/site/site.go:2903-2907 | the map holds exactly the tokens, each with a text without markup that is read as its own span |
| MathProtection.RestoreAnyOrder | internal/site/site.go:2273-2275 | for a source without the mark and at most a million spans, replacing the tokens in any order gives the source with each span escaped |
| MathProtection.RestorePlain | internal/site/site.go:2268-2275 | and gives the source itself when it has no character that escaping changes |
| MathProtection.RenderMath | internal/site/site.go:2268-2275 | the whole path through the program, with the map visited in an arbitrary order and a converter that keeps its input: the page is the source cut at the spans, no value put in holds markup, and with every value read the page is the source |
| MathDetection.ContainsUnescapedDollar | internal/http/server.go:3244-3260 | the forward scan with its escape flag finds a dollar if and only if one is unescaped by the backward parity test |
| MathDetection.ContentNeedsMath | internal/http/server.go:3230-3242 | true exactly for a text with a bracket delimiter or an unescaped dollar |
| MathDetection.EscapeWithinChunk | internal/site/site.go:2931-2937 | cut out of the document at a line start, a chunk has the same backslash run at every position as the document |
| MathDetection.ProtectedMathIsDetected | internal/http/server.go:3230-3260 | whenever protection makes any token, in any chunk between fences, the test put to the text that protection was given finds that it needs math |
| RawDetection.SafeIffNoOpener | internal/site/site.go:2868-2901 | one scan from left to right with the length of the last backslash run decides whether anything in a text opens math |
| RawDetection.SourceShowsItsMath | internal/http/server.go:3214-3242 | if no figure reference of the source has a backslash before its own, the source as written is found to need math whenever anything is protected in what the passes made of it |
| EscapedReference.EscapedReferenceMissesMath | internal/http/server.go:3214-3242 | a five-line source with such a reference whose prepared text has protected math and which is not found to need any |
| Substitution.ReplaceAllTokens | internal/site/site.go:2273-2275 | replacing prefix-free tokens one after another, in any order, fills every hole with its own value, if the mark occurs only at holes |
| Substitution.ReplaceRange | internal/site/site.go:2273-2275 | a range over the map of replacements, visited arbitrarily, is the replacement in some order that has every token once |
| BackSubstitution.RestoreRange | internal/site/site.go:2276-2283 | the loops for figures and for anchors, which replace the paragraph of a token and then its bare occurrences, amount to some order over all tokens |
| BackSubstitution.PrefixFreeUpToTen | internal/site/site.go:2457-2460 | the unpadded tokens are prefix-free if and only if there are at most ten |
| BackSubstitution.ReplaceParagraphs | internal/site/site.go:2276-2279 | replacing the paragraph of one token fills exactly the holes of that token that are alone in a paragraph |
| BackSubstitution.ReplaceBare | internal/site/site.go:2276-2279 | replacing the bare token afterwards fills exactly its other holes and leaves those of all other tokens |
| BackSubstitution.RestoresIffAtMostTen | internal/site/site.go:2276-2283 | in every order every clean document gets every value back, if and only if there are at most ten tokens |
| BackSubstitution.BeyondTenBreaks | internal/site/site.go:2276-2283 | with more than ten tokens, every clean document that shows one from the eleventh on comes out wrong in some order, unless the value of its first digit fits by accident; for a token alone in its paragraph the right value need only open no paragraph |
| Elements.FigureTokens | internal/site/site.go:2446-2486 | the entries of the figure map are exactly the tokens 0, 1, ... with the HTML of their figures |
| Elements.EscapedHtmlReads | internal/site/site.go:2464-2486 | the same for the escaping of attributes and captions, where a zero shows as a replacement character |
| Elements.FigureReads | internal/site/site.go:2464-2486 | the attributes, the number and the caption of a figure's HTML are read as those of the figure, and hold no markup |
| Elements.AnchorReads | internal/site/site.go:2636-2647 | the ID in the element of an equation's anchor is the anchor as it stands, without markup |
| Elements.FiguresComeBack | internal/site/site.go:2276-2283 | up to ten figures of any source come back in every order |
| Elements.EleventhFigureIsLost | internal/site/site.go:2276-2283 | with more, every clean page with the eleventh or a later figure in a paragraph of its own comes out wrong in some order |
| Elements.EleventhAnchorIsLost | internal/site/site.go:2276-2283 | the same for the anchors of equations |
| Elements.ElevenImages | internal/site/site.go:2276-2486 | a source of eleven images, with the HTML the program makes for them, is such a page |
| MarkdownLines.SplitJoin | internal/site/site.go:2319-2399 | lines without line breaks survive being joined and split |
| MarkdownLines.MarkdownFenceMarker | internal/site/site.go:2795-2811 | the run of three or more backquotes or tildes a line begins with, or nothing |
| MarkdownLines.ClosesMarkdownFence | internal/site/site.go:2813-2823 | a line closes a fence exactly when the open marker is its prefix; the rule is the program's own |
| MarkdownLines.FindLineIndex | internal/site/site.go:2756-2763 | the first line from a position on that trims to the target, or -1 |
| LineScanner.LineState.Step | internal/site/site.go:2495-2530 | the flags of a pass follow the scanner, and each line gets the class the branch taken stands for |
| LineScanner.RewriteLines | internal/site/site.go:2488-2536 | the replacing loop changes text lines only, each by the rewriting function |
| LineScanner.RewriteKeeps | internal/site/site.go:2488-2536 | rewriting leaves every fenced line and every line of an equation as it was |
| Links.PrefixedAnchorID | internal/site/site.go:2765-2793 | anchors are the prefix and the label in lower case with runs of other characters made one dash, or the prefix alone |
| LinkTexts.LinkReads | internal/site/site.go:2729-2734 | whatever the text, a reader that honours backslashes reads a written link as a link with that text and target |
| LinkTexts.AnchorSpells | internal/site/site.go:2773-2793 | an anchor has, after its prefix, the words of the label in lower case and in order, and no character that would end a link or an attribute |
| LinkTexts.FigureReferenceReads | internal/site/site.go:2538-2559 | a reference is read as a link that shows the number of the first figure with the label and leads to its anchor; an unknown label shows question marks, or stays as it is outside the figures |
| LinkTexts.EquationReferenceReads | internal/site/site.go:2710-2734 | the same for equations, whose tags may be any text |
| Figures.CollectFigureReferences | internal/site/site.go:2318-2400 | the collecting loop writes the lines, references and figure map that the steps of the source determine |
| FigureSources.ParsedIffDescribed | internal/site/site.go:2402-2423 | a block is read as a figure exactly if its first image, its first caption or else the image's text, and its first label describe that figure, wherever they stand |
| FigureSources.StandaloneIff | internal/site/site.go:2425-2436 | a line is a figure exactly if an image is all there is on it |
| FigureSources.DestinationReads | internal/site/site.go:2438-2444 | the address of an image is the core of what stands between its parentheses, without white space, angles and a title |
| Commands.ReplacesWhatIsRead | internal/site/site.go:2526-2532 | rewriting replaces exactly the commands that are read from left to right, each where it starts; the reading is unique (`Commands.OneReading`) |
| Figures.AppendFigureToken | internal/site/site.go:2446-2462 | one more figure: its token after a blank separator if needed, a reference if its label is new, a numbered anchor if not |
| Figures.StepsCoverSource | internal/site/site.go:2318-2400 | the steps of the collecting pass cut the source into consecutive pieces; no line is lost, repeated or moved |
| Figures.PassesAlign | internal/site/site.go:2318-2536 | the replacing pass is in the collecting pass's state after every step if and only if every copied block leaves the scanner at rest |
| Figures.ClassesAgree | internal/site/site.go:2318-2536 | then every line the replacing pass reads has the class the collecting pass gave it |
| Figures.FencedTextUnchanged | internal/site/site.go:2308-2536 | then the fenced lines of the result are the fenced lines of the source, whatever the rewriting |
| Figures.SourceFences | internal/site/site.go:2318-2400 | the code the steps find is the code the scanner finds in the source, if numbered figures hold none |
| Figures.UnparsedBlockMayDiverge | internal/site/site.go:2342-2372 | an image-less figure around an opening fence is such a block: a source for which the two passes disagree |
| Figures.FigureMapNumbers | internal/site/site.go:2446-2462 | figures are numbered from 1 in document order, token k holds figure k + 1, and the map holds nothing else |
| Figures.FigureTakesItsNumber | internal/site/site.go:2318-2462 | a figure that k others precede becomes figure k + 1, and its token stands after everything written before it |
| Figures.ReferencesResolveFirst | internal/site/site.go:2446-2462 | a label resolves if and only if a figure carries it, and then to the number and anchor of the first one |
| Figures.ReferenceShowsFirst | internal/site/site.go:2538-2559 | a resolved reference is a link that shows the number of the first figure with the label and leads to that figure's anchor |
| Figures.PrepareFigureReferences | internal/site/site.go:2308-2316 | both passes over a source, the second one only if a label exists, and the figure map |
| Equations.CollectEquationReferences | internal/site/site.go:2571-2658 | the collecting loop writes the lines, references and anchors that the steps of the source determine |
| Equations.AppendDisplay | internal/site/site.go:2613-2654 | one more display block: number, separator, anchor token if labelled, and the rewritten body between its delimiters |
| Equations.EquationTakesItsNumber | internal/site/site.go:2613-2632 | a tagged equation keeps its tag; the k-th untagged one gets number k and its tag is appended to the body |
| EquationSources.NumberedBody | internal/site/site.go:2613-2632 | the key is the first label written, the body loses its labels, and then either keeps its first tag of either form as its number or ends in a tag with the next number |
| EquationSources.BareIsUnlabelled | internal/site/site.go:2613-2620 | the body without its labels is what is left when the labels that are read from left to right are dropped |
| EquationSources.NumberShows | internal/site/site.go:2625-2632 | the number appended is the tag of the body if and only if the body does not begin a tag and leave it open |
| Equations.EquationTakesItsPlace | internal/site/site.go:2633-2654 | its heading, with the token of its anchor if it is labelled, and its rewritten block follow everything written before |
| Equations.ReferencesResolveFirst | internal/site/site.go:2637-2643 | a label resolves if and only if an equation carries it, and then to the first one |
| Equations.ReferenceShowsFirst | internal/site/site.go:2710-2727 | a resolved reference shows the number of the first equation with the label and links to the anchor that this equation's token holds in the map |
| Equations.AnchorsNumber | internal/site/site.go:2637-2648 | the token that counts the labelled equations before an equation holds that equation's anchor, and there are no other tokens |
| EquationPasses.StepsCoverSource | internal/site/site.go:2571-2658 | the steps of the collecting pass cut the source into consecutive pieces; no line is lost, repeated or moved |
| EquationPasses.PassesAlign | internal/site/site.go:2571-2708 | after every step both passes are in the same state, if and only if every display block of the source is closed and the body between its delimiters, without its labels, lets the closing one close it |
| EquationPasses.PassesAlignThroughout | internal/site/site.go:2571-2708 | they agree on every line, within blocks too, if and only if every block is closed and no line of its body, without its labels, is a code fence or the block's own end |
| EquationPasses.ContainedScansBack | internal/site/site.go:2571-2708 | agreeing on every line includes agreeing after every step |
| EquationPasses.UnlabelledContained | internal/site/site.go:2614-2620 | for a block without labels the condition is that its source lines hold no code fence |
| EquationPasses.FenceInBlockDiverges | internal/site/site.go:2571-2708 | a closed block around a code fence: a source on which the passes disagree |
| EquationPasses.LabelInBlockDiverges | internal/site/site.go:2614-2620 | a closed block with a label beside a delimiter: another one |
| EquationPasses.ClassesAgree | internal/site/site.go:2571-2708 | under that condition the replacing pass takes every block for an equation from end to end, and every copied line for what the collecting pass took it for |
| EquationPasses.ProtectedTextUnchanged | internal/site/site.go:2571-2708 | and whatever text is rewritten to, the fenced lines of the result are the source's and its equation lines are the numbered blocks |
| EquationPasses.FencedTextUnchanged | internal/site/site.go:2571-2708 | if blocks hold no code fence, not even in a label, the code of the result is the code the scanner finds in the source |
| Equations.PrepareEquationReferences | internal/site/site.go:2561-2569 | both passes over a source, the second one only if a label exists, and the anchors |
| Rewriting.ReplacingKeepsText | internal/site/site.go:2538-2559 | rewriting references makes no line of text a code fence or a delimiter |
| Rendering.PrepareMarkdown | internal/site/site.go:2259-2262 | the figure pass and then the equation pass, with the figure map of the source |
| Rendering.CodeUnchanged | internal/site/site.go:2308-2708 | through all four passes the code of a source stays as it is, line for line, under the conditions of each |
| SourceBlocks.TidyIffStepsFine | internal/site/site.go:2571-2658 | reading a text line by line decides whether the equation pass finds every block closed, free of code and of its own end |
| SourceBlocks.TidyThroughFigures | internal/site/site.go:2308-2536 | a source that is so stays so through the figure pass |
| SourceBlocks.CodeOfSourceUnchanged | internal/site/site.go:2308-2708 | so the code of a source stays as it is through all four passes under conditions on the source alone |
| PluginHost.KeepsInv | internal/pluginhost/host.go:97-182 | every step of every call keeps the invariant: one owner per process, live processes owned, entries under their own ID, and what a sweep or close that holds the lock has done so far |
| PluginHost.OnlyOwnersStop | internal/pluginhost/host.go:97-182 | a step changes a process only by its dying, its being waited for, or a stop by its owner: the call that holds it, a sweep its entry does not match, or a drain |
| PluginStarts.ReconcileStartsTheWanted | internal/pluginhost/host.go:117-130 | in every interleaving a reconcile that is through has started one call for each of its packs with a gRPC runtime, the background flag and the permission for it, in their order, and no other |
| PluginStarts.SpawnedWereAskedFor | internal/pluginhost/host.go:82-182 | every process spawned, and every client registered, is of a pack that a request named or that a reconcile had to start |
| PluginHost.LiveProcessesAreAccountedFor | internal/pluginhost/host.go:141-182 | in every interleaving a live process is registered under its own pack's ID or held by exactly one call that starts or stops it |
| PluginHost.OverwriteOrphansNothing | internal/pluginhost/host.go:150-182 | registering over an entry replaces only a client whose process has exited and been waited for |
| PluginHost.SweepLeavesMatching | internal/pluginhost/host.go:100-125 | when the locked part of a reconcile ends, exactly the clients that match an active pack's version and root are left |
| PluginHost.MatchingLasts | internal/pluginhost/host.go:97-182 | from then on, in every interleaving, all entries match in all states of the run if and only if every client registered is of an active pack |
| PluginHost.ActiveRequestsKeepMatching | internal/pluginhost/host.go:97-182 | which is so if the starts under way and everything asked for later are of active packs |
| PluginHost.OldStartOutlivesReconcile | internal/pluginhost/host.go:168-181 | a run in which a start of an old version, under way during the reconcile, is registered after it |
| PluginHost.CloseLeavesNothing | internal/pluginhost/host.go:141-148 | once a close has drained the map and every other call has returned, no process is alive |
| PluginHost.Host.CheckExisting | internal/pluginhost/host.go:155-165 | the first critical section reuses a running client or drops the entry, as the state machine's step does |
| PluginHost.Host.Register | internal/pluginhost/host.go:168-181 | the second critical section registers, or finds a running client and asks for the own one to be stopped |
| PluginHost.Host.Sweep | internal/pluginhost/host.go:107-117 | the loop over the map, in any order, keeps exactly the matching clients and closes exactly the others |
| PluginHost.Host.Launch | internal/pluginhost/host.go:117-130 | the loop that starts calls: one for each pack with a gRPC runtime, the background flag and the permission, in order |
| PluginHost.Host.Drain | internal/pluginhost/host.go:141-148 | closing empties the map and closes every client that was in it |
| Permalinks.InjectiveIffSlugToken | internal/site/site.go:1308-1356 | the URLs of a valid pattern tell all slugs apart, with any four-digit years and up to trailing slashes, if and only if the scan of the pattern finds a slug token |
| Permalinks.OverlappingTokensHideSlug | internal/site/site.go:1332-1339 | `/%year%postname%` passes validation although its scan finds no slug token |
| Permalinks.EqualWidthsAlign | internal/site/site.go:1469-1497 | slugs of equal length stand at equal positions, so equal expansions have equal slugs |
| Permalinks.ExpandInjective | internal/site/site.go:1469-1497 | expansions with a slug token determine the slug, whatever the dates |
| Permalinks.ComparableURL | internal/site/site.go:1499-1518 | URLs are compared by the expansion of the pattern without its final slashes |
| Permalinks.DefaultsAreUsable | internal/site/site.go:1247-1253 | the default patterns are valid and their scan finds the slug token |
| Permalinks.ScanReads | internal/site/site.go:59-59 | the scan finds exactly the tokens that stand where none stood before them; the reading is unique (`OneReading`) |
| Permalinks.ValidIffWellFormed | internal/site/site.go:1308-1356 | the validator accepts a pattern if and only if it is a rooted path of nonempty segments, none of them dots, without query and fragment, with a slug token among its characters and no token but those of its kind |
| Permalinks.URLShows | internal/site/site.go:1469-1497 | in the URL of a valid pattern each literal stands for itself, each date token for its field of the date in four or two digits, each slug token for the slug, at the sum of the widths before it |
| Permalinks.DefaultURL | internal/site/site.go:1247-1253 | the default patterns give the fixed prefix of their kind and the slug |
| Permalinks.ComparesAs | internal/site/site.go:1499-1518 | white space around a path, slashes after it and the one before it make no difference when paths are compared |
| Permalinks.ApplyPermalinks | internal/site/site.go:530-544 | a URL is kept only when no permalink is set at all; otherwise a well-formed pattern shows in it piece by piece, each at its place, the slug, year, month and day as they are, and any other setting gives the default address |
| Permalinks.PostByPermalink | internal/site/site.go:545-555 | the first post whose URL is the requested path, or none if there is no such post |
| Permalinks.VisitOwnURL | internal/site/site.go:530-555 | a request for a post's URL, with or without a trailing slash, finds that very post when slugs are unique and the pattern scans to a slug token |
| FreshNames.FreeName | internal/site/site.go:1787-1791 | the suffix loop ends and yields the first of id, id-2, id-3, ... that is not used, within one more than the number of used IDs |
| MenuText.NormalizeIDNormal | internal/site/site.go:2083-2088 | a cleaned ID consists of words of lower-case letters and digits joined by single dashes |
| Spelling.IDSpells | internal/site/site.go:2083-2088 | a cleaned ID is the words of the text, its runs of letters and digits in lower case, with one dash between each two |
| MenuText.NormalIDKept | internal/site/site.go:2083-2088 | and such an ID is left alone |
| MenuText.NormalizeKeyNormal | internal/site/site.go:1900-1905 | a cleaned setting key consists of such words joined by single underscores |
| Spelling.KeySpells | internal/site/site.go:1900-1905 | a cleaned key is the same with underscores |
| MenuText.NormalizedURL | internal/site/site.go:2090-2132 | a cleaned address is valid and stays as it is when cleaned again; an address that is rejected was not valid |
| MenuMeaning.AcceptedIffSafe | internal/site/site.go:2090-2100 | an address is accepted as it is exactly if it is a path of the site, and not the host of another one, or has the scheme of a web page or a mail address |
| MenuMeaning.CleanedAddress | internal/site/site.go:2111-2132 | a safe address is kept, a bare host without white space gets https, and nothing else is accepted |
| MenuItems.NormalizeMenuItems | internal/site/site.go:2043-2081 | the loop keeps, in order, the cleaned form of exactly the usable links |
| MenuItems.NormalizedItems | internal/site/site.go:2043-2081 | kept links are trimmed, without children, and have just the fields their kind uses |
| MenuMeaning.KeptLinks | internal/site/site.go:2043-2081 | which links are kept and as what, by the word of their kind in any case |
| MenuMeaning.OldCustomKind | internal/site/site.go:1732-1747 | an old custom link is one whose kind spells custom, letter by letter, in any case and with the long s |
| MenuMeaning.DirectLinks | internal/site/site.go:783-820 | which entries of a sidebar are links and not sections |
| MenuMeaning.SectionWords | internal/site/site.go:2011-2028 | the words for the kinds of sections; any other is a custom one |
| MenuItems.NormalItemsKept | internal/site/site.go:2043-2081 | and such links are left alone |
| MenuItems.MigrateLegacyCustomMenuItems | internal/site/site.go:1732-1747 | the kind custom becomes url at every depth and nothing else changes |
| MenuItems.NormalizeSidebarCollectionItems | internal/site/site.go:836-862 | the loop with its pending links gathers loose links into custom sections at the places where they stood |
| MenuItems.NormalizedSidebar | internal/site/site.go:836-862 | a cleaned sidebar holds only cleaned links or only cleaned sections |
| MenuItems.NormalSidebarKept | internal/site/site.go:836-862 | and such a sidebar is left alone |
| MenuItems.SidebarKeepsLinks | internal/site/site.go:836-862 | whatever the mix of old links and sections, the links afterwards are the cleaned links of before, in order |
| MenuLists.NormalizeMenuCollection | internal/site/site.go:1776-1838 | names, unique IDs and cleaned entries for every menu or sidebar, from front to back |
| MenuLists.MenusGetAskedIDs | internal/site/site.go:1776-1791 | every menu gets the ID that its own ID spells, or else its name, or else its place in the list, numbered only if an earlier one has it |
| MenuLists.CleanedIsNormal | internal/site/site.go:1776-1838 | all IDs of the result are nonempty, normal and unique, and all names nonempty |
| MenuLists.NormalMenusKept | internal/site/site.go:1776-1838 | a list that is in order is left alone |
| ThemeValues.NormalizeCustomSettings | internal/site/site.go:1847-1877 | every usable value of every theme is kept under its cleaned key, whichever of clashing keys comes last |
| ThemeValues.KeptValueMeansTheSame | internal/site/site.go:1880-1894 | a value is kept exactly if it says something, says the same afterwards, and what is stored depends on that alone |
| ThemeValues.MigrateLegacyHeroes | internal/site/site.go:1912-1938 | the migration of encoded locations is that of some order over the locations |
| ThemeValues.ExplicitSettingsWin | internal/site/site.go:1941-1962 | a setting that is there survives the migration in any order |
| ThemeValues.HeroArrives | internal/site/site.go:1912-1962 | a location that decodes to a text leaves its setting in the theme's values |
| ThemeValues.EncodedArrives | internal/site/site.go:1912-1938 | the same in terms of the locations as they are spelt |
| ThemeValues.HeroesComeFromLocations | internal/site/site.go:1912-1962 | and the migration sets nothing else: every value was there before or is the text that a location carries for that setting |
| ThemeSettings.NormalizeLocations | internal/site/site.go:1684-1703 | every usable location is kept, with no menu, the default menu or one of the list; visited in any order |
| ThemeSettings.LocationKeepsMenu | internal/site/site.go:1684-1703 | a location that spells the ID of a menu, in whatever case and with whatever between its words, keeps that menu under its own name spelt likewise |
| ThemeSettings.NormalizeThemeSettings | internal/site/site.go:1666-1706 | the whole normaliser, for some order of its maps |
| ThemeSettings.NormalizedIsNormal | internal/site/site.go:1666-1706 | its result is closed: IDs are normal and unique, every location is empty, the default or an existing menu, the sidebar choice is absent, empty or existing |
| ThemeSettings.NormalIsKept | internal/site/site.go:1666-1706 | closed settings are left alone in whatever order the maps are visited |
| ThemeSettings.NormalizingSettles | internal/site/site.go:1666-1706 | normalising a second time changes nothing, for any two visiting orders |
| Sidebar.SidebarSections | internal/site/site.go:659-687 | the sections of the selected sidebar, with old links shown as one custom section under its name |
| Sidebar.ResolveSidebarSectionItem | internal/site/site.go:869-912 | one section: its title or the default one, its links, and whether it is shown |
| MenuMeaning.LinkShows | internal/site/site.go:1017-1080 | what a link shows and where it leads, kind by kind: a place of the site, a content that exists, or an address |
| MenuMeaning.SectionShows | internal/site/site.go:869-935 | what a section shows: its title or the label of its kind, and its links or those the site lists |
| MenuMeaning.LabelsSet | internal/site/site.go:713-741 | a label that is blank has its default |
| MenuMeaning.SidebarLinksLead | internal/site/site.go:659-687 | whatever is stored, every link a sidebar shows leads to a fixed place, a content that exists or a safe address |
| Sidebar.NormalizingKeepsRendering | internal/site/site.go:659-687 | a sidebar with a name renders alike before and after normalising; a nameless one does if and only if it is not a list of old links, shows nothing, or its ID is the default title |
| Sidebar.EditorKeepsRendering | internal/http/server.go:3560-3591 | a stored sidebar renders like the structure the editor makes of it |
| Sidebar.SidebarAdminMenus | internal/http/server.go:3560-3591 | the editor's list: the default sidebar, then every other one in order, old links wrapped in a custom section |
| MenuMeaning.EmptySidebarName | internal/http/server.go:3560-3591 | an empty sidebar is renamed in the editor exactly if its name is blank or was generated |
| Sidebar.WrappedHasNoLooseLinks | internal/http/server.go:3571-3588 | the editor leaves no link outside a section |
| Sidebar.MigrationKeepsRendering | internal/site/site.go:659-687 | from the file through the normaliser, the editor and the normaliser again, a named sidebar renders the same |
| Sidebar.ListKeepsRendering | internal/http/server.go:3560-3591 | the same for the whole list: every named sidebar has its place in the editor's list, and what is stored from there looks as it did |
| Importer.Builder.AddMedia | examples/bundles/wordpress-importer/plugins/wordpress-importer/cmd/postizer-wordpress-importer/batch.go:90-122 | a URL seen before gives its own placeholder, a new one a file with an unused ID, a blank one nothing |
| Importer.Builder.FindID | examples/bundles/wordpress-importer/plugins/wordpress-importer/cmd/postizer-wordpress-importer/batch.go:98-106 | the loop that appends numbers to the ID ends, with an ID nobody has |
| Importer.AddedConsistent | examples/bundles/wordpress-importer/plugins/wordpress-importer/cmd/postizer-wordpress-importer/batch.go:90-122 | distinct URLs have distinct IDs, files are only added at the end, and the index returned is that of the URL |
| Importer.Builder.Markdown | examples/bundles/wordpress-importer/plugins/wordpress-importer/cmd/postizer-wordpress-importer/markdown.go:170-217 | the body is its text with a placeholder of a file of the batch in every hole, each hole between parentheses |
| FigureSources.ImportedBlock | examples/bundles/wordpress-importer/plugins/wordpress-importer/cmd/postizer-wordpress-importer/markdown.go:173-192 | what an import writes for a picture is a figure block with an image, a caption and a label, line by line |
| FigureSources.ImportedFigureReads | examples/bundles/wordpress-importer/plugins/wordpress-importer/cmd/postizer-wordpress-importer/markdown.go:173-192 | the figure block an import writes, in texts without backslashes, is read by the page as that figure if and only if its text has no closing bracket, although that is escaped |
| LinkTexts.ImportedLinkReads | examples/bundles/wordpress-importer/plugins/wordpress-importer/cmd/postizer-wordpress-importer/util.go:57-61 | an imported link is read as one with its label, or with its address if it has none |
| LinkTexts.AltReads | examples/bundles/wordpress-importer/plugins/wordpress-importer/cmd/postizer-wordpress-importer/util.go:63-66 | a reader that honours backslashes reads the escaped text of a picture as that text |
| LinkTexts.CaptionReads | examples/bundles/wordpress-importer/plugins/wordpress-importer/cmd/postizer-wordpress-importer/util.go:68-72 | and a caption as the caption without its braces |
| ImportBatch.BuildImportBatch | examples/bundles/wordpress-importer/plugins/wordpress-importer/cmd/postizer-wordpress-importer/batch.go:37-88 | attachments first, then the bodies; posts, pages and skipped items in order, every body in terms of the final list of files |
| ImportBatch.RowsAccountedFor | examples/bundles/wordpress-importer/plugins/wordpress-importer/cmd/postizer-wordpress-importer/batch.go:37-88 | no row of an export vanishes: each is a post, a page, reported as skipped, or of a type that is no content |
| ImportBatch.ReplaceMediaPlaceholders | examples/bundles/wordpress-importer/plugins/wordpress-importer/cmd/postizer-wordpress-importer/util.go:30-35 | the replacement in some order over all files |
| ImportBatch.WorksIffPrefixFree | examples/bundles/wordpress-importer/plugins/wordpress-importer/cmd/postizer-wordpress-importer/util.go:30-35 | the substitution is right for all clean bodies, paths and orders if and only if no ID begins with another one |
| ImportClashes.ShorterFirst | examples/bundles/wordpress-importer/plugins/wordpress-importer/cmd/postizer-wordpress-importer/util.go:30-35 | for any body and any paths: when a file comes first and the rest follow with the longest ID first, exactly the holes of longer IDs that begin with its ID get its path with the rest of the ID behind it |
| ImportClashes.RightOnlyByAccident | examples/bundles/wordpress-importer/plugins/wordpress-importer/cmd/postizer-wordpress-importer/util.go:30-35 | so the body comes out right if and only if each such path happens to be that |
| ImportClashes.TwelveIsLost | examples/bundles/wordpress-importer/plugins/wordpress-importer/cmd/postizer-wordpress-importer/batch.go:37-129 | attachments 1 and 12 from the export through the batch to a post that is sent with the wrong path |
| ImportBatch.PathsArrive | examples/bundles/wordpress-importer/plugins/wordpress-importer/cmd/postizer-wordpress-importer/runner.go:47-85 | with prefix-free IDs every hole gets its own file's path, in any order |
| ImportBatch.NoMarkLeft | examples/bundles/wordpress-importer/plugins/wordpress-importer/cmd/postizer-wordpress-importer/runner.go:68-85 | and no placeholder is left |
| ImportBatch.RunImport | examples/bundles/wordpress-importer/plugins/wordpress-importer/cmd/postizer-wordpress-importer/runner.go:14-119 | saved paths or source URLs for all files, every body sent once, exactly the failures counted, progress that never goes back, never exceeds the total and ends with it |
| ImportBatch.ImportedBodiesAreRight | examples/bundles/wordpress-importer/plugins/wordpress-importer/cmd/postizer-wordpress-importer/runner.go:47-101 | whatever downloads fail, every link of every body sent leads to its own file |
| LoginThrottle.Throttle.RetryAfter | internal/http/server.go:4164-4178 | the wait of a lock that holds; an outdated entry is dropped, other keys are untouched |
| LoginThrottle.Throttle.RecordFailure | internal/http/server.go:4180-4199 | a failure joins its epoch or begins a new one, and the fifth of an epoch sets the lock |
| LoginThrottle.Throttle.LoginPost | internal/http/server.go:713-747 | one login with no other in between: refused while locked, otherwise the password decides; other keys are untouched |
| LoginThrottle.Serve | internal/http/server.go:713-747 | of logins one after another, the entry of a key depends on those of that key alone |
| LoginThrottle.GrantForgets | internal/http/server.go:713-747 | after a granted login the key is as if it had never been seen before, for every run before and after |
| LoginThrottle.EpochsOfRun | internal/http/server.go:4180-4199 | epochs have at most five failures, begin at least fifteen minutes apart, and a full one is followed by fifteen minutes of none |
| LoginThrottle.EightPerWindow | internal/http/server.go:713-747 | of logins one after another, with a clock that never goes back and no successful one, at most eight passwords are checked for a key in any half-open fifteen minutes |
| LoginThrottle.EightHappens | internal/http/server.go:4180-4199 | eight is reached, so the bound is the best one |
| LoginThrottle.LockHolds | internal/http/server.go:4164-4178 | while the lock holds no password is checked and the lock is not prolonged |
| LoginThrottle.WaitingEndsTheLock | internal/http/server.go:4207-4213 | waiting the Retry-After seconds of section 10.2.3 of RFC 9110 ends the lock, and one second less does not |
| LoginThrottle.HeaderCovers | internal/http/server.go:4207-4213 | the header names the least number of whole seconds that covers the wait, and is there only if there is one |
| LoginOverlap.PotentialFalls | internal/http/server.go:4164-4199 | the checks that can still come are counted by the entry and the logins under way: no step of any login raises that count before one arrives after the window, and a counted failure lowers it |
| LoginOverlap.AloneIsOneLogin | internal/http/server.go:713-747 | a login that no other comes between is refused or decided as the one in one step, and leaves the same entry and nothing else |
| LoginOverlap.BoundedByOverlap | internal/http/server.go:713-747 | in every interleaving with a clock that never goes back, no success and at most m logins of the key under way, at most 2m^2 + 7m - 1 failed checks have a time in any half-open fifteen minutes; eight for m = 1 |
| LoginOverlap.AllAtOnce | internal/http/server.go:713-747 | for every n, n logins that arrive together all have their password checked |
| Appearance.MergeMessages | internal/appearance/appearance.go:2386-2393 | nonblank entries of the source over the target, visited in any order; only the target changes |
| Appearance.LocalizedPackMessages | internal/appearance/appearance.go:1673-1680 | a new map with the pack's default messages under those of the locale |
| Appearance.MergingIsLookup | internal/appearance/appearance.go:345-354 | merging in reverse order equals a lookup: the first nonblank message among plugins in order, theme at the locale, theme default, default theme at the locale, else the default theme's entry |
| Appearance.MergeActiveLocaleCodes | internal/appearance/appearance.go:1767-1790 | the locales offered, each once: the theme's own and those a plugin covers completely, and no other |
| Appearance.CoversMessages | internal/appearance/appearance.go:1804-1820 | the loop over the required keys, in any order, finds whether each has a nonblank message in the locale |
| Appearance.NormalizeThemeLocale | internal/appearance/appearance.go:1682-1693 | the locale asked for if it is supported, else the default |
| Appearance.OfferedLocaleIsComplete | internal/appearance/appearance.go:1745-1819 | in a locale that an active plugin offers, every required key has a nonblank message, from a plugin in exactly that locale |
| AppearanceCatalog.LoadPack | internal/appearance/appearance.go:1575-1640 | a loaded pack's default locale is one of its locales, which are the keys of its translations; each locale some file names has the entries of the last such file |
| AppearanceCatalog.ResolvePluginOrder | internal/appearance/appearance.go:1837-1869 | the active plugins are those requested, in that order, and every other plugin is inactive |
| AppearanceCatalog.ResolvedOrder | internal/appearance/appearance.go:1845-1860 | the order has every known requested ID exactly once and nothing else |
| AppearanceCatalog.MergePlugins | internal/appearance/appearance.go:352-354 | the reverse loop over the plugins, in place on one map |
| AppearanceCatalog.Catalog | internal/appearance/appearance.go:331-354 | the locale is the one asked for exactly if it is the theme's or an active plugin offers it completely, and else the theme's default; every message is the looked-up one there, a locale from plugins is complete, and no map that existed before is changed |
| FrontMatter.ValueSurvivesIffPlain | internal/site/site.go:3240-3244 | a value is read back as it was written if and only if it is trimmed and has neither a quote nor a backslash |
| FrontMatter.TagsSurviveIffPlain | internal/site/site.go:3201-3208 | tags are read back if and only if each is nonempty, trimmed, and without comma, quote and backslash |
| FrontMatter.ParseTags | internal/site/site.go:3500-3516 | the loop over the pieces between commas |
| FrontMatter.ListReads | internal/site/site.go:3500-3516 | a list of tags is read however it is spaced and quoted |
| FrontMatter.ValueReads | internal/site/site.go:3325-3348 | so is a value |
| PostFormat.SerializePost | internal/site/site.go:3192-3216 | the file of a draft, field by field |
| PostFormat.SplitFrontMatter | internal/site/site.go:3325-3348 | the fields before the first line of three dashes and the text after it; a file without a header is all text |
| PostFormat.FieldReads | internal/site/site.go:3325-3348 | so is a field |
| PostFormat.CommentsAreSkipped | internal/site/site.go:3325-3348 | blank lines and comments say nothing |
| PostFormat.FileSplits | internal/site/site.go:3325-3348 | a serialised file is cut exactly at the end of its header, whatever lines of dashes its body has |
| PostFormat.LoadedAgain | internal/site/site.go:2145-2171 | all fields of a writable draft are read back, and the body is the trimmed one with Unix line ends |
| PostFormat.ReadsBackIffCarried | internal/site/site.go:3192-3244 | the header gives every value again if and only if the values have no line break, quote or backslash, no white space around them, and the tags no comma and are not empty |
| PostFormat.SavedAgain | internal/site/site.go:3192-3244 | saving a loaded post writes the same bytes if and only if its body has no Windows line ends and no summary was made up for it |
| MediaPaths.CleanKeeps | internal/media/store.go:329-329 | cleaning a relative path of ordinary names changes nothing |
| MediaPaths.ResolvesToOwn | internal/media/store.go:323-334 | an item's path leads to a file with the item's own ID, and to its very file if and only if the path does not end in white space |
| MediaPaths.ResolvedStaysInside | internal/media/store.go:323-334 | a path is accepted exactly if it lies under the media directory and its cleaned names do not lead out of it, and then none of them does |
| MediaPaths.IDsOfBytes | internal/media/store.go:416-422 | the IDs are exactly the hexadecimal texts of twelve bytes |
| MediaStore.KeepsInv | internal/media/store.go:123-289 | every step, a crash and a reload included, keeps the invariant: listed files present, IDs unique, files of uploads and deletions under way apart |
| MediaStore.FilesArePresent | internal/media/store.go:123-289 | in every reachable state each item of the index and of the list in memory has its stored file and kept original |
| MediaStore.RemovalSparesOthers | internal/media/store.go:242-263 | nothing that is removed in a reachable state belongs to another listed item or to an upload under way |
| MediaStore.DeletionRemovesOwnFile | internal/media/store.go:242-263 | a deletion removes the stored file if and only if the path does not end in white space |
| MediaStore.DeletionRemovesOwnOriginal | internal/media/store.go:242-263 | the same for the original that was kept |
| MediaStore.SpacedFileIsLeftBehind | internal/media/store.go:123-334 | a run that uploads and deletes a file named "a. " and leaves it on disk, in no list |
| MediaStore.CrashRecovers | internal/media/store.go:265-289 | after a crash the list is the index on disk up to dimensions, and the invariant holds |
| MediaStore.Store.SaveUpload | internal/media/store.go:165-218 | files, then list, then index, for every outcome of the file operations |
| MediaStore.Store.Update | internal/media/store.go:221-239 | only the named item's text fields change |
| MediaStore.Store.Delete | internal/media/store.go:242-263 | the item leaves list and index, then its files go; nothing else does |
| MediaStore.Store.Load | internal/media/store.go:265-289 | the list is read from the index and dimensions found are saved |
| PostFiles.NormalizedSlugValid | internal/site/site.go:3522-3531 | a title gives no slug at all or a valid one without double dashes |
| PostFiles.SlugSpells | internal/site/site.go:3522-3531 | the slug is the words of the title, its runs of letters and numbers in lower case, with one dash between each two |
| PostFiles.UniqueContentSlug | internal/site/site.go:3111-3131 | the search ends with the first candidate that no other post's file has |
| PostFiles.Directory.SavePost | internal/site/site.go:2943-2990 | one file is written under that slug, at most the renamed one is removed, and failed saves before the write change nothing |
| PostFiles.OtherPostsUnchanged | internal/site/site.go:3111-3170 | a save overwrites no other post, and every other file is unchanged |
| PostFiles.PostCount | internal/site/site.go:2943-2990 | a new post adds one file, an edited one none |
| PostFiles.SavingAgainKeepsSlug | internal/site/site.go:3111-3131 | saving again under the same title keeps the slug |
| Pbkdf2.XorInPlace | internal/http/server.go:4414-4416 | the inner loop is the exclusive or of the two blocks |
| Pbkdf2.DeriveBlock | internal/http/server.go:4404-4418 | the rounds of one block compute F of section 5.2 of RFC 8018 |
| Pbkdf2.BigEndianValue | internal/http/server.go:4404-4405 | the four bytes of the counter, the most significant first, have its value |
| Pbkdf2.DeriveKey | internal/http/server.go:4395-4421 | nothing for non-positive rounds or lengths, else the first keyLen bytes of the blocks |
| Pbkdf2.DeriveStandardKey | internal/http/server.go:4395-4421 | the key is the standard's for every length the standard allows |
| Pbkdf2.ShorterKeyIsPrefix | internal/http/server.go:4395-4421 | a shorter key is the beginning of a longer one |
| Pbkdf2.BlocksRepeat | internal/http/server.go:4404-4405 | past the 32-bit block counter blocks come again, where the standard asks for an error |
| SelfUpdate.KeepsInv | cmd/postizer/main.go:37-124 | every step of the requests, the loop and the timer keeps the invariant |
| SelfUpdate.FlagMeansOneRequest | cmd/postizer/main.go:40-48 | in every interleaving the flag is set if and only if one request is between swap and send, queued, or running until the flag is cleared; never two |
| SelfUpdate.SendNeverBlocks | cmd/postizer/main.go:45-45 | whoever has swapped the flag finds room in the channel |
| SelfUpdate.StartedInOrder | cmd/postizer/main.go:95-124 | the versions started are a beginning of those accepted, in order and each once, and at most one accepted version is not started |
| SelfUpdate.RestartIsLast | cmd/postizer/main.go:104-123 | a command that asks for a restart ends the run: nothing is accepted or started after it |
| SelfUpdate.LoopNeverStuck | cmd/postizer/main.go:104-123 | unless the program has exited the loop has a step of its own or waits for an armed timer; no stale tick survives a reset |
| SelfUpdate.Handoff.Trigger | cmd/postizer/main.go:41-47 | a free flag is taken and the version queued at once; a taken flag refuses and changes nothing |
| SelfUpdate.Handoff.Turn | cmd/postizer/main.go:104-119 | one turn of the loop takes the queued version, if any, and clears the flag only after it |

## Left out

- The Markdown converter, syntax highlighting and templates: the converter is the identity on text with tokens.
- The passes as a whole up to the finished page: each pass and each substitution is proved on its own; only the code of a source is followed through all of them.
- Lower-casing is exact on everything that becomes ASCII; other letters are left as they are, in slugs, labels and headers alike.
- Invalid UTF-8: texts are code points, so byte sequences that are no text do not occur.
- PostFormat.LoadedAgain: times stay the text they are written as; parsing them and time zones are not modelled.
- `url.Parse`, hexadecimal decoding, `path.Base`, JSON and XML decoding: parameters or identities.
- Sidebar.SidebarSections: the choice of the sidebar by its ID is not modelled, only what the chosen one shows; the settings it comes from are in `ThemeSettings`.
- Settings other than theme settings and permalinks: each is a range check or a default.
- PluginHost: the gRPC host service of a process, a stop that fails and the grace period before a kill; a kill makes the process die.
- PluginHost and MediaStore: a mutex that is held is a step that is not enabled; fairness and time-outs are not modelled.
- RawDetection.SourceShowsItsMath: the converse is open; a reference with a backslash before its own need not lead to math, since its label may be unknown or a later rewriting or the missing end of the span may undo it.
- LoginThrottle.Throttle.LoginPost: a login as one step; the interleavings are in `LoginOverlap`.
- LoginThrottle.Serve: logins one after another.
- LoginThrottle.EightPerWindow: logins one after another; `LoginOverlap.BoundedByOverlap` has the bound for others.
- MediaStore.CrashRecovers: writing the index is one step. The program writes it in place, so a crash in the middle of that write is outside the model.
- MediaStore: image decoding and conversion; which of an upload's files exist is part of the item.
- Importer.Builder.Markdown: does not model the traversal of the HTML tree, white space collapsing and links around images; a body is a list of texts, figures and links.
- Importer: titles, alternative texts, tags, slugs and dates of imported items.
- AppearanceCatalog.LoadPack: does not sort locales; a default taken from the list is any of its locales.
- SelfUpdate: the update log, the command itself and the variant that writes a request file; a command ends, and may ask for a restart.
- LoginThrottle and LoginOverlap: clocks that go back, the audit of failures, and successful logins in the bounds.
- Pbkdf2: HMAC-SHA-256 itself, base64 and the format of stored hashes.
- Pages are saved, loaded and looked up as posts are; only posts are modelled, except that permalink patterns cover pages and tags too.
- Manifest checks, version comparison, pagination, comments and archives: short checks that would add only easy members.
- HTTP handlers, cookies, compression, WebDAV, the marketplace, update checks and all browser scripts.
