# AI Resource Hub: the resource pipeline, modelled in Dafny

The AI Resource Hub is a static site. It lists learning resources that are kept
as markdown documents, one per category. Three of its scripts hold all of the
logic:

- `js/resources-loader.js` reads every category document into resource
  records, collects them into one store and renders them as cards.
- `fix.js` reads one category document at a time, line by line. It keeps a
  cache of rendered cards per category and the category being shown, and it
  filters those cards by skill level.
- `js/main.js` selects records from the store by category tag or by level
  (at most twelve). It also keeps exactly one filter button active and maps
  navigation links to section ids.

This project restates that pipeline in Dafny and proves what the scripts
promise. The modules:

| module | what it holds |
|---|---|
| `Wrappers` | `Option` and `Result` |
| `Sequences` | order-preserving `filter`, `slice(0, n)`, a flat map, with their laws |
| `JsStrings` | the JavaScript string built-ins the scripts call: `trim`, `startsWith`, `includes`, `indexOf`, `replace`, `split`, `join`, `toLowerCase`, `replace(/\s+/g, '-')`, and the capitalised level name of `fix.js` (`Capitalize`) |
| `LinePatterns` | the title, url and description regular expressions, each as an explicit scan proved against a declarative statement of JavaScript's leftmost, lazy and greedy matching, plus the round trip from a resource line back to its parts |
| `Levels` | the three skill levels and the rule that reads a level from heading text |
| `Page` | cards and placeholder nodes as values, the document store that stands in for `fetch` (`Fetch` looks a path up in it), setting a heading's text (`Retitle`), `classList.contains`, and the container element |
| `ResourcesLoader` | `parseMarkdown`, `loadAllResources` (class `ResourceStore`), `renderResourceCards` |
| `FixParser` | `parseMarkdownToResources`, and how it relates to the other reader |
| `CategoryView` | the cache and current-category state machine of `fix.js`, first as transition functions on a `View` value, then as class `CategoryCache`, whose methods perform those transitions in place; `applyLevelFilter`; the filter buttons; both findings |
| `MainScript` | `displayCategoryResources`, the filter-button handler with its cap of twelve, active-button selection, nav targets (class `ResourcesSection`) |

The network is a parameter. `Documents` maps each path the site serves to the
document's text. A path missing from the map is a fetch that fails, whether
from a network error or from a response that is not `ok`. Everything the
scripts do asynchronously is modelled as if the fetch completed at once.

## Model

| member | source | states |
|---|---|---|
| `ResourcesLoader.ParseMarkdown` | js/resources-loader.js:22-78 | the method (guard, split, title line, chunk loop) returns exactly `MarkdownResources` of its input, including the two ways it throws |
| `ResourcesLoader.MarkdownResources` | js/resources-loader.js:23-30 | an absent or empty document gives no records; the reader throws `NoSections` exactly when the document is non-empty and every chunk split on `##` is blank |
| `ResourcesLoader.MarkdownSections` | js/resources-loader.js:26-35 | a document with a chunk is read as its chunks in order, the first without its `# ` title line, under the main category |
| `ResourcesLoader.Untitled` | js/resources-loader.js:29-33 | when the first chunk does not start with `# `, the main category is `""` and the chunk keeps all its lines |
| `ResourcesLoader.TitleOnlyFirstChunk` | js/resources-loader.js:26-37 | as written; see Findings. A document whose first chunk is only a `# ` title line and blank lines (a title, an empty line, then `##`) makes the reader throw `UntitledSection`, so that category loads no records |
| `ResourcesLoader.IntendedMarkdownResources` | js/resources-loader.js:22-78 | intended; see Findings. The reader that skips a chunk without a title line throws only `NoSections`, and exactly when the reader as written throws `NoSections` |
| `ResourcesLoader.IntendedAgreesWhenRead` | js/resources-loader.js:35-37 | intended; see Findings. Whenever the reader as written returns records, the intended reader returns the same records |
| `ResourcesLoader.TitleOnlyFirstChunkIntended` | js/resources-loader.js:30-37 | intended; see Findings. A first chunk of only a title line and blank lines is skipped, and the other chunks are read under the main category |
| `ResourcesLoader.TitledSectionsAgree` | js/resources-loader.js:35-37 | intended; see Findings. With a title line in every chunk, skipping untitled chunks reads what the chunk loop as written reads |
| `ResourcesLoader.TitleRemoved` | js/resources-loader.js:30-32 | removing the `# ` title line leaves exactly the text after its line break |
| `ResourcesLoader.BlankChunkUntitled` | js/resources-loader.js:36-37 | a chunk of only whitespace has no title line, so reading it throws `UntitledSection` |
| `ResourcesLoader.WithoutTitle` | js/resources-loader.js:32 | dropping the title line never introduces a `##` |
| `ResourcesLoader.MarkdownRecords` | js/resources-loader.js:26-71 | every record `parseMarkdown` returns has an empty subcategory (a `### ` line always starts a new chunk), carries the main category, and has exactly `[level, category tag]` as its tags |
| `ResourcesLoader.ChunksHaveNoMarkers` | js/resources-loader.js:26 | no chunk contains `##`, the text the document was split on |
| `ResourcesLoader.ChunkHasNoSubheadings` | js/resources-loader.js:36-43 | a chunk without `##` has no `### ` line, so the subsection branch never fires |
| `ResourcesLoader.SectionResources` | js/resources-loader.js:36-37 | a chunk makes the reader throw exactly when it has no non-blank line to serve as its title |
| `ResourcesLoader.SectionsOkIffTitled` | js/resources-loader.js:35-37 | the chunks are read without an error exactly when every chunk has a title line |
| `ResourcesLoader.SectionRecords` | js/resources-loader.js:36-70 | a chunk's records all have the level its title line announces and the category with its two tags; a chunk without `##` gives them no subcategory |
| `ResourcesLoader.SectionsTagged` | js/resources-loader.js:63-70 | every record read from the chunks carries the main category and exactly its two tags |
| `ResourcesLoader.SectionsWithoutSubcategory` | js/resources-loader.js:39-43 | chunks without `##` yield only records with an empty subcategory |
| `ResourcesLoader.LinesInOrder` | js/resources-loader.js:41-71 | without `### ` lines, the body lines yield exactly one record per resource line, in line order, each the record that line describes |
| `ResourcesLoader.LinesTagged` | js/resources-loader.js:56-70 | every record read from body lines has the chunk's level and exactly the tags `[level, category tag]` |
| `ResourcesLoader.EntriesHaveNoSubcategory` | js/resources-loader.js:39-68 | records read under the initial empty subsection have no subcategory |
| `ResourcesLoader.ReadSectionLines` | js/resources-loader.js:41-74 | the inner loop pushes onto `resources` exactly the records `LineResources` gives for the body lines |
| `ResourcesLoader.ReadSection` | js/resources-loader.js:35-74 | one chunk's callback pushes that chunk's records, or throws `UntitledSection` for a chunk without a title line |
| `ResourcesLoader.ReadSections` | js/resources-loader.js:35-75 | the chunk loop concatenates the chunks' records in order and stops at the first chunk that throws |
| `ResourcesLoader.CategoryTag` | js/resources-loader.js:70 | the category tag never contains whitespace |
| `ResourcesLoader.ResourceStore.LoadAllResources` | js/resources-loader.js:86-112 | the store and the result are the records of the eight categories, concatenated in their fixed order |
| `ResourcesLoader.FailedCategorySkipped` | js/resources-loader.js:100-107 | a category whose fetch fails or whose document makes the reader throw contributes nothing, and the other categories load as if it were not listed |
| `ResourcesLoader.LoadedProvenance` | js/resources-loader.js:98-107 | every loaded record comes from a category whose document was fetched and read without an error |
| `ResourcesLoader.RenderResourceCards` | js/resources-loader.js:114-146 | the container ends up holding `Rendered(resources)` |
| `ResourcesLoader.Rendered` | js/resources-loader.js:115-145 | an empty list renders the single "no resources" node; otherwise one card per record, in order |
| `ResourcesLoader.ParsedCardClass` | js/resources-loader.js:124 | the card of a parsed record has the record's level as a CSS class |
| `ResourcesLoader.ParsedCardImage` | js/resources-loader.js:127 | the card image of a parsed record is named by its category tag, or is the placeholder when that tag is empty |
| `ResourcesLoader.ParsedCardDescription` | js/resources-loader.js:139 | a record without a subcategory shows its own description, even an empty one |
| `Levels.LevelOf` | js/resources-loader.js:56-61 | the level is `beginner` exactly when the lowercased heading contains "beginner", `advanced` exactly when it does not but contains "advanced", otherwise `intermediate` |
| `Levels.LevelOfIgnoresCase` | js/resources-loader.js:57-59 | headings that agree up to letter case announce the same level |
| `Levels.NameInjective` | js/main.js:225 | distinct levels have distinct names, so comparing names compares levels |
| `Levels.EmptyHeadingIsIntermediate` | fix.js:211 | the empty section name announces `intermediate` |
| `LinePatterns.LazyClose` | js/resources-loader.js:46-47 | the scan finds the end of a lazy `(.+?)` group exactly when the group can end there, and reports no end when none exists |
| `LinePatterns.DelimitedFrom` | js/resources-loader.js:46-47 | the scan reports the group of the leftmost match of `open (.+?) close`, and nothing exactly when no match exists |
| `LinePatterns.DelimitedUnique` | js/resources-loader.js:46-47 | any leftmost match determines the group the scan reports |
| `LinePatterns.DelimitedNeedsOpen` | fix.js:219-221 | a url match implies that the line contains `](` |
| `LinePatterns.WhitespaceRun` | js/resources-loader.js:48 | the run counted is the maximal run of `\s` characters from that position |
| `LinePatterns.DescriptionTryMeaning` | js/resources-loader.js:48 | the attempt at one `)` reports the group of the greediest match there, and nothing when no match starts there |
| `LinePatterns.DescriptionFrom` | js/resources-loader.js:48 | the scan reports the group of the leftmost, greediest match of `\)\s*-\s*(.+)$`, and nothing exactly when there is no match |
| `LinePatterns.CarriageReturnHidesDescription` | js/resources-loader.js:48 | a line ending in `\r` (a CRLF document split on `\n`) never yields a description, because `.` and `$` do not accept `\r` |
| `LinePatterns.TitleRoundTrip` | js/resources-loader.js:46 | the title pattern reads back the title of a well-formed resource line |
| `LinePatterns.UrlRoundTrip` | js/resources-loader.js:47 | the url pattern reads back the url |
| `LinePatterns.DescriptionPresent` | js/resources-loader.js:48 | the description pattern reads back a present description |
| `LinePatterns.DescriptionAbsent` | js/resources-loader.js:48-53 | without a description the pattern finds nothing, so the description is `""` |
| `LinePatterns.ItemLineRoundTrip` | js/resources-loader.js:46-53 | the three patterns together read a well-formed `- [title](url) - description` line back into its parts |
| `JsStrings.Split` | js/resources-loader.js:26 | `split` gives at least one piece; joining the pieces with the separator gives the input back; no piece contains the separator; there is one piece exactly when the separator does not occur, and otherwise the first piece ends at its leftmost occurrence |
| `JsStrings.EveryCutLeftmost` | js/resources-loader.js:26 | every cut of `split` is at the leftmost occurrence of the separator in the text left after the earlier pieces, so for the self-overlapping `##` the pieces themselves are fixed (`a##b###c` gives `a`, `b`, `#c`) |
| `JsStrings.CutLeftmost` | js/resources-loader.js:26 | the same for one cut |
| `JsStrings.SplitJoin` | js/resources-loader.js:32 | splitting on one character undoes joining on it |
| `JsStrings.Trim` | js/resources-loader.js:26-36 | `trim()` is empty exactly for a blank string, and otherwise starts and ends with a non-whitespace character |
| `JsStrings.TrimInfix` | js/resources-loader.js:26-36 | `trim()` is the infix of the input between a blank prefix and a blank suffix, so with the first clause of `Trim` it is the input with its leading and trailing whitespace removed |
| `JsStrings.TrimStart` | js/resources-loader.js:31 | the result is the suffix left once the leading whitespace is removed |
| `JsStrings.TrimEnd` | js/resources-loader.js:31 | the result is the prefix left once the trailing whitespace is removed |
| `JsStrings.TrimSkipsLeadingWhitespace` | fix.js:216 | whitespace in front of a string does not change its trimmed form |
| `JsStrings.IndexFrom` | fix.js:219 | `indexOf` finds the leftmost occurrence at or after the start position, and -1 exactly when there is none |
| `JsStrings.ReplaceFirst` | js/resources-loader.js:31-43 | `replace` with a string pattern replaces a leading occurrence by the replacement, and leaves a string without the pattern unchanged |
| `JsStrings.ReplaceAtLeftmost` | js/resources-loader.js:31 | `replace` with a string pattern replaces the leftmost occurrence of the pattern by the replacement, wherever it occurs, and keeps the text around it |
| `JsStrings.ToLower` | js/resources-loader.js:57 | `toLowerCase` keeps the length and lowers each letter in place |
| `JsStrings.HyphenateWhitespace` | fix.js:116 | after `replace(/\s+/g, '-')` no whitespace is left, and a string without whitespace is unchanged |
| `JsStrings.HyphenateRun` | fix.js:116 | a whole run of whitespace between text without whitespace and text that does not start with whitespace becomes one `-` |
| `JsStrings.HyphenateBlankHead` | fix.js:116 | a leading run of whitespace becomes one `-` in front of the rest, hyphenated in turn |
| `JsStrings.HyphenatePlainPrefix` | fix.js:116 | text without whitespace in front passes through unchanged |
| `JsStrings.HyphenateIdempotent` | js/main.js:48 | hyphenating an already hyphenated category changes nothing |
| `JsStrings.HyphenateLower` | fix.js:129 | lowering and hyphenating can be done in either order |
| `Sequences.Filter` | js/main.js:46-49 | `filter` keeps exactly the elements that pass, as a subsequence of the input, so order is kept |
| `Sequences.FilterCounts` | js/main.js:46-49 | `filter` keeps each passing element exactly as many times as the input holds it, and drops every other |
| `Sequences.FilterConcat` | js/main.js:46 | filtering a concatenation filters each part |
| `Sequences.Take` | js/main.js:224 | `slice(0, n)` is the prefix of length `min(n, length)` |
| `Sequences.FlatMapConcat` | js/resources-loader.js:100-103 | concatenating per-category results over a concatenated category list concatenates the results |
| `Sequences.FlatMapMember` | js/resources-loader.js:100-103 | every element of the concatenation comes from one category's result |
| `Page.TwoClasses` | fix.js:309 | `classList.contains` on a class attribute of two space-free words holds exactly for those two words |
| `FixParser.ParseMarkdownToResources` | fix.js:208-249 | the line loop returns exactly `MarkdownListings(markdown, category)` |
| `FixParser.SectionName` | fix.js:215-216 | a `## ` heading names the rest of its line, trimmed |
| `FixParser.ListingLineIsResourceLine` | fix.js:219-224 | the extra `](` test is implied by the url pattern, so this reader accepts exactly the lines the other reader accepts |
| `FixParser.ListingsConcat` | fix.js:213-217 | reading two runs of lines reads the first, then the second from the section the first ends in, so the section persists until the next `## ` line |
| `FixParser.SectionAfterNoHeading` | fix.js:215-216 | lines without a `## ` heading do not change the current section |
| `FixParser.SectionAfterLastHeading` | fix.js:215-216 | after a run of lines, the current section is the one the last heading among them names |
| `FixParser.ListingsUnderSection` | fix.js:229-243 | between two headings every listing has the level the current section's name announces, and the category argument |
| `FixParser.ListingsCategory` | fix.js:237-243 | every listing carries the category the reader was given |
| `FixParser.BeforeFirstHeading` | fix.js:211-235 | listings read before the first `## ` heading are `intermediate`, since the section starts out empty |
| `FixParser.SubheadingIsNoListing` | fix.js:219 | a `### ` line is never a resource line |
| `FixParser.ReadersAgree` | fix.js:208-249 | within one section the two readers agree: this reader's listings are the other reader's records for the same lines, less subcategory and tags |
| `CategoryView.FetchPathOfPlainCategory` | fix.js:116 | for a category without whitespace, the fetch path is the path the startup loader uses |
| `CategoryView.Cards` | fix.js:142-145 | one card per listing, in order |
| `CategoryView.Fragment` | fix.js:136-146 | a category with no listings renders exactly the single "no resources found" node; otherwise its cards, never an empty fragment |
| `CategoryView.BuildFragment` | fix.js:133-146 | the fragment built card by card is `Fragment(category, listings)` |
| `CategoryView.LevelCardClasses` | fix.js:166 | a card's classes are exactly `resource-card` and its level's name |
| `CategoryView.NameIsToken` | fix.js:166 | a level's name is a single non-empty class token |
| `CategoryView.CategoryShown` | fix.js:88-160 | intended; see Findings. Without a container only the current category and the heading change; past the guard, the category becomes current and titles the heading; a cache hit shows the cached cards; a miss whose fetch works caches and shows the fresh fragment of the document; a miss whose fetch fails shows the error node and leaves the cache alone |
| `CategoryView.LoadOnce` | fix.js:81-161 | intended; see Findings. A request for the current category changes nothing; afterwards the category is always current, even when the container is missing or the fetch fails; the cache only ever gains a fetched entry and never loses one |
| `CategoryView.CacheHitNeedsNoFetch` | fix.js:105-110 | on a cache hit the outcome does not depend on the documents, so no fetch is needed |
| `CategoryView.CacheStepFaithful` | fix.js:148-149 | a cache step keeps every entry equal to what its category's document renders |
| `CategoryView.ShowIsTransparent` | fix.js:105-153 | with a faithful cache, showing a category draws what fetching it would |
| `CategoryView.OrPlaceholder` | fix.js:319-323 | nothing kept shows the single placeholder node; otherwise the kept nodes |
| `CategoryView.LevelFiltered` | fix.js:284-380 | the level filter titles the heading with the level and never changes the cache or the current category |
| `CategoryView.FilterCardsOfCards` | fix.js:308-351 | filtering cached cards by class keeps exactly the cards of the listings of that level, in order, or all of them for `'all'` |
| `CategoryView.FilterFragment` | fix.js:302-314 | the "no resources found" node is never kept by a level filter |
| `CategoryView.FilterIsTransparent` | fix.js:297-379 | with a faithful cache, filtering the cached cards shows what filtering freshly parsed listings would |
| `CategoryView.FilterCachedCards` | fix.js:301-314 | the loop keeps exactly the cached cards that pass the class test, in order, and counts them |
| `CategoryView.FilterCategory` | fix.js:274-277 | a filter acts on the current category when it is set and non-empty, and on `fundamentals` otherwise |
| `CategoryView.FilterClick` | fix.js:262-279 | intended; see Findings. `'all'` shows the whole category and makes it current; a level neither changes the current category nor the cache |
| `CategoryView.Step` | fix.js:28-42 | no event adds or removes the heading or the container |
| `CategoryView.StepFaithful` | fix.js:81-161 | every event keeps the cache faithful to the documents |
| `CategoryView.RunFaithful` | fix.js:81-161 | any sequence of events keeps the cache faithful |
| `CategoryView.StartFaithful` | fix.js:382-384 | from the start-up load of `fundamentals` on, the cache holds exactly what the documents render |
| `CategoryView.AllShowsWholeCategory` | fix.js:272-274 | once the current category's document is fetchable, clicking `'all'` shows that whole category as the document renders it |
| `CategoryView.LoadOnceAsWritten` | fix.js:105-110 | as written, a cache hit shows the entry's cards and leaves the entry empty |
| `CategoryView.FirstVisit` | fix.js:113-153 | a first visit whose fetch works makes the category current, caches its fresh fragment and shows exactly that fragment, as written and as intended alike |
| `CategoryView.RevisitShowsNothing` | fix.js:105-110 | as written, visiting A, B, A, B, A leaves the container empty |
| `CategoryView.RevisitShowsCategory` | fix.js:105-110 | as intended, the fifth visit shows A's cards again, which are never empty |
| `CategoryView.AllAfterFilterIsIgnored` | fix.js:272-274 | as written, `'all'` on the current category changes nothing |
| `CategoryView.AllAfterFilterExample` | fix.js:272-277 | after `beginner` hides an intermediate card, `'all'` leaves the placeholder as written, while the intended click shows the card again |
| `CategoryView.CategoryCache.constructor` | fix.js:77-78 | the cache starts empty with no current category |
| `CategoryView.CategoryCache.LoadResourcesForCategoryOnce` | fix.js:81-161 | intended; see Findings. The fields after the call are `LoadOnce` of the fields before |
| `CategoryView.CategoryCache.ShowCategory` | fix.js:88-160 | intended; see Findings. The fields after the call are `CategoryShown` of the fields before |
| `CategoryView.CategoryCache.ApplyLevelFilter` | fix.js:284-380 | the fields after the call are `LevelFiltered` of the fields before |
| `CategoryView.CategoryCache.ClickFilter` | fix.js:262-279 | intended; see Findings. The fields after the call are `FilterClick` of the fields before |
| `MainScript.InCategory` | js/main.js:46-49 | keeps exactly the records whose tags contain the category or its hyphenated form, each as many times as the store holds it, as a subsequence of the store |
| `MainScript.LoadedCategorySelection` | js/main.js:46-49 | on loaded records, a plain category that is not a level's name selects exactly the records with that category tag |
| `MainScript.TaggedMatch` | js/main.js:46-49 | a loaded record matches such a category exactly when that is its category tag |
| `MainScript.LevelPool` | js/main.js:223-225 | `'all'` chooses the whole store unchanged; any other filter chooses exactly the records of that level, each as many times as the store holds it, in order |
| `MainScript.LevelSelection` | js/main.js:223-225 | a filter button shows the first `min(12, n)` records of its pool |
| `MainScript.LevelSelectionLevels` | js/main.js:225 | a level button shows at most twelve records, all of that level |
| `MainScript.UnknownLevelShowsNothing` | js/main.js:225 | a filter value that names no level shows nothing |
| `MainScript.FirstWith` | js/main.js:67 | finds the first button with the given filter value, and none exactly when no button has it |
| `MainScript.NavTarget` | js/main.js:144 | the id is the `href` without its leading `#` |
| `MainScript.NavTargetOfLink` | js/main.js:141-144 | the link to `#id` targets `id` |
| `MainScript.ResourcesSection.constructor` | js/main.js:13-21 | the section starts with no button active |
| `MainScript.ResourcesSection.ActivateOnly` | js/main.js:66-70 | afterwards exactly the given button, if any, is active |
| `MainScript.ResourcesSection.DisplayCategoryResources` | js/main.js:37-80 | with no matching record nothing changes and the answer is false; otherwise the heading is retitled, only the first `'all'` button is active, the matches are rendered, and the answer is whether a container exists |
| `MainScript.ResourcesSection.ClickFilter` | js/main.js:208-235 | a button without `data-filter` changes nothing; otherwise exactly the clicked button is active and, when the store has records, the container shows the button's selection |

## Left out

- Browser plumbing is not modelled: DOM queries and mutation, `innerHTML` markup, scrolling, timers, event-listener wiring, `console` logging, and the image `onerror` fallbacks. A card is a record, not HTML text, and HTML escaping is not modelled.
- `fetch` is the `Documents` map. Asynchronous interleaving is not modelled: the fetch completes before anything else happens. The transient "Loading resources..." node of `fix.js` is therefore never observed.
- `toLowerCase` and `toUpperCase` are modelled on ASCII letters only. Strings are sequences of code points, not UTF-16 code units.
- `classList` is modelled as the class attribute split on single spaces. The scripts only ever write single spaces there.
- The category in the `querySelector` selectors of `js/main.js` is taken as plain text. A category containing quotes, which would break the selector, is not modelled. Nor are keys that clash with `Object.prototype` in `resourceCache`.
- The `typeof window.renderResourceCards === 'function'` checks of `js/main.js` are taken to hold.
- The `js/main.js` start-up poll that renders the first twelve records and the five-second fallback store are timers and are not modelled. The store is a field that can start in any state.
- `let globalResources` in `js/resources-loader.js` does not create `window.globalResources`, which is the name `js/main.js` reads. The model keeps the two stores apart: `ResourceStore` for the loader and `ResourcesSection` for the page script.
- Active-button exclusivity in `fix.js` is not claimed. Its handler clears `active` on the buttons captured before they were cloned and replaced, so `CategoryCache` does not model the buttons at all.
- The path-card and explore-button wiring of `fix.js` is modelled only as the `Choose` event. Scrolling and node replacement are not modelled.
- The remaining scripts of the repository are not part of this model: `debug.js`, `test_links.js`, `direct-fix.js`, `final-solution.js` and `button-fix.js`.
- `ResourcesLoader.IntendedMarkdownResources`: the loader (`ParseMarkdown`, `CategoryResources`, `ResourceStore.LoadAllResources`) keeps the reader as written, so a title-only first chunk still drops its category. The intended reader is proved to agree with it on every document the reader as written reads, and to recover the records of such a document.
- `CategoryView.CategoryCache`: its methods perform the corrected transitions (a cache hit keeps its entry; `'all'` skips the same-category guard). The behaviour as written exists only as the functions `LoadOnceAsWritten` and `FilterClickAsWritten`.

## Findings

| source | as written | input that shows it | evidently intended | confidence | as-written member | corrected member |
|---|---|---|---|---|---|---|
| fix.js:272-274 with fix.js:83-86 | the `'all'` button calls `loadResourcesForCategoryOnce` on the current category, and that returns at once when the category is already current | show a category, click `beginner`, then click `'all'`: the beginner-only cards (or the placeholder) stay on the page | `'all'` shows the whole current category again | high (not executed) | `CategoryView.AllAfterFilterIsIgnored`, `CategoryView.AllAfterFilterExample` | `CategoryView.FilterClick`, `CategoryView.CategoryCache.ClickFilter`, `CategoryView.AllShowsWholeCategory` |
| fix.js:105-110 with fix.js:149 | a cache hit appends the cached `DocumentFragment` itself; appending a fragment moves its children, so the cache entry is left empty | visit categories A, B, A, B, A: the third and fourth visits empty the entries, and the fifth shows an empty container | a cache hit shows a copy of the cached cards and keeps the entry | high (not executed) | `CategoryView.LoadOnceAsWritten`, `CategoryView.RevisitShowsNothing` | `CategoryView.LoadOnce`, `CategoryView.CategoryShown`, `CategoryView.CategoryCache.LoadResourcesForCategoryOnce`, `CategoryView.CategoryCache.ShowCategory`, `CategoryView.RevisitShowsCategory`, `CategoryView.RunFaithful` |
| js/resources-loader.js:30-37 with js/resources-loader.js:104-106 | removing the `# ` title line can leave the first chunk blank, and a chunk without a non-blank line throws when its title line is read; the loader's catch then drops the whole category | a document `# Machine Learning`, an empty line, then `## Beginner` with resource lines: the first chunk becomes a line break, the reader throws, and the category loads no records | a chunk without a title line is skipped and the other chunks are read | medium (not executed) | `ResourcesLoader.TitleOnlyFirstChunk` | `ResourcesLoader.IntendedMarkdownResources`, `ResourcesLoader.TitleOnlyFirstChunkIntended`, `ResourcesLoader.IntendedAgreesWhenRead` |
