# ChatGPT network monitoring: stream decoding and extraction

The extension hooks the ChatGPT web client's network calls and turns the
server-sent event streams of a conversation, and of a product lookup, into
structured records. This project models the engine that does the turning,
and proves properties of it:

- `parseSSEtoJSON` (page-hook.js) splits the raw stream into blank-line
  separated blocks. For each block it keeps the last `event:` line and the
  last `data:` line. A data value is stored as its JSON value, or as the raw
  text when it is not JSON. Blocks with neither field are dropped.
- `extractConversationData` (page-hook.js) folds those events into a
  conversation record:
  - first-write fields (conversation id, user prompt);
  - last-write fields (title, model, request id, turn exchange id);
  - search queries, sources and recommended products;
  - news articles from four shapes of search result groups;
  - the raw assistant response, from flat or batched `append` patches;
  - finally, de-duplication of products by name and of sources and articles
    by URL.
- `extractProductData` (page-hook.js) folds the events of a product lookup
  into a product record. It keeps two cursors:
  - the current rationale, which receives `/rationale` and
    `/grouped_citation` patches;
  - the current review block, which receives `/summary` patches.
  Reviews come from `/reviews` appends and from citation references.
  `summary_text` is the trimmed rationales joined by spaces.
- `parseStreamToJSON` (utilites.js) is the fallback extractor. It reads the
  raw text with regular expressions only:
  - the query: the first `"parts":["…"]`;
  - the response text: every `"o":"append","v":"…"`, joined and unescaped;
  - products: scanned inside the `"products":[ … ],"target_product_count"`
    section;
  - sources: scanned inside the `"sources":[ … ],"has_images"` section.

The model is organised as follows:

- `Js` holds the JavaScript semantics the code relies on:
  - values as `JSON.parse` yields them, plus `undefined`, with truthiness;
  - `?.`, `||` and `for...of`;
  - `+` on strings;
  - the TypeError of a property read on `null` or `undefined`.
  A computation that may throw returns `Res<T>`. `ForOfPush` is the
  `for...of` / `push` loop, proved against `FlatMapRes`.
- The pass over the whole event list is imperative in the source. It is
  modelled by methods with loops (`ParseSSEtoJSON`, `ScanUserPrompt`,
  `ExtractConversationData`, `ExtractProductData`, `ExecAll`, …). Each is
  proved equal to a specification function, and the properties are lemmas
  about those functions.
- `Scan` models global regular-expression matching (`exec` with
  `lastIndex`, `matchAll`) over a pattern tried at one position. It proves
  that the matches found are leftmost and non-overlapping.

The code throws on some inputs. Examples:
- a `for...of` over the `entries` of an added group that is an array: its
  `entries` is the array method `Array.prototype.entries`, which is truthy
  and not iterable;
- `includes` on a path that is neither a string nor an array;
- `trim` on a rationale text that is not a string;
- a property read on a `null` patch.

The model follows the code: such inputs give `TypeError`. The caller,
page-hook.js:93-95, catches the error and drops the record. Likewise, a
block without `event:` or `data:` lines is dropped as the code does, not
kept as an empty event.

## Model

| member | source | states |
|---|---|---|
| Js.Prop | page-hook.js:560-561 | reading a key of `null`/`undefined` gives `undefined`; an object answers with its own property or `undefined`; an array answers exactly the names of array methods with a method value, so `group.entries` on an array group is truthy |
| Js.ForOfPush | page-hook.js:463-477 | the `for...of` loop that pushes each element's records equals the left fold `FlatMapRes`, stopping at the first throw |
| Js.FlatMapResThrows | page-hook.js:436-453 | once an element has thrown, the whole loop has thrown |
| Js.FlatMapResAppend | page-hook.js:405-411 | looping over `xs + ys` pushes the records of `xs`, then those of `ys` |
| Js.FlatMapResOk | page-hook.js:664-675 | the push loop completes exactly when no element throws |
| Js.FlatMapResMap | page-hook.js:664-675 | when each element that does not throw pushes one record, the completed loop pushes exactly one record per element, in order |
| Sse.SplitLines | page-hook.js:307 | `split("\n")` gives at least one piece, no piece holds a LF, and joining the pieces with LF restores the text |
| Sse.SplitBlocks | page-hook.js:302 | `split(/\n\n+/)` gives at least one block, and the first block starts where the text does (see the next two rows for the blocks themselves) |
| Sse.SplitBlocksBlocks | page-hook.js:302 | no block holds two consecutive LFs; every block after the first starts, and every block before the last ends, with something other than an LF; only the first and the last block can be empty; so each separator removed is a whole run of LFs |
| Sse.SplitBlocksRebuild | page-hook.js:302 | there are separators, one fewer than the blocks, each a run of LFs, such that putting them back between the blocks gives back the text |
| Sse.SplitBlocksNoBlank | page-hook.js:302 | a text without a blank line is a single block |
| Sse.MatchLine | page-hook.js:312 | a line matches exactly when it starts with `event:` or `data:` and the rest, without its leading white space, holds no line terminator; the value captured is that rest |
| Sse.ParseBlock | page-hook.js:307-329 | the line loop of one block yields the event object of its trimmed, LF-split lines |
| Sse.ParseSSEtoJSON | page-hook.js:300-338 | the block loop yields, in block order, the event of each block that has a field |
| Sse.EveryEventHasField | page-hook.js:331-334 | every output event has an `event` or a `data` field |
| Sse.BlockFieldsEmpty | page-hook.js:310-329 | a block's event object is empty exactly when none of its lines is an `event:` or `data:` line |
| Sse.BlockWithoutFieldLines | page-hook.js:331-334 | a block yields nothing exactly when none of its lines matches |
| Sse.WhiteSpaceOnlyInput | page-hook.js:302 | a text of white space only yields no events |
| Sse.LastEventLineWins | page-hook.js:317-318 | the `event` field is the value of the block's last `event:` line, or absent when there is none |
| Sse.LastDataLineWins | page-hook.js:319-326 | the `data` field is the decoded value of the block's last `data:` line; several `data:` lines are not joined |
| Sse.SplitBlocksAppend | page-hook.js:302 | splitting `a`, a blank line, `b` gives the blocks of `a` followed by those of `b` |
| Sse.EventsOfBlocksAppend | page-hook.js:306-335 | the events of two block lists in sequence are those of the first, then those of the second |
| Sse.BlocksInOrder | page-hook.js:300-338 | the events of two trimmed texts joined by a blank line are the events of the first, then those of the second |
| Sse.ParseSseTwoLines | page-hook.js:302-334 | a text of two lines with no blank line and no outer padding gives the event its two lines build, or nothing when neither sets a field |
| Sse.ParseSseDeltaEvent | page-hook.js:300-338 | the stream `event: delta`, LF, `data: x` gives one event labelled "delta" whose data is the decoded `x` |
| Dedup.FindIndex | page-hook.js:609 | `findIndex` gives the first index holding the key, or -1 when no element holds it |
| Dedup.FilterFirstIsSubsequence | page-hook.js:607-610 | the filter keeps, in their original order, exactly the elements that are the first to carry their key |
| Dedup.FirstIndicesSorted | page-hook.js:607-610 | the kept positions are increasing, and a position is kept exactly when its element is the first to carry its key |
| Dedup.DedupNoDuplicateKeys | page-hook.js:606-622 | no two kept elements share a key |
| Dedup.DedupKeepsFirstOccurrences | page-hook.js:606-622 | every key of the input survives on its first element, and nothing else is added |
| Dedup.DedupAppendCovered | page-hook.js:606-610 | appending elements whose keys already occur does not change the de-duplicated list |
| Dedup.DedupRepeat | page-hook.js:606-610 | de-duplicating n ≥ 1 copies of a list gives the same as de-duplicating it once |
| Conversation.FirstTruthyAt | page-hook.js:385-402 | the first event offering a truthy value sets the field, and later offers are ignored |
| Conversation.FirstTruthyNone | page-hook.js:368-390 | without a truthy offer the field stays "" |
| Conversation.LastTruthyAt | page-hook.js:413-429 | the last event offering a truthy value sets the field, overwriting earlier offers |
| Conversation.LastTruthyNone | page-hook.js:376-429 | without a truthy offer the metadata field stays "" |
| Conversation.ScanUserPrompt | page-hook.js:392-402 | the prompt loop, with its `break`, yields the first truthy prompt of a `delta` event whose author role is "user" |
| Conversation.ScanTitle | page-hook.js:413-418 | the title is the last truthy title of a `title_generation` event |
| Conversation.ScanMetadata | page-hook.js:420-429 | model, request id and turn exchange id are each the last truthy value, independently of one another |
| Conversation.SearchQueriesInOrder | page-hook.js:404-411 | queries are accumulated in event order: the queries of `a + b` are those of `a`, then those of `b` |
| Conversation.ScanSourcesAndProducts | page-hook.js:431-494 | the sources loop pushes the footnote sources of each event; the products loop nested inside it pushes all products again for every event |
| Conversation.NewsOfAppendedGroups | page-hook.js:516-552 | an `append` at the groups path is read twice, as an append and then as a `v` array |
| Conversation.AppendedGroupsPushedTwice | page-hook.js:516-552 | when every appended group is a non-empty `search_result_group`, each of its articles is pushed twice, in the same order |
| Conversation.AddedArrayGroupThrows | page-hook.js:559-562 | an added group that is an array has a truthy `entries` (the array method), so the inner `for...of` throws |
| Conversation.AddedArrayGroupStopsExtraction | page-hook.js:554-566 | an `add` patch at the groups path whose `v` holds an empty array makes the whole extraction throw, so the caller drops the record |
| Conversation.FlatAndBatchedAgree | page-hook.js:578-603 | one flat `append` event per part and one `patch` event batching the same appends both yield exactly those parts, in order |
| Conversation.ExtractConversationData | page-hook.js:367-625 | the scans, run in the order of the source, yield `ConversationOf(items)`, or TypeError when the source throws |
| Conversation.RawResponseOfEncodings | page-hook.js:578-604 | for all parts, both the flat and the batched encoding give a record (the extraction does not throw), whose raw response is the parts concatenated |
| Conversation.RawResponseABC | page-hook.js:578-604 | parts "A", "B", "C", flat or batched, give a record whose raw response is "ABC" |
| Conversation.ConversationOfOk | page-hook.js:367-625 | the extraction gives a record whenever the query, source, product, news and text scans of every event succeed |
| Conversation.NoDuplicateKeys | page-hook.js:606-622 | in the record, no two products share a name, and no two sources or articles share a URL |
| Conversation.ProductsOfOnePass | page-hook.js:456-494 | the products pushed once per event collapse to the de-duplicated products of a single pass |
| Product.RationaleAppend | page-hook.js:651-657 | throws exactly when there is a current rationale and the path is not a string; otherwise only the last rationale may change, and its text becomes the old text `+` the value on an `append` at a `/rationale` path and stays as it was otherwise |
| Product.SummaryAppend | page-hook.js:659-661 | throws exactly when there is a current review block and the path is not a string; otherwise only that block may change, and its summary becomes the old summary `+` the value on an `append` at a `/summary` path; every other patch changes nothing |
| Product.ReviewsAppend | page-hook.js:663-676 | throws exactly when an `append` of an array at `/reviews` holds a nullish element; otherwise the new state is the old one with one review per element pushed, in order, each built from that element, and nothing else changed |
| Product.CitationSet | page-hook.js:678-685 | throws exactly when there is a current rationale and the path is not a string; otherwise only the last rationale may change, and on a `/grouped_citation` path its group becomes the patched group |
| Product.CitedGroupStoresKey | page-hook.js:679-684 | a patch at `/grouped_citation/` + a non-empty key with a defined value stores the value under that key of the group (a fresh `{}` when the group was falsy) and keeps its other keys |
| Product.PatchStep | page-hook.js:646-686 | one patch pushes exactly the reviews of its `/reviews` append, keeps the rationale count and the cursor invariant, and keeps `reviewSummary` and `product_info` |
| Product.PatchStepEffect | page-hook.js:646-686 | one patch throws exactly when it is nullish, or a cursor is set and the path is not a string, or a `/reviews` append holds a nullish element; otherwise the cursor and the earlier rationales are kept, the last rationale gets the text append and the citation update the path asks for, and the review block gets the summary append |
| Product.PatchesStepReviews | page-hook.js:645-688 | the patches of one event push the reviews of their `/reviews` appends, patch by patch, in order |
| Product.ApplyPatches | page-hook.js:645-688 | the patch loop equals the fold of `PatchStep` over the patches |
| Product.PatchesThrow | page-hook.js:645-688 | once a patch has thrown, the event has thrown |
| Product.RationaleStart | page-hook.js:711-755 | a `product_rationale` event appends one rationale with the `\|\|` defaults and makes it current, pushes exactly its refs reviews and then its supporting-website reviews, and changes nothing else |
| Product.RefReviewOf | page-hook.js:720-740 | a ref throws exactly when it is nullish or its `supporting_websites` array holds a nullish site; otherwise it gives one review carrying one site per website, in order |
| Product.RationaleReviewsOf | page-hook.js:718-752 | when a rationale start succeeds it pushes one review per ref, in order, followed by one review per supporting website of the group, in order |
| Product.Step | page-hook.js:638-766 | one event keeps `currentRationale` pointing at the last rationale, or null when there is none, and pushes exactly the reviews that event contributes |
| Product.Run | page-hook.js:638-766 | after any prefix of the events the cursor invariant holds, and `reviews` is the concatenation of what each event contributes, in order |
| Product.ProductDataOf | page-hook.js:627-775 | the returned `reviews` are exactly those the events push, in event order, none dropped or de-duplicated |
| Product.TrimmedTexts | page-hook.js:769-771 | trimming succeeds exactly when every rationale text is a string, and yields the trimmed texts in order |
| Product.ApplyEntry | page-hook.js:638-766 | the loop body, with its `continue`s and its `if`/`else if` chain, equals `Step` |
| Product.RunThrows | page-hook.js:638-766 | once an event has thrown, the whole pass has thrown |
| Product.ExtractProductData | page-hook.js:627-775 | the whole function equals `ProductDataOf`, or TypeError when the source throws |
| Product.IrrelevantEventsIgnored | page-hook.js:639-643 | dropping non-`delta` events and events with a falsy `v` changes nothing |
| Product.OneRationalePerStart | page-hook.js:711-755 | `rationales` grows by exactly one per `product_rationale` event |
| Product.NoRationaleBeforeStart | page-hook.js:635-657 | before the first `product_rationale` event there are no rationales and no cursor, so `/rationale` appends are dropped |
| Product.RationaleAppendExtendsLast | page-hook.js:651-657 | once there is a rationale, a `/rationale` append extends the last one's text and leaves everything else alone |
| Product.ReviewsAppendOnly | page-hook.js:663-751 | `reviews` is append-only: what an earlier event pushed stays in place |
| Product.ReviewSummaryIsLatest | page-hook.js:757-765 | `reviewSummary` is the summary of the latest `product_reviews` event; `/summary` appends never reach it |
| Product.SummaryText | page-hook.js:768-772 | `summary_text` is present exactly when there are rationales, and is then their trimmed texts joined by single spaces |
| Scan.FirstFrom | utilites.js:67 | `exec` from `lastIndex` finds a match at its start, and no match starts between `lastIndex` and it |
| Scan.ExecAll | utilites.js:66-76 | the `exec`/`matchAll` loop pushes one record per match, found in turn, each search resuming at the end of the last match |
| Scan.AllFromLeftmost | utilites.js:67 | the matches are leftmost and non-overlapping: each matches at its start, they come in order, and none is skipped before, between or after them |
| Scan.AllFromSatisfy | utilites.js:66-76 | whatever every match of the pattern yields, every match the loop pushes yields too |
| Scan.FieldAt | utilites.js:64 | a quoted field captures a quote-free run, non-empty unless `[^"]*`, up to the closing quote; a digit field captures a maximal non-empty run of `[0-9]` or `[0-9.]`, and matches whenever the key is followed by such a character |
| Scan.FieldAtQuotedMatches | utilites.js:64 | a key, then a quote-free run (non-empty unless `[^"]*`), then a quote, is a match of the quoted field with that run as capture |
| Scan.FieldFrom | utilites.js:64 | a lazy `.*?` gap followed by a field puts the field at the first place where it matches |
| Scan.FieldFromNearest | utilites.js:64 | the nearest match of a field ends no later than any further one, so taking it never leaves the rest of the pattern less room |
| StreamText.QueryAt | utilites.js:15 | a query match is the text `"parts":["`, a non-empty quote-free capture, then `"]` |
| StreamText.QueryAtMatches | utilites.js:15 | `"parts":["`, a non-empty quote-free text, then `"]` is a query match capturing that text |
| StreamText.AppendAt | utilites.js:22 | an append match is the text `"o":"append","v":"`, a non-empty quote-free capture, then a quote |
| StreamText.AppendAtMatches | utilites.js:22 | that text with a non-empty quote-free value is an append match capturing the value |
| StreamText.ProductAt | utilites.js:63-64 | the product pattern at `i`: the title field at `i`, then each further field at its nearest match after the previous one; a match starts at `i` and ends inside the text |
| StreamText.ProductAtComplete | utilites.js:64 | when the six fields are found one after another, a product match starts there and ends no later than the last of them |
| StreamText.SourceAt | utilites.js:97-98 | a source match is exactly the three fields `"title":"…","url":"…","attribution":"…"` with non-empty quote-free captures |
| StreamText.SourceAtMatches | utilites.js:97-98 | those three fields with non-empty quote-free values are a source match with those captures |
| StreamText.Section | utilites.js:54-58 | a section is missing exactly when the opening marker is absent, or the closing marker does not follow its first occurrence; otherwise it is the shortest text after that occurrence that the closing marker follows |
| StreamText.QueryOf | utilites.js:14-18 | the query is "" exactly when no `"parts":["…"]` matches anywhere, and holds no quote |
| StreamText.QueryIsFirstParts | utilites.js:15-18 | a non-empty query is the capture of the leftmost match |
| StreamText.QueryIsLeftmost | utilites.js:15-18 | a query match with no match before it gives the query |
| StreamText.QueryOfParts | utilites.js:15-18 | the text `{"parts":["hi"]}` gives the query "hi" |
| StreamText.CollectResponseParts | utilites.js:21-26 | the `matchAll` loop collects the capture of every append match, in order |
| StreamText.ResponseTextHasNoQuote | utilites.js:28-34 | `response_text` never holds a double quote, and the final `\"` replacement never applies |
| StreamText.ResponsePartsQuoteFree | utilites.js:21-26 | no pushed `v` capture holds a double quote |
| StreamText.ExtractProducts | utilites.js:50-79 | `extractProducts` returns the record of each product match in the products section, in order, and nothing when the section is missing |
| StreamText.ExtractSources | utilites.js:86-110 | `extractSources` returns the record of each source match in the sources section, in order, and nothing when the section is missing |
| StreamText.ProductsWellFormed | utilites.js:63-76 | every product has quote-free texts, non-empty merchants, digit strings for rating and reviews, and a tag that is absent or non-empty |
| StreamText.ProductAtWellFormed | utilites.js:64 | each capture of a product match has the shape its field pattern allows: non-empty and quote-free texts, digit runs for rating and reviews |
| StreamText.SourcesWellFormed | utilites.js:97-106 | every source has a non-empty, quote-free title and attribution, and a quote-free url |
| StreamText.RupeePrice | utilites.js:70 | a price written as the escape `\u20b9` followed by plain text becomes the rupee sign `₹` followed by that text |
| StreamText.PlainTitleKept | utilites.js:69 | a title without escapes is kept as captured |
| StreamText.EscapedTitle | utilites.js:69 | a title whose escapes are `\u202f` and then `\u2011` comes out with a space and a hyphen in their places and the rest kept |
| StreamText.TrackingSuffixRemoved | utilites.js:104 | a url ending in `?utm_source=chatgpt.com`, with no `?` before it, loses that suffix |
| StreamText.ParseStreamToJSON | utilites.js:6-43 | the whole function returns the query, the unescaped response text, the products and the sources as specified above |

## Left out

- The fetch and XMLHttpRequest hooks, `processStreamAsync`, `sanitize`,
  `post` and the rest of page-hook.js are left out. They do I/O, timers and
  message passing. The model starts from the fully drained text.
- background.js and content.js are not part of this model. They relay
  messages and call the network.
- `JSON.parse` is a parameter (`Sse.JsonParser`), not modelled. It returns
  the parsed value, or None where it throws.
- `parseFloat` and `parseInt` in utilites.js:71-72 are left out. The
  product keeps the captured digit strings. Floating point is out of scope.
- A JavaScript number is kept as its `String(n)` text. Arithmetic is never
  performed.
- Js.Concat: `+=` is modelled as string concatenation, which is exact when
  either side is a string. Numeric addition of two non-string primitives is
  not modelled, because the texts appended at page-hook.js:656 and :660 are
  strings.
- Dedup.Dedup: `===` between objects or arrays is modelled as structural
  equality, not identity. The keys compared at page-hook.js:606-622
  (`p.title || ""`, `source.url`, `entry.url`) can be any JSON value, so two
  equal but distinct objects are one key in the model and two in the code.
  The two agree on strings, numbers, booleans and `null`.
- Js.SetProp: assigning a property on an array or on a method value is
  ignored. The model treats arrays as values without named properties.
- Js.Prop: a method value stands for an array method read by name. It is
  truthy, not iterable, has no properties, and is never called. Methods of
  strings, numbers, booleans and plain objects are not modelled, because no
  key the code reads names one.
- Js.Index0: `s[0]` is taken per Unicode character, not per UTF-16 code
  unit, so it differs from JavaScript on a string that starts outside the
  Basic Multilingual Plane. `Js.Chars` agrees with `for...of`, which
  iterates by code point.
- StreamText.ProductAt: the product pattern of utilites.js:64 is modelled
  as a sequential scanner rather than a regular-expression engine. Each
  field is placed at the first position after the previous field where it
  matches. `FieldFromNearest` proves the key step (the nearest match ends
  earliest). The claim that this equals the backtracking engine's first
  match is an argument, not a proof.
- Product: the `currentReview` cursor's `reviews` and `cite_map` and its
  appended `summary` are tracked, but no output field exposes them.
- The `currentRationale` object is shared by `rationales` and the cursor.
  It is modelled as an index into `rationales`, which always points at the
  last element (`Product.Valid`).
- The code throws on some inputs (see above). Those inputs are modelled as
  `TypeError`, which the caller at page-hook.js:93-95 catches by dropping
  the record; no default record is built for them.
