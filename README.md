# Artisan card worker — a Dafny model

The repository serves a static site of artisan profile cards from Cloudflare Pages. Its
advanced-mode worker, `_worker.js`, sends every request to the static-asset binding except
requests for `…/card.html?id=…`. For those it does four things:

- It fetches the page and `/artisans.json` together.
- It looks up the first artisan whose `id` equals the requested one.
- It derives Open Graph strings from that record.
- It registers handlers with an `HTMLRewriter` to rewrite the page's `<title>` and its
  `og:*` and `description` `<meta>` tags before returning it. The title handler as written
  hides its own text callback (see Findings). Depending on how the runtime treats such a
  handler, the request either throws or returns the page with only the `<meta>` tags
  rewritten.

This project models that core and proves properties of it:

- `strings.dfy` (`Strings`): the string operations the tagline goes through, with
  JavaScript semantics:
  - `split(/[，,]/)`;
  - `trim`, with the ECMAScript white-space and line-terminator set;
  - `join`.
- `tagline.dfy` (`Tagline`): the tagline normalisation
  `split → map(trim) → filter(Boolean) → join('，')`.
- `artisans.dfy` (`Options`, `Artisans`): the records of `artisans.json`, with each
  property missing, `null` or a string, and the `find` by strict id equality.
- `fields.dfy` (`CardFields`): `ogTitle`, `ogDesc`, `ogImage` and `ogUrl`, including
  template-literal interpolation of missing properties and `avatar || ''`.
- `handlers.dfy` (`Handlers`):
  - the two handler classes, `TitleRewriter` with its `done` flag and `ContentRewriter`;
  - the chunk and element objects they call;
  - the functions on values that specify them.
- `rewrite.dfy` (`Rewrite`): the six `.on(selector, handler)` registrations as a table of
  data, and a single-pass model of applying them to a document, seen as its elements in
  order. In this model each registration keeps its own handler state from one element to
  the next.
- `worker.dfy` (`Worker`): the routing test and the `handleCard` decision procedure. Given
  the two fetched responses, the page is passed through, rewritten, or the request fails
  with an exception.
- `shadowing.dfy` (`Shadowing`): JavaScript property lookup on a `TitleRewriter` instance
  (see Findings). The worker's title rewrite is modelled as the handler evidently intends
  (`Worker.HandleCard`, `Worker.Fetch`). The code as written is modelled under both
  readings of the runtime (`Worker.HandleCardAsWritten`, `Worker.FetchAsWritten`).

Three behaviours of the code that differ from what a reader might assume:

- **Malformed data fails the request.** Data that is not JSON, or that has no `artisans`
  array, makes the request fail with an exception (`_worker.js:34-35` has no `try`). It is
  not treated as "not found".
- **Missing properties are not empty strings.** A missing `name`, `title` or `bio` is
  interpolated as the text `undefined` (`null` as `null`). Only a falsy `avatar` becomes
  the empty string. A tagline that is not a string makes `split` throw.
- **The title flag spans the whole page.** The `done` flag belongs to the one
  `TitleRewriter` created per request, not to each element. A second `<title>` element is
  therefore blanked entirely, not just the later chunks of the first one.

## Model

| member | source | states |
|---|---|---|
| Strings.Split | _worker.js:43 | `split(/[，,]/)` gives at least one part and no part contains either comma |
| Strings.IsSeparator | _worker.js:43 | a predicate with no contract of its own: the two characters of the class `[，,]`; `Split` and `Canonical` state what it means for the split |
| Strings.IsWhitespace | _worker.js:44 | a predicate with no contract of its own: the ECMAScript WhiteSpace and LineTerminator characters `trim` removes; `Trim`, `TrimDropsWhitespace` and `TrimEmptyIff` state its role |
| Strings.EndsWith | _worker.js:12 | a predicate with no contract of its own: `endsWith`, a suffix comparison; `Worker.RoutingExamples` pins its edge cases |
| Strings.Join | _worker.js:46 | a function with no contract of its own: `join` with a separator between consecutive parts; `SplitJoin`, `JoinSplit` and `JoinAvoids` state its properties |
| Strings.Canonical | _worker.js:43-46 | same length as the input, each ASCII or fullwidth comma replaced by `，` and every other character kept |
| Strings.SplitJoin | _worker.js:43-46 | splitting the `，`-join of comma-free parts gives the parts back |
| Strings.JoinSplit | _worker.js:43-46 | joining the split of any string with `，` is the string with every comma made fullwidth |
| Strings.SplitPrefix | _worker.js:43 | a comma-free prefix followed by a comma becomes its own part ahead of the split of the rest |
| Strings.SplitNoSeparator | _worker.js:43 | a string without commas splits into itself alone |
| Strings.JoinAvoids | _worker.js:46 | a character in neither the parts nor the separator is not in the join |
| Strings.Trim | _worker.js:44 | `trim` returns a string that neither starts nor ends with white space |
| Strings.LeadingWhitespaceRun | _worker.js:44 | the characters `trim` drops at the front are all white space, and the next one is not |
| Strings.TrailingWhitespaceRun | _worker.js:44 | the characters `trim` drops at the end are all white space, and the one before them is not |
| Strings.TrimIsSlice | _worker.js:44 | `trim` keeps a contiguous slice of its input, starting after the leading white space |
| Strings.TrimDropsWhitespace | _worker.js:44 | everything `trim` removes, on either side, is white space |
| Strings.TrimEmptyIff | _worker.js:44-45 | `trim` gives the empty string exactly when the input is all white space |
| Strings.TrimOfTrimmed | _worker.js:44 | `trim` leaves a string with no outer white space unchanged |
| Strings.TrimKeepsNoSeparator | _worker.js:43-44 | trimming a comma-free part leaves it comma-free |
| Tagline.TrimAll | _worker.js:44 | `map(s => s.trim())` trims each part in place and keeps the count |
| Tagline.DropEmpty | _worker.js:45 | `filter(Boolean)` keeps only non-empty parts, every non-empty part survives, nothing is dropped when none is empty, and everything is dropped when all are |
| Tagline.DropEmptySingleton | _worker.js:45 | one part is kept exactly when it is not empty |
| Tagline.DropEmptyAppend | _worker.js:45 | filtering a concatenation is the concatenation of the filtered halves, so, with `DropEmptySingleton`, the result is the non-empty parts in their order and with their multiplicity |
| Tagline.Pieces | _worker.js:42-45 | every phrase left after split, trim and filter is non-empty, has no outer white space and holds no comma |
| Tagline.Normalize | _worker.js:42-46 | a function with no contract of its own: the phrases joined with `，`; `NormalizeHasNoAsciiComma`, `NormalizeIdempotent`, `NormalizeBlank` and `PiecesFromSplit` state its properties |
| Tagline.NormalizeHasNoAsciiComma | _worker.js:42-46 | the normalised tagline contains no ASCII comma |
| Tagline.NormalizeIdempotent | _worker.js:42-46 | normalising a normalised tagline changes nothing, and its phrases are the original's |
| Tagline.NormalizeBlank | _worker.js:42-46 | a tagline of only commas and white space normalises to the empty string |
| Tagline.PiecesFromSplit | _worker.js:42-46 | when every split part trims to a non-empty phrase, the result is those phrases joined with `，` |
| Tagline.NormalizeAsciiShape | _worker.js:42-46 | `a, b ,c` normalises to `a，b，c` for any non-comma, non-space characters |
| Tagline.NormalizeFullwidthShape | _worker.js:42-46 | `a，b， c` normalises to `a，b，c` for any non-comma, non-space characters |
| Tagline.NormalizeExamples | _worker.js:42-46 | `"a, b ,c"` and `"a，b， c"` both normalise to `"a，b，c"` |
| Tagline.NormalizePair | _worker.js:42-46 | two phrases written `x, y` normalise to `x，y` |
| Artisans.FindIndex | _worker.js:35 | `find` stops at the first record whose id is strictly equal to the requested one, and finds nothing exactly when no record has it |
| Artisans.Find | _worker.js:35 | `find(…)`, or `null` when nothing is found, gives a record of the list that has the id, and nothing exactly when no record has it |
| Artisans.FindIsFirstMatch | _worker.js:35 | a record is found exactly when some record has the id, and it is the first such record |
| Artisans.FindStep | _worker.js:35 | the search returns the head when it has the id, and otherwise searches the rest |
| Artisans.FindAppend | _worker.js:35 | records after the first match are never consulted |
| CardFields.Derive | _worker.js:42-51 | fields exist exactly when the tagline is a string, and `ogUrl` is the request URL |
| CardFields.Interpolate | _worker.js:48-49 | a function with no contract of its own: `${…}` of a property, `undefined` and `null` spelled out; `MissingProperties` and `DeriveFromStrings` state its use |
| CardFields.OrEmpty | _worker.js:50 | a function with no contract of its own: the avatar when it is a non-empty string, `''` otherwise; `MissingProperties` and `Worker.RewrittenPageFields` state its use |
| CardFields.DeriveFromStrings | _worker.js:48-51 | for string properties: the name and title around a vertical bar, the normalised tagline and bio around an em dash, the avatar, and the URL |
| CardFields.DescriptionTaglineHasNoAsciiComma | _worker.js:42-49 | the description is comma-free up to the `" — "` that precedes the bio |
| CardFields.MissingProperties | _worker.js:48-50 | a missing avatar gives an empty image, while a missing name gives a title that starts with `undefined` |
| CardFields.TwoPhraseTagline | _worker.js:42-51 | a record with tagline `x, y` gets the name and title around a vertical bar as its title, and description `x，y — bio` |
| Handlers.TitleStep | _worker.js:70-77 | after a chunk the flag is set, and the chunk becomes the text exactly when the flag was clear (or the text is empty) |
| Handlers.TitleFold | _worker.js:70-77 | one output per chunk; `TitleFoldClosedForm`, `TitleFoldEmitsOnce`, `TitleFoldAppend` and `TitleFoldStable` state what the outputs are |
| Handlers.TitleFoldClosedForm | _worker.js:70-77 | over a run of chunks, only the first chunk seen by a fresh handler gets the text and all others become empty |
| Handlers.TitleFoldEmitsOnce | _worker.js:70-77 | a fresh handler's output over one or more chunks concatenates to exactly the text |
| Handlers.TitleFoldAppend | _worker.js:70-77 | feeding two runs of chunks equals feeding their concatenation, with the flag carried between them |
| Handlers.TitleFoldStable | _worker.js:70-77 | the output depends only on the number of chunks |
| Handlers.SetContent | _worker.js:85-87 | `content` holds the value and every other attribute is kept |
| Handlers.SetContentOverwrites | _worker.js:85-87 | a later `content` write replaces an earlier one |
| Handlers.TextChunk.Replace | _worker.js:72 | `chunk.replace(s)` makes the chunk's content `s` |
| Handlers.ElementNode.SetAttribute | _worker.js:86 | `setAttribute` updates that one attribute of the element |
| Handlers.TitleRewriter.constructor | _worker.js:66-69 | a new handler holds the text with its flag clear |
| Handlers.TitleRewriter.Text | _worker.js:70-77 | one `text` call replaces the chunk and updates the flag as `TitleStep` says, and a set flag stays set |
| Handlers.ContentRewriter.Element | _worker.js:85-87 | the element's attributes become `SetContent` of the old ones |
| Handlers.ContentRewriter.constructor | _worker.js:82-84 | a new handler holds the content it is given |
| Handlers.FeedChunks | _worker.js:70-77 | a handler fed chunks one call at a time produces the fold's output, and its flag ends set exactly when it was set or there was a chunk |
| Rewrite.CardDirectives | _worker.js:54-60 | six registrations with distinct selectors, the text handler only on `title` |
| Rewrite.Bound | _worker.js:54-60 | a selector has a registration exactly when it appears in the table |
| Rewrite.Matches | _worker.js:55-60 | a predicate with no contract of its own: `tag` matches by tag name and `tag[attr="value"]` also needs the attribute to have exactly that value; `ContentPrecedence` states the consequence for `<meta>` |
| Rewrite.Act | _worker.js:65-88 | one handler call keeps the tag; a content handler changes only attributes and keeps its state, and a title handler changes only the text, one output per chunk, setting its flag when there is a chunk |
| Rewrite.CardTableBindings | _worker.js:54-60 | `title` and `og:title` get the title, both descriptions get the description, `og:image` the image, `og:url` the URL, and nothing else is bound |
| Rewrite.Dispatch | _worker.js:54-61 | running the matching handlers on an element keeps its tag and one flag per registration |
| Rewrite.Stream | _worker.js:54-61 | the single pass keeps the number of elements and every tag |
| Rewrite.Transform | _worker.js:54-61 | a fresh set of handlers over the page keeps its length and every tag; `TransformElement`, `TransformTitleOnce` and `TransformIdempotent` state the rest |
| Rewrite.DispatchCard | _worker.js:54-61 | the card table applied to one element gives the closed form, and only the title handler's flag changes |
| Rewrite.DispatchContents | _worker.js:56-60 | content registrations only write `content` and keep no state |
| Rewrite.StreamCard | _worker.js:54-61 | the pass with the card table is the closed form, element by element |
| Rewrite.TransformTitleOnce | _worker.js:55-77 | all `<title>` chunks form one stream for the one handler, so a page with any title text shows the card title exactly once |
| Rewrite.TransformElement | _worker.js:54-61 | for each element: the tag is kept, attributes other than `content` are kept, `content` gets the last matching registration's value or is untouched, and title text follows the fold |
| Rewrite.ContentPrecedence | _worker.js:56-60 | `name="description"` overrides a meta's `property` binding, and a meta is written exactly when it matches one of the five selectors |
| Rewrite.SetContentKeepsMatches | _worker.js:56-60 | writing `content` never changes which of the table's selectors an element matches, since none of them tests `content` |
| Rewrite.CardElementStable | _worker.js:54-61 | the card handlers applied to their own output change nothing |
| Rewrite.TransformIdempotent | _worker.js:54-61 | rewriting an already rewritten page for the same card gives the same page |
| Rewrite.DispatchContentCard | _worker.js:56-60 | the content registrations alone set each element's `content` as the full table does |
| Rewrite.StreamContentCard | _worker.js:56-61 | the pass with the content registrations alone changes only attributes, element by element |
| Rewrite.TransformWithoutTitle | _worker.js:54-61 | without a working title registration the page is the rewritten page with every element's text as it was, so the title text is unchanged |
| Rewrite.TitleChunksIgnoreAttrs | _worker.js:55 | the title text of a page depends only on tags and text |
| Worker.LookUp | _worker.js:32-36 | a data response that is not `ok` finds nothing, an exception happens exactly when an `ok` body is not an artisan array, and an `ok` artisan array gives exactly the first record with the id, or nothing when no record has it |
| Worker.HandleCard | _worker.js:21-61 | with the title handler as intended: an error page passes through as it is, and a rewritten page keeps its `ok` status and element count |
| Worker.Fetch | _worker.js:8-18 | non-card requests get the asset response unchanged |
| Worker.IsCardRequest | _worker.js:12 | a predicate with no contract of its own: the path ends with `/card.html` and `id` is present and non-empty; `RoutingExamples`, `Fetch` and `CardOutcomes` state its role |
| Worker.RoutingExamples | _worker.js:12 | a sub-directory `card.html` is a card, while `/mycard.html`, `/card.html/` and a missing or empty `id` are not |
| Worker.CardOutcomes | _worker.js:21-61 | every card outcome, both directions: passthrough, exception or rewrite, with the rewrite built from the first matching record |
| Worker.ErrorPagePassesThrough | _worker.js:30 | a page response that is not `ok` is returned as it is, whatever the data |
| Worker.DataErrorIsNotFound | _worker.js:33-39 | a data response that is not `ok` behaves like an empty artisan list, so the page passes through |
| Worker.MalformedDataThrows | _worker.js:34-35 | data that is not JSON, or has no `artisans` array, makes the request fail |
| Worker.LaterRecordsIgnored | _worker.js:35 | records after the first one with the id never change the reply |
| Worker.RewrittenPageFields | _worker.js:50-60 | on the rewritten page `og:url` carries the full request URL and `og:image` the avatar or `""`, and unmatched elements are unchanged |
| Worker.RewrittenPageTitle | _worker.js:48-55 | with the title handler as intended, the rewritten page's title text reads the name and title around a vertical bar, once |
| Worker.HandleCardAsWritten | _worker.js:21-78 | as written, a request that the intended handler would not rewrite gets the same reply; one it would rewrite throws when the runtime refuses the title handler, and is otherwise rewritten |
| Worker.FetchAsWritten | _worker.js:8-18 | as written, non-card requests get the asset response unchanged |
| Worker.AsWrittenOutcomes | _worker.js:21-78 | as written, nothing changes off the rewrite path; on it the request throws under one reading, and under the other it returns the rewritten page with every element's text as the asset had it, so the title is untouched |
| Shadowing.Get | _worker.js:65-70 | an own property is found before the prototype's member of the same name |
| Shadowing.AsWrittenTextIsNotCallable | _worker.js:67-70 | as written, a handler's `text` is the stored string and not the chunk callback |
| Shadowing.CorrectedTextIsCallable | _worker.js:66-77 | with the text stored under any name other than `text` or `done`, `text` is the callback again and the state is intact |
| Shadowing.NewTitleRewriter | _worker.js:66-69 | a new instance holds the text under the chosen name and a clear flag, over the class prototype |
| Shadowing.OwnPropertyHides | _worker.js:67-70 | any own property that is not a method hides the prototype method of that name |

## Left out

- The `HTMLRewriter` engine is not modelled: tokenising, the general CSS selector engine,
  streaming and the element-content handlers' `remove`, `before` and `after`. A document
  is modelled as its elements in order, each with its tag, its attributes and the text
  chunks the runtime delivers. Only the two selector forms the worker registers are
  matched: `tag` and `tag[attr="value"]`.
- Escaping is not modelled. `chunk.replace(s)` and `el.setAttribute('content', v)` write
  their strings HTML-escaped, and that escaping belongs to the runtime's serialiser. Every
  statement here about titles and attribute values is about text, not bytes.
- How the runtime splits text into chunks is not modelled. The chunks of each element are
  an input.
- What the runtime does with a handler whose `text` member is not a function is outside
  the model. Both plausible readings are modelled instead: it refuses the handler, or it
  skips the text callback (`Worker.TextMemberReading`). See Findings.
- A markup processing failure of the transform is not modelled.
- The `env.ASSETS.fetch` calls, `Promise.all` and their concurrency become two
  parameters: the page response and the data response, both already complete. A rejected
  fetch, which makes `Promise.all` reject, is not modelled.
- `new URL(...)` and `searchParams` parsing are left out. A request is its `href`, its
  `pathname` and the first `id` parameter. The data URL `/artisans.json` is fixed by
  the code and is represented only by the data-response parameter.
- JSON parsing is left out. The parsed data is a parse failure, an object without an
  `artisans` array, or an array of records.
- JSON values other than missing, `null` or a string are not modelled for a record's
  properties. Neither are array entries that are not objects.
- Response headers, status codes other than the `ok` flag, and bodies other than the
  document are not modelled.
- `linktree/assets/script.js` is client-side DOM code and is not part of this model.
- Tagline.DropEmpty: the contract states which parts are kept, but not their order or
  multiplicity. Both are stated by `DropEmptyAppend` with `DropEmptySingleton`.
- Handlers.TitleRewriter.Text: models the method's intended behaviour. As written, the
  instance property `text` hides this method (see Findings). The request then throws or
  the title is left as it was; `Worker.AsWrittenOutcomes` states both.
- Worker.HandleCard: describes `handleCard` with the title handler corrected. The code as
  written is `Worker.HandleCardAsWritten`, which throws or leaves the title as it was.
- Worker.Fetch: describes the worker with the title handler corrected; as written it is
  `Worker.FetchAsWritten`.
- Worker.CardOutcomes: describes the worker with the title handler corrected. As written,
  the rewrite case instead throws or leaves the title as it was (`Worker.AsWrittenOutcomes`).
- Worker.RewrittenPageTitle: describes the corrected title handler. As written the title
  is never rewritten: the request throws or the title text stays as the asset had it.
- Worker.RewrittenPageFields: describes the corrected program. As written, the same
  `<meta>` values are written under one reading of the runtime, and under the other the
  request throws before any is written.
- Rewrite.TransformTitleOnce: describes the corrected title handler. As written, the title
  registration does nothing or is refused (`Rewrite.TransformWithoutTitle`).

## Findings

| source | as written | input that shows it | evidently intended | confidence | as-written member | corrected member |
|---|---|---|---|---|---|---|
| _worker.js:67-70 | the constructor assigns `this.text = text`, an own property that hides the class's `text(chunk)` method, so the handler passed to `.on('title', …)` has a string where the chunk callback should be; a runtime that checks handler members then throws at `.on`, before any `<meta>` is rewritten, and one that skips the member returns the page with the `<meta>` tags rewritten and the `<title>` left as it was (`Worker.AsWrittenOutcomes`) | any card request that reaches the rewrite, e.g. `/card.html?id=42` with a record `42` whose tagline is a string | the `text(chunk)` callback runs for each `<title>` chunk; store the title under another name, e.g. `this.title` | not executed; the hiding is certain, its effect depends on how the runtime treats a non-function `text` member | Shadowing.AsWrittenTextIsNotCallable | Shadowing.CorrectedTextIsCallable |
