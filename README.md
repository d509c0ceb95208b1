# Live thread archiver: fetch-and-render engine

This project models the engine that two Node scripts share, and proves properties of it.

- `dumpUpdater.js` archives the whole update history of a reddit live thread as one HTML document.
- `makeStricken.js` writes a `sed` script that marks that thread's retracted updates in such an archive.

Both scripts page through the thread with the same `Fetcher.getNextPage`. It keeps a bounded retry countdown and a pagination cursor `lastName`. Both normalise each record with `makeUpdate` and write through the same `Writer`.

## What the model covers

- **Values** (`values.dfy`): the JavaScript values that reach the scripts, with their truthiness and the text a template literal makes of them.
- **Text** (`text.dfy`): `String.prototype.replace`.
  - With a global literal pattern it replaces every occurrence, scanning left to right.
  - With a string pattern it replaces only the first occurrence.
- **Sanitizer** (`sanitizer.dfy`):
  - `unescapeHtml`: five global replacements in a fixed order.
  - `escapeReddit`: rewrites root-relative links, with the negative lookahead `(?!\/)`.
- **Records** (`records.dfy`):
  - Parsed response bodies and raw records.
  - The update object `makeUpdate` builds. The name of its retraction flag is `striken` in `dumpUpdater.js` and `stricken` in `makeStricken.js`.
  - The errors the engine can throw.
- **Fetching** (`fetching.dfy`):
  - `requestJson` is an oracle `net`: `net(n)` is how the n-th request settles.
  - `FetchPage` is the declarative meaning of one `getNextPage` call.
  - The class `Fetcher` has the mutable cursor and the log of requested URLs. Its `GetNextPage` method runs the countdown loop and is proved equal to `FetchPage`.
- **Output** (`output.dfy`): `Writer`, an append-only sink.
  - `println(s)` appends `s + "\n"`.
  - `close()` ends the stream unless it is standard output.
- **Pages** (`pages.dfy`): the pagination loop both scripts share, `while (true) { updates = await getNextPage(); if (!updates.length) break; … }`.
  - Its input is the sequence of successive `getNextPage` results.
  - The loop stops at the first page that is empty or thrown.
- **DumpUpdater** (`dumpupdater.dfy`): the document renderer.
  - The head template, with `TAG_DICT`'s terse names. The `<header>`, `<aside>` and `<updates>` lines.
  - One line per update, built by the body pipeline: unescape, two passes of `>\n`→`>`, link rewrite, then removal of the first `div class="md"`.
  - The footer. The functions `HeaderRun`, `BodyRun` and `DocumentRun` say what is written; the methods that write it are proved against them.
- **MakeStricken** (`makestricken.dfy`): the patch renderer.
  - The `sed` preamble, then one `-e` line per retracted update in fetch order, then the target path.
  - The counter `num`.

Three behaviours of the code are worth stating outright:
- `getNextPage` issues at most 9 requests. The countdown starts at 10 and is decremented before each request. Nine retryable failures in a row throw 'Unable to retrieve data!' (`ExhaustedIffNineRetryable`). Eight failures followed by a response still deliver the page (`EighthRetrySucceeds`).
- The `>\n` cleanup of an update body runs exactly twice, so a third newline after a tag survives (`ThirdNewlineSurvives`).
- The five entity replacements of `unescapeHtml` depend on their order: `&amp;quot;` comes out as a bare quote (`EscapedQuotUnescapedTwice`).

In `dumpUpdater.js` the retraction marker is never emitted:
- `makeUpdate` copies `striken`, a key the records do not carry.
- The renderer tests `stroken`, a property no update has.

This is modelled as written (`NeverStriken`, `DumpUpdateDropsStricken`).

## Model

| member | source | states |
|---|---|---|
| Values.NatToDecimal | dumpUpdater.js:241 | An integer is displayed as its decimal digits: the digits read back as the number, with no leading zero, one digit long exactly for values below ten |
| Values.Display | dumpUpdater.js:240-241 | `${v}` of a number is its exact decimal digits, which read back as the number, after a `-` for a negative one and without a leading zero |
| Text.IndexOf | dumpUpdater.js:248 | `indexOf` answers -1 or an index at which the whole pattern fits in the string |
| Text.IndexOfFindsFirst | dumpUpdater.js:248 | `indexOf` answers -1 exactly when the pattern is absent, and otherwise the first index where it occurs |
| Text.ReplaceFirstFirstOnly | dumpUpdater.js:248 | A string-pattern `replace` keeps text without the pattern, and otherwise replaces the first occurrence only and keeps everything around it |
| Text.ReplaceAllAbsent | dumpUpdater.js:177-178 | A global replace changes nothing when the pattern does not occur |
| Text.ReplaceAllShrinks | dumpUpdater.js:177-178 | A global replace with a replacement no longer than the pattern never lengthens the text |
| Sanitizer.UnescapeHtmlShrinks | dumpUpdater.js:176-179 | `unescapeHtml` never lengthens its input |
| Sanitizer.UnescapeHtmlWithoutAmpersand | dumpUpdater.js:176-179 | `unescapeHtml` is the identity on text without `&` |
| Sanitizer.EscapedLtUnescapedOnce | dumpUpdater.js:177-178 | `&amp;lt;` comes out as `&lt;`, because `&lt;` is replaced before `&amp;` |
| Sanitizer.EscapedQuotUnescapedTwice | dumpUpdater.js:177-178 | `&amp;quot;` comes out as a bare quote, because `&quot;` is replaced after `&amp;`, so the replacements are not order-independent |
| Sanitizer.EscapeRedditKeeps | dumpUpdater.js:180-183 | Text with no `href="/` that is not followed by `/` (including one at the end of the text) is left unchanged, e.g. `href="//…` and absolute links |
| Sanitizer.EscapeRedditLeavesNoRootHref | dumpUpdater.js:181 | After `escapeReddit` no root-relative `href="/` remains |
| Sanitizer.EscapeRedditIdempotent | dumpUpdater.js:180-183 | Applying `escapeReddit` twice equals applying it once |
| Records.MakeUpdateProjects | dumpUpdater.js:167-174 | `makeUpdate` maps `created_utc` to `timestamp` and `body_html` to `body`, copies `author`, the flag and `id`, and has no other property |
| Records.DumpUpdateDropsStricken | dumpUpdater.js:171-173 | dumpUpdater's updates never carry the record's `stricken` flag and have no `stroken` property; makeStricken's updates carry `stricken` |
| Fetching.Attempts | dumpUpdater.js:106-118 | One call issues between 1 and 9 requests; all but the last failed with a retryable error, and the last is not retryable unless the countdown ran out |
| Fetching.MapUpdates | dumpUpdater.js:121-124 | The children map to updates exactly when every child's kind is 'LiveUpdate'; then the updates are the children's, normalised, in order; otherwise the error is the invalid-kind TypeError |
| Fetching.ReadPage | dumpUpdater.js:120-127 | A falsy body throws 'Empty JSON!'; an error or an empty page leaves the cursor; a non-empty page moves it to the last child's `data.name` |
| Fetching.FetchPage | dumpUpdater.js:105-128 | One call issues 1 to 9 requests, and the cursor changes only when a non-empty page is returned |
| Fetching.Fetcher.constructor | dumpUpdater.js:74-78 | The URL base is the thread's `.json` endpoint and the cursor starts as `''` |
| Fetching.Fetcher.RequestJson | dumpUpdater.js:130-164 | One request for `urlBase + queryString`, logged, settling as the oracle says |
| Fetching.Fetcher.GetNextPage | dumpUpdater.js:105-128 | The countdown loop returns FetchPage's result and cursor, and requests the same URL (the old cursor's) once per attempt |
| Fetching.Fetcher.ReadJson | dumpUpdater.js:120-127 | The result and new cursor are ReadPage's |
| Fetching.SettledAfter | dumpUpdater.js:108-118 | After m-1 retryable errors and one outcome that is not retried, the call issued m requests: a rejection is rethrown, a response is read as a page |
| Fetching.ExhaustedAfterMaxRequests | dumpUpdater.js:106-110 | Nine retryable errors in a row throw 'Unable to retrieve data!' after 9 requests, with the cursor unchanged |
| Fetching.ExhaustedIffNineRetryable | dumpUpdater.js:106-117 | 'Unable to retrieve data!' is thrown exactly when the nine requests all fail with a retryable error |
| Fetching.OkComesFromListing | dumpUpdater.js:120-127 | A returned page comes from a listing whose children are all 'LiveUpdate'; its updates are the children's in order, and a non-empty page moves the cursor to the last child's `data.name` |
| Fetching.RethrownWithoutRetry | dumpUpdater.js:114-116 | An error without a truthy `statusCode` on the first request is rethrown after that single request |
| Fetching.EighthRetrySucceeds | dumpUpdater.js:106-113 | Eight retryable errors followed by a response deliver that response's page after 9 requests |
| Output.Writer.constructor | dumpUpdater.js:49-59 | The stream is standard output exactly when no truthy output path is given; nothing is written yet |
| Output.Writer.Println | dumpUpdater.js:64-67 | `println(s)` appends `s` and a newline |
| Output.Writer.Close | dumpUpdater.js:68-71 | `close()` ends a file stream and leaves standard output open |
| Pages.StopIndex | dumpUpdater.js:235-237 | The loop stops at the first page that is thrown or empty |
| Pages.FetchedMembership | dumpUpdater.js:235-238 | An update is seen by the loop exactly when it is on a page before the stop |
| Pages.EmptyFirstPage | dumpUpdater.js:235-237 | An empty first page ends the loop with no update seen |
| DumpUpdater.RenderRecords | dumpUpdater.js:238-250 | One line per update in fetch order, until an update whose body is not a string throws, after which nothing more is written |
| DumpUpdater.DumpUpdates | dumpUpdater.js:211-261 | The document written is DocumentRun's, the error is DocumentRun's, and the file stream is ended whatever happened |
| DumpUpdater.WriteDocument | dumpUpdater.js:212-256 | The `try` block writes the header, then the loop and footer, stopping at the first error |
| DumpUpdater.WriteHeader | dumpUpdater.js:213-234 | The head, banner, aside and `<updates>` lines, stopping where a non-string description or resources block throws |
| DumpUpdater.WriteBody | dumpUpdater.js:235-256 | The pagination loop writes the record lines of all fetched updates, then the footer if the loop ended on an empty page |
| DumpUpdater.WriteRecords | dumpUpdater.js:238-250 | The loop over one page extends the record lines, and reports whether every body on it rendered |
| DumpUpdater.WriteRecord | dumpUpdater.js:239-249 | One update with a string body adds its line |
| DumpUpdater.NeverStriken | dumpUpdater.js:239-243 | Every update gets exactly the id, timestamp and author attributes, each with its displayed value, never `striken="true"`, and a falsy author renders as `auth=""` |
| DumpUpdater.ThirdNewlineSurvives | dumpUpdater.js:246 | Only two newline passes run: of three newlines after `>`, one is left |
| DumpUpdater.FooterOnlyOnSuccess | dumpUpdater.js:253-261 | On success the last line is the footer; after an error no line is the footer |
| DumpUpdater.NoUpdatesDocument | dumpUpdater.js:213-256 | With no update the document is the four header lines, ending in an empty `<updates>` opening, and the footer |
| DumpUpdater.BodyCompleteIff | dumpUpdater.js:235-256 | The loop completes exactly when every fetched body is a string and the loop ended on an empty page |
| DumpUpdater.BodyLines | dumpUpdater.js:238-256 | A complete loop writes exactly one line per fetched update in fetch order, then the footer |
| DumpUpdater.CompleteDocument | dumpUpdater.js:212-256 | The document completes exactly when the description and resources are strings and the loop completes; it is then the four header lines followed by the body |
| MakeStricken.MakeStrickenScript | makeStricken.js:207-233 | The script written is ScriptRun's; `num` counts the retracted updates seen; the file stream is ended whatever happened |
| MakeStricken.WriteScript | makeStricken.js:213-227 | The `try` block writes the preamble, the `-e` lines and the target path, and returns the count and the error |
| MakeStricken.WriteStrikes | makeStricken.js:218-224 | The loop over one page adds one `-e` line per retracted update and counts it |
| MakeStricken.CountMatchesLines | makeStricken.js:209-223 | `num` equals the number of retracted updates and the number of `-e` lines |
| MakeStricken.StrikeLinesMembership | makeStricken.js:218-224 | A line is an `-e` line exactly when it is the command of a retracted update |
| MakeStricken.StrikeLinesAppend | makeStricken.js:215-226 | The `-e` lines of later pages follow those of earlier pages |
| MakeStricken.CountGrows | makeStricken.js:220-223 | `num` never decreases |
| MakeStricken.ScriptShape | makeStricken.js:213-228 | The preamble comes first, then the `-e` lines; the target path follows exactly when the loop ended on an empty page; otherwise the error is returned |
| MakeStricken.ThreeUpdatesExample | makeStricken.js:215-227 | Updates a1, a2, a3 with the flag true, false, true give the lines for a1 and a3, then the path, and a count of 2 |

## Left out

- HTTP transport (`http.request`, response events, promises). `requestJson` is an oracle of outcomes. A rejection carries the HTTP status for responses of 400 or more, 10 for a timeout, and nothing otherwise.
- JSON parsing. A parsed body is a datatype: falsy, a truthy value without a children array, or a listing.
- `getInfo`, and the unhandled rejection when it fails (dumpUpdater.js:208, outside the `try`). `DumpUpdates` takes the thread information as a parameter, so its `Writer` exists only once that information is known. makeStricken.js also calls `getInfo` (makeStricken.js:208) but never reads the result; that call is left out, and `MakeStrickenScript` has no such parameter.
- A `info.data` that is not an object. `ThreadInfo` holds the three properties read from it.
- A child without a `data` object: `makeUpdate`'s destructuring would throw. A child's data is a map from keys to values.
- Command-line handling, the usage text and the TTY check (lines 8-35). The filesystem work in `Writer`'s constructor: the symlink check, `unlinkSync` and stream creation.
- Output.Writer.constructor: the modelled runs assume either no output path or one that already exists. For a path that does not exist yet, `fs.lstatSync` (line 53) throws before the `try` (dumpUpdater.js:212, makeStricken.js:213). Nothing is then written and the script ends in an unhandled rejection; `DumpUpdates` and `MakeStrickenScript` do not model that run.
- stderr logging and the progress dots.
- `Writer.print`, which neither renderer calls.
- `dumpedUpdates.js`, the browser-side script that reads the archive. It is DOM work, not part of the engine.
- Numbers that are not integers. `Display` covers integers only, so fractional timestamps are not modelled.
- Values.Display: JavaScript numbers are doubles. Beyond 2^53 in magnitude, `${n}` prints the shortest digits that read back as the same double, e.g. `${2**60}` is `1152921504606847000`. From 10^21 on it uses exponent form, e.g. `1e+21`. A `Num` holds only integers up to 2^53 in magnitude (`ExactInt`), where the exact digits are what JavaScript prints. Larger numbers in `ts`, `id`, the title or the cursor are not modelled.
- Values.NatToDecimal: the same bound; it states the exact digits, which is what `${n}` prints only up to 2^53.
- DumpUpdater.DumpUpdates: covers only runs whose pages reach a stop, an empty or thrown page (`requires HasStop(pages)`). The loop at dumpUpdater.js:235 has no bound, and nothing in the source guarantees such a page. For example, a last child without `data.name` sets the cursor to `undefined`, and the next query is `?after=undefined&limit=100`. A run that never stops, writing forever, is not modelled.
- MakeStricken.MakeStrickenScript: the same assumption about the loop at makeStricken.js:215. A run with no empty or thrown page is not modelled.
- Fetching.Fetcher.RequestJson: states only that the outcome is the oracle's next one; what the server answers for a URL is outside the model.
