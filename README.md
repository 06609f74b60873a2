# Quran recitation player: verse sequencer, catalog, fallback chains and proxy

This project is a Dafny model of the logic in a browser-based player for Quran
recitations (`script.js`) and its small Node proxy (`server.js`). The rest of
those files is DOM, `fetch` and file glue. The model covers:

- **the chapter catalog**: the search/length/range/favorites filter, the
  verse-range normalisation, the four sort modes, the 12-per-page pagination,
  and the favorites list that `toggleFavorite` splices or pushes. These are
  pure functions plus a `CatalogState` class whose fields are the client's
  `state` fields that the handlers reassign;
- **the verses of an opened chapter**: the verse list built from the
  alquran.cloud reply, the Basmala (the verse 1:1 recitation) put in front
  of every chapter except 1 and 9, and the trim that hides the repeated
  Basmala from the displayed text of the first real verse, with its
  word-counting loop as a method;
- **the verse sequencer**: `playVerse`, `playNextVerse`, `playPrevVerse`, the
  play-full-chapter button and the `ended` handler. These are pure
  transitions on a `Playback` value plus a `VersePlayer` class whose methods
  are proved equal to them;
- **the two ordered fallback chains**: the client's `loadRealAudio` candidate
  loop and the proxy's `getAudioFromSources` mirror loop. Both are methods
  proved against one generic first-success function;
- **the proxy's request decisions**: the preflight answer, surah-number
  validation, the mirror accept rule, the 200/503 answers and their headers,
  static path mapping, and the content type by extension. Each request is a
  `Response` value, and a `HandleRequest` method writes that value into a
  `ServerResponse` object step by step.

Everything outside the model is a parameter:
- the network is a function from URL to reply (`api`, `network`);
- whether the audio element can play a URL is a predicate (`canPlay`);
- the static files are a function from path to bytes (`files`);
- the host checks of `window.location` are booleans.

Files: `wrappers.dfy` (Option, Result), `text.dfy` (the JavaScript string
operations the code relies on), `fallback.dfy`, `catalog.dfy`, `verses.dfy`,
`player.dfy`, `client_audio.dfy`, `proxy.dfy`.

Two behaviours of the code worth noting:

- Full-chapter mode needs one `ended` event per verse, `len` in all, to
  switch itself off. After `len - 1` events the last verse is playing and the
  mode is still on; only the `ended` event of the last verse clears it
  (`Player.FullSurahProgress`, `Player.FullSurahEnds`).
- A Basmala fetch that fails leaves the chapter's verses without one. The
  load still succeeds.

## Model

| member | source | states |
|---|---|---|
| `Fallback.FirstSuccess` | server.js:73-86 | The chosen position is a candidate whose attempt succeeds, every earlier attempt fails, and there is none exactly when every attempt fails |
| `Fallback.FirstValue` | server.js:78-80 | The chain yields a value exactly when some candidate succeeds, and it is the first winner's value |
| `Fallback.AttemptCount` | server.js:73-84 | The number of attempts never exceeds the number of candidates |
| `Fallback.FirstSuccessAt` | server.js:73-86 | A candidate that succeeds after all earlier ones failed is the winner; exactly that many attempts are made, and no later candidate is tried |
| `Fallback.AllFail` | server.js:86 | When every candidate fails, all of them are tried and nothing is found |
| `Text.TrimStartRemovesLeadingSpace` | script.js:545 | `trim` drops exactly the leading white space and keeps the rest as a suffix |
| `Text.TrimEndRemovesTrailingSpace` | script.js:545 | `trim` drops exactly the trailing white space and keeps the rest as a prefix |
| `Text.ContainsWithin` | script.js:553-558 | `includes` finds a text wherever it sits inside a longer one |
| `Text.PadStart` | server.js:71 | `padStart(3, '0')` gives a text of the width, or the original length when that is longer |
| `Text.PadStartParts` | server.js:71 | The padded text is pad characters followed by the original text |
| `Text.NatToString` | script.js:558 | `String(n)` is a non-empty run of digits without a leading zero |
| `Text.ParseIntToString` | server.js:136 | `parseInt(String(i), 10)` gives `i` back for every integer |
| `Text.ParsePaddedDecimal` | server.js:136 | `parseInt` reads a zero-padded decimal spelling, followed by a non-digit, as the number |
| `Text.LastSegment` | server.js:136 | `split('/').pop()` is the suffix after the last `/` and holds no `/` |
| `Text.LastSegmentSnoc` | server.js:136 | A character other than `/` appended to a path extends its last segment |
| `Text.LastSegmentAppend` | server.js:136 | Text without `/` appended to a path extends its last segment |
| `Text.ReplaceFirstAt` | server.js:74 | `replace` with a string pattern replaces only the first occurrence |
| `Text.JoinSplitOn` | script.js:940-941 | Splitting at a character and joining with it again gives the text back |
| `Catalog.NormalizeRange` | script.js:585-604 | Each present bound is at least 1, presence is kept, and when both are present the minimum does not exceed the maximum; the values are pinned by `NormalizeRangeValues` |
| `Catalog.AtLeastOne` | script.js:596-597 | A bound below 1 becomes 1 and any other bound is kept |
| `Catalog.NormalizeRangeValues` | script.js:585-604 | A bound given alone is its parsed value raised to 1; two bounds are the two raised values, as a pair in order |
| `Catalog.NormalizeRangeClampsThenSwaps` | script.js:596-601 | Bounds below 1 become 1 before the swap: `(0, 50)` gives `(1, 50)`, `(5, -3)` gives `(1, 5)`, two bounds below 1 give `(1, 1)` |
| `Catalog.NormalizeRangeSwaps` | script.js:599-601 | A minimum above the maximum is swapped |
| `Catalog.NormalizeRangeKeeps` | script.js:596-603 | Bounds already at least 1 and in order come back unchanged |
| `Catalog.NormalizeRangeIdempotent` | script.js:585-604 | Normalising a normalised range changes nothing |
| `Catalog.RangeInput` | script.js:659-663 | An unparsable input clears the bound, and a number is stored raised to at least 1 |
| `Catalog.LengthFilterRanges` | script.js:564-566 | `short` keeps at most 40 verses, `medium` 41 to 100, `long` more than 100, and `all` everything |
| `Catalog.MatchesExactly` | script.js:548-577 | A chapter passes exactly when the query matches, the length chip keeps it, its verse count lies inside the present bounds inclusively, and in favorites-only mode it is a favorite |
| `Catalog.Filter` | script.js:548 | The filtered list is never longer than the catalog |
| `Catalog.FilterSubset` | script.js:548-577 | The filtered list is a sub-multiset of the catalog |
| `Catalog.FilterMembers` | script.js:548-577 | A chapter is in the filtered list iff it is in the catalog and passes the predicate |
| `Catalog.FilterCounts` | script.js:548-577 | Each matching chapter occurs in the filtered list as often as in the catalog, and a failing one not at all |
| `Catalog.Shift` | script.js:548 | Each catalog position moves one place on |
| `Catalog.FilterAtIndices` | script.js:548 | Item `i` of the filtered list is the chapter at the `i`-th matching catalog position |
| `Catalog.ShiftIncreasing` | script.js:548 | Moved positions stay increasing, also behind a leading 0 |
| `Catalog.MatchingIndicesIncrease` | script.js:548 | The matching positions increase |
| `Catalog.MatchingIndicesExact` | script.js:548-577 | The matching positions are exactly those whose chapter passes |
| `Catalog.FilterKeepsOrder` | script.js:548-577 | `filter` keeps catalog order: the result lists the passing chapters at increasing catalog positions, each of them once |
| `Catalog.FilterIgnoresFavorites` | script.js:571-573 | With favorites-only mode off, the favorites list does not affect the filter |
| `Catalog.StrLeTotal` | script.js:609-610 | The name order standing in for `localeCompare` is total |
| `Catalog.StrLeTransitive` | script.js:609-610 | The name order is transitive |
| `Catalog.LeTotal` | script.js:607-621 | Every sort comparator is total |
| `Catalog.LeTransitive` | script.js:607-621 | Every sort comparator is transitive |
| `Catalog.Insert` | script.js:607-621 | Inserting one chapter lengthens the list by one |
| `Catalog.InsertElements` | script.js:607-621 | Insertion adds exactly the one chapter to the multiset |
| `Catalog.InsertSorted` | script.js:607-621 | Insertion into a sorted list keeps it sorted |
| `Catalog.SortSourates` | script.js:606-622 | The sorted copy has the input's length; the input is a value and stays as it was |
| `Catalog.SortPermutes` | script.js:606-622 | The sorted copy is a permutation of the input |
| `Catalog.SortSorted` | script.js:606-622 | Under each mode, every earlier chapter may precede every later one |
| `Catalog.TiesWith` | script.js:606-622 | The chapters picked out all tie with the given one under the comparator, and are no more than the list holds |
| `Catalog.InsertTies` | script.js:606-622 | Insertion places the new chapter ahead of every chapter it ties with |
| `Catalog.SortStable` | script.js:606-622 | The sort is stable: chapters that compare equal keep their original relative order, as `Array.prototype.sort` guarantees |
| `Catalog.SortByVerses` | script.js:612-617 | `versesAsc` gives non-decreasing verse counts and `versesDesc` non-increasing ones |
| `Catalog.InsertDistinct` | script.js:618-620 | Insertion keeps chapter numbers distinct |
| `Catalog.SortDistinct` | script.js:618-620 | Sorting keeps chapter numbers distinct |
| `Catalog.SortByNumberStrict` | script.js:618-620 | The default mode orders strictly by chapter number when numbers are distinct |
| `Catalog.MaxPages` | script.js:171 | The page count is the least number of 12-chapter pages that hold the list |
| `Catalog.PageSliceContents` | script.js:689-696 | A page holds at most 12 chapters, item k of page p is chapter (p-1)*12+k, pages up to the count are non-empty and later pages are empty |
| `Catalog.EveryChapterOnAPage` | script.js:689-696 | Every chapter of the list appears on exactly the page its index gives, within the page count |
| `Catalog.FindFavorite` | script.js:1194 | `findIndex` gives the first entry with the number, or nothing exactly when there is no such entry |
| `Catalog.Toggled` | script.js:1193-1206 | An absent chapter is appended as one snapshot; a present one loses its first entry and nothing else |
| `Catalog.OthersAppend` | script.js:1193-1206 | The entries of other chapters distribute over concatenation |
| `Catalog.ToggleKeepsOthers` | script.js:1193-1206 | Toggling never touches the entries of other chapters, or their order |
| `Catalog.ToggleTwiceRestores` | script.js:1193-1206 | Toggling an absent chapter twice restores the original list |
| `Catalog.ToggleFlips` | script.js:1193-1206 | With one entry per chapter, toggling flips membership and keeps one entry per chapter |
| `Catalog.ResetCriteriaKeepAll` | script.js:1310-1331 | With every filter at its initial value, the filter keeps the whole catalog |
| `Catalog.CatalogState.constructor` | script.js:17-38 | The initial state: no query, `all` chip, no bounds, favorites-only off, number sort, page 1 |
| `Catalog.CatalogState.FilterAndDisplay` | script.js:544-583 | The displayed list becomes the sorted, filtered catalog, the page is reset to 1, and nothing else changes |
| `Catalog.CatalogState.PrevPage` | script.js:163-168 | The page goes down by one only above page 1, stays within its bounds, and nothing else changes |
| `Catalog.CatalogState.NextPage` | script.js:170-176 | The page goes up by one only below the page count, stays within its bounds, and nothing else changes |
| `Catalog.CatalogState.DisplaySourates` | script.js:689-696 | The rendered slice is the current page: at most 12 chapters, at the page's offset, non-empty while the list is |
| `Catalog.CatalogState.ToggleFavorite` | script.js:1193-1220 | The favorites become the toggled list; in favorites-only mode the list is refiltered from page 1, otherwise display and page stay |
| `Catalog.CatalogState.HandleVerseRangeInput` | script.js:659-663 | The chosen bound becomes the parsed input raised to at least 1, or cleared; the view is refiltered from page 1 |
| `Catalog.CatalogState.SetLengthFilter` | script.js:665-673 | Clicking the active chip other than `all` resets it to `all`, any other click selects it; refiltered from page 1 |
| `Catalog.CatalogState.SetSearchInput` | script.js:101-107 | The raw query is the trimmed input and the matched query its lower case; refiltered from page 1 |
| `Catalog.CatalogState.ClearSearch` | script.js:109-117 | Both queries become empty; refiltered from page 1 |
| `Catalog.CatalogState.SetFavoritesOnly` | script.js:141-146 | The flag takes the toggle's value; refiltered from page 1 |
| `Catalog.CatalogState.SetSortMode` | script.js:148-153 | The sort mode takes the selected value; refiltered from page 1 |
| `Catalog.CatalogState.ResetFilters` | script.js:1310-1331 | Every filter returns to its initial value and the whole catalog is shown in number order from page 1 |
| `Verses.ChosenAudio` | script.js:857 | A verse's audio is its `audio` link, else its first secondary link, else missing; a chosen link is never empty |
| `Verses.MapAyahs` | script.js:854-858 | Each received verse becomes one kept verse, in order |
| `Verses.LoadFailsOnlyOnChapterReply` | script.js:844-902 | Loading fails exactly when the chapter's own request gives no verses; a failed Basmala request never makes it fail |
| `Verses.LoadedVerses` | script.js:854-891 | The result is the chapter's verses, with one Basmala (number 0, the text and audio of verse 1:1) in front exactly when the chapter is above 1 and not 9 and the verse 1:1 fetch gave a verse; no later verse is a Basmala |
| `Verses.NoBasmalaForOpeningAndRepentance` | script.js:862 | Chapters 1 and 9 never get a Basmala |
| `Verses.CommonPrefixLength` | script.js:943-946 | The count is the length of the longest common prefix of the two word lists |
| `Verses.CountMatchingWords` | script.js:941-946 | The word loop counts exactly the leading words shared with the Basmala, stopping at the first difference |
| `Verses.CommonPrefixLengthIs` | script.js:944-946 | A count of shared words that stops at a difference or at a list's end is the common prefix length |
| `Verses.RenderedText` | script.js:905-951 | The displayed text of a verse is the one the trim rule defines |
| `Verses.OnlyFirstVerseTrimmed` | script.js:930 | Only the first real verse after an inserted Basmala can lose a prefix; every other verse is shown as stored |
| `Verses.ExactBasmalaPrefixRemoved` | script.js:934-936 | A first verse starting with the exact Basmala text loses exactly that text and the white space after it |
| `Verses.WordPrefixRemoved` | script.js:938-951 | Otherwise the verse loses as many leading words as match the normalised Basmala words, all of them when every Basmala word matches |
| `Player.PlayVerseOn` | script.js:1003-1023 | An out-of-range index changes nothing, a verse without audio only shows the error, and otherwise the index and source become that verse's; the mode flag is never changed |
| `Player.IndexStaysInRange` | script.js:991-1037 | Playing, next, previous, play-full and `ended` keep an in-range index in range and never make it negative |
| `Player.StepsAtBounds` | script.js:1025-1037 | Next at the last verse and previous at the first change nothing; otherwise, with audio present, they move by exactly one |
| `Player.EndedStep` | script.js:991-1000 | With the mode off `ended` does nothing; on the last verse it only clears the mode; otherwise it plays the next verse and keeps the mode |
| `Player.FullSurahProgress` | script.js:983-1000 | After the play-full button and k < len `ended` events, verse k is playing and the mode is still on |
| `Player.FullSurahEnds` | script.js:983-1000 | After len or more `ended` events the last verse is current and the mode is off |
| `Player.VersePlayer.constructor` | script.js:32-33 | Index 0, mode off, no chapter open |
| `Player.VersePlayer.PlayVerse` | script.js:1003-1023 | The new playback state is `PlayVerseOn` of the old one, and the verses are unchanged |
| `Player.VersePlayer.PlayCurrentVerse` | script.js:981 | Replays the current verse by the `playVerse` rule |
| `Player.VersePlayer.PlayNextVerse` | script.js:1025-1030 | The new state is the next-verse transition of the old one |
| `Player.VersePlayer.PlayPrevVerse` | script.js:1032-1037 | The new state is the previous-verse transition of the old one |
| `Player.VersePlayer.PlayFullSurah` | script.js:982-985 | Turns the mode on and plays verse 0 |
| `Player.VersePlayer.OnEnded` | script.js:991-1000 | The new state is the `ended` transition of the old one |
| `Player.VersePlayer.ClosePlayer` | script.js:1185-1190 | Only the mode flag changes, to off |
| `Player.VersePlayer.FetchSurahAyahs` | script.js:844-902 | On success the verses are the loaded list, the index is 0 and the mode is off; on failure the list is emptied, the state kept and the message returned |
| `Player.VersePlayer.PlaySurah` | script.js:804-840 | Opens the chapter and hides the error box, then loads its verses with the same outcome; on failure the box shows "Unable to Load Audio" with the thrown message |
| `ClientAudio.CandidatesShape` | script.js:1093-1114 | Three to seven candidates in push order, each optional one present exactly when its condition holds, the three public mirrors last, and the proxy route only on the local host |
| `ClientAudio.CandidateUrl` | script.js:1121-1141 | A direct candidate is its URL; an API candidate resolves exactly when its request gives a verse, and then to that first verse's `audio` field |
| `ClientAudio.FailedApiSkipped` | script.js:1138-1141 | An API candidate whose request fails is skipped without trying to play |
| `ClientAudio.LoadOutcomeFirstPlayable` | script.js:1119-1168 | The result is the URL of the first candidate that plays, all earlier ones having failed; with none playing, the error reports the candidate count |
| `ClientAudio.TryCandidates` | script.js:1119-1155 | The loop returns the first-success value and tries exactly the candidates up to the winner, or all of them, in order |
| `ClientAudio.AudioState.LoadRealAudio` | script.js:1039-1168 | The outcome is the first-playable rule over the built candidates; on success the URL is kept as the current audio URL. No handler in this version of the client calls `loadRealAudio` |
| `Proxy.HeaderOr` | server.js:47 | A missing or empty header reads as the fallback; any other value is itself |
| `Proxy.FetchAudio` | server.js:31-65 | A mirror answer is accepted iff the status is 200 and the content type contains `audio` or `octet-stream`; a refusal carries its reason |
| `Proxy.AcceptedHasContentType` | server.js:47-48 | An accepted answer always has a non-empty content type |
| `Proxy.MirrorUrls` | server.js:71-74 | One URL per template, in template order, each with the placeholder replaced |
| `Proxy.MirrorUrlOfTemplate` | server.js:74 | `prefix{num}suffix` becomes prefix, padded number, suffix |
| `Proxy.EveryAyahMirrorUrl` | server.js:22 | The first mirror's URL for a surah |
| `Proxy.AlquranCloudMirrorUrl` | server.js:23 | The second mirror's URL for a surah |
| `Proxy.QuranAudioMirrorUrl` | server.js:24 | The third mirror's URL for a surah |
| `Proxy.Mp3QuranMirrorUrl` | server.js:25 | The fourth mirror's URL for a surah |
| `Proxy.MirrorUrlsSpelledOut` | server.js:21-26 | The four mirror URLs for a surah, in priority order |
| `Proxy.PaddedNumberOfSurah` | server.js:71 | For surahs 1 to 114 the padded number has three characters and reads back as the surah number |
| `Proxy.GetAudioFromSources` | server.js:70-87 | The loop settles with the first accepted mirror or the "All audio sources failed for Surah n" error, and requests exactly the mirrors up to the winner, in order |
| `Proxy.TryMirror` | server.js:74-78 | One pass fills the template with the padded number and keeps the answer exactly when the accept rule holds |
| `Proxy.ProbeStopsAt` | server.js:78-80 | The probe stops at an accepted mirror after refused earlier ones |
| `Proxy.ProbeExhausted` | server.js:84-86 | With every mirror refused, all were requested and the error names the surah |
| `Proxy.MirrorOutcomeFirstAccepted` | server.js:70-87 | The probe succeeds iff some mirror is accepted, then with the first accepted one; otherwise the error names the surah |
| `Proxy.SurahNumberOf` | server.js:136-138 | A surah number is accepted only inside 1..114 |
| `Proxy.AudioPathOfSurah` | server.js:136-138 | `/audio/surah/N`, plain or zero-padded, names surah N for every N in 1..114 |
| `Proxy.SurahNumberOfSegment` | server.js:136 | The number is read from the last segment alone |
| `Proxy.SurahNumberOfInteger` | server.js:136-138 | `/audio/surah/k` is accepted exactly when k lies in 1..114; 0, negatives and numbers past 114 are refused |
| `Proxy.NonNumericSegmentRefused` | server.js:136-138 | A segment that does not start like a number is refused |
| `Proxy.TrailingSlashRefused` | server.js:136-138 | A path ending in `/` is refused |
| `Proxy.PaddedDecimalHasNoSlash` | server.js:136 | A padded decimal segment holds no `/` |
| `Proxy.InvalidSurahRefused` | server.js:135-141 | An invalid number gives 400 with the JSON error "Invalid surah number" |
| `Proxy.ProxiedAudioAnswer` | server.js:146-159 | 200 exactly on success, with the mirror's content type, its content length or `0` when it sends none, and the one-day cache directive; otherwise 503 with the error as JSON |
| `Proxy.AudioAnswer` | server.js:135-161 | For a valid surah, 200 iff some mirror is accepted, forwarding the first one under its own content type and content length (`0` when absent); otherwise 503 with the exhaustion message |
| `Proxy.StaticPath` | server.js:168-176 | The root maps to `/index.html`, a path starting with `/` to itself, anything else to a bad request |
| `Proxy.StaticRouting` | server.js:164-178 | Non-audio requests: the root serves the index, a path without a leading `/` gets 400, any other path is looked up as it is |
| `Proxy.LastIndexOf` | server.js:100 | The found index holds the character and no later index does |
| `Proxy.ExtnameOfName` | server.js:100 | A name ending in `.ext` has the extension `.ext` |
| `Proxy.NameHasNoTrailingSlash` | server.js:100 | `stem.ext` has no trailing slash to strip |
| `Proxy.SegmentOfName` | server.js:100 | The last segment of `stem.ext` is longer than `.ext` and ends with it |
| `Proxy.SegmentExtOfSuffix` | server.js:100 | A segment ending in `.ext`, with a character before the dot, has the extension `.ext` |
| `Proxy.SegmentExtOfName` | server.js:100 | The last segment of `stem.ext` has the extension `.ext` |
| `Proxy.StaticContentTypeOf` | server.js:100-107 | A served file's content type depends on its extension alone |
| `Proxy.KnownContentTypes` | server.js:101-107 | The four mapped extensions get their text types; anything else is `application/octet-stream` |
| `Proxy.PreflightAnswered` | server.js:128-132 | OPTIONS is answered 200 with the CORS headers and no body, whatever the path |
| `Proxy.Dispatch` | server.js:134-178 | Any other request is routed by whether its path starts with `/audio/surah/` |
| `Proxy.CorsOnEveryResponse` | server.js:122-125 | Every response carries the three CORS headers unchanged |
| `Proxy.AudioKeepsCors` | server.js:134-161 | Audio answers keep the CORS headers |
| `Proxy.JsonKeepsCors` | server.js:139 | Adding the JSON content type leaves the CORS headers alone |
| `Proxy.ProxiedKeepsCors` | server.js:149-158 | Proxied and 503 answers keep the CORS headers |
| `Proxy.StaticKeepsCors` | server.js:164-178 | Static answers keep the CORS headers |
| `Proxy.FileKeepsCors` | server.js:92-111 | File answers keep the CORS headers |
| `Proxy.ContentTypeKeepsCors` | server.js:109 | Adding a content type keeps the CORS headers |
| `Proxy.StatusCodes` | server.js:117-179 | Every status is 200, 400, 404 or 503 |
| `Proxy.ServerResponse.constructor` | server.js:117 | A fresh response: status 200, no headers, no body, not finished |
| `Proxy.ServerResponse.SetHeader` | server.js:123-125 | Sets one header and nothing else |
| `Proxy.ServerResponse.WriteHead` | server.js:129 | Sets the status and adds the extra headers over the earlier ones |
| `Proxy.ServerResponse.End` | server.js:130 | Sets the body and finishes the response |
| `Proxy.HandleRequest` | server.js:117-179 | The finished response equals the `Respond` decision for the request |
| `Proxy.HandleAudio` | server.js:135-161 | The finished response equals the audio decision over the headers already set |
| `Proxy.HandleStatic` | server.js:164-178 | The finished response equals the static decision over the headers already set |
| `Proxy.ServeStaticFile` | server.js:92-111 | 404 when the file cannot be read, else 200 with the content type of its extension |

## Left out

- DOM rendering is not modelled: the cards, the modals, highlighting and scrolling, the search summary, and the enable/disable state of buttons.
- `fetch`, JSON parsing and response-shape probing are not modelled. Each request's outcome is an `ApiReply` from a function passed in. Missing text fields and a missing verse count read as `""` and `0`, as the client's `|| ''` and `|| 0` do.
- The audio element is not modelled: `src`/`load`/`play`, the `canplay`/`error` listeners, the 12 to 15 second timers and their cleanup in `tryLoadUrl`. Whether a URL plays is a predicate `canPlay` passed in, and `src` is a field.
- Node's `https.get`, its timeout and `pipe` streaming are not modelled. A mirror's reply is a `FetchOutcome` from a function passed in, and a forwarded stream is the `Piped` body.
- `fs.readFile` becomes a function from path to bytes. `path.join` with the static root and any path-traversal behaviour are not modelled: file paths stay relative to the root.
- `localStorage` saving and loading of favorites, and `JSON.parse`, are not modelled. The stored favorites are the constructor's argument.
- The name sort: `localeCompare` is replaced by code-point lexicographic order, because locale collation is not defined here. `toLowerCase` is modelled for ASCII letters only.
- JavaScript numbers are unbounded integers here, so the precision loss of `parseInt` beyond 2^53 is not modelled.
- Not modelled: loading the catalog from the two metadata APIs and the hard-coded 114-chapter fallback; the recitation-edition list and reciter selection (the edition is a parameter); `playPreviousSurah`/`playNextSurah`; `playFavorite`/`removeFavorite`. These are outside the modelled logic.
- `quran-audio-embedded.js` is not part of this model: it is a static lookup table.
- Concurrency between proxy requests is not modelled. Each request is handled independently and shares no state with others.
- The `ended` handler with no chapter open: here, the client's `ended` handler would throw on `currentSurah.ayahs`. The handler is only installed after a chapter has opened, and the open chapter is never cleared, so the model treats "no chapter" as an empty verse list.
