# htv-scraper: a Dafny model of the scraper's sequential logic

`htv-scraper` is a bulk image downloader. It asks the operator for three things: a page count, a destination folder and a set of image channels. It then requests every page of a paginated listing API, collects the items the pages return, and downloads each item to `<root>/<channel>/<id>.<extension>`. It skips files that already exist. While it runs it shows a progress counter, and at the end it prints a summary: `Finished. Downloaded <installed - errored>/<max_pages * 96>`.

Most of the program is I/O. This project models the logic in between:

- **Tag tables** (`tags.dfy`, module `Tags`). `Channel` and `Extension` each map to a fixed string. The string appears twice in the source: as the `serde(rename)` name used for JSON, and in the `Display` implementation. `Display` supplies the API query value and the folder or file-name component. The model proves that the two tables agree, that each is injective, and that parsing a tag is the exact inverse of writing it.
- **Numbers** (`numbers.dfy`, module `Numbers`). This module defines the `u64` and `i64` types. It also models `Display` of an integer in decimal and proves that the decimal form is injective.
- **Items and pages** (`items.dfy`, module `Items`). The derived deserialiser accepts an item only if both of its tags are known, and one rejected item rejects the whole page. The page fetch itself (`send`, then `json`, then `data`, then `unwrap_or_default`) is reduced to a `PageFetch` value.
  - Flattening the pages is modelled by multiset and count, not by order.
  - The collection holds as many items as the pages returned together.
  - A page that failed at any stage contributes nothing.
- **Paths** (`paths.dfy`, module `Paths`). A path is a list of components, and `Join` follows the Unix rule of `PathBuf::join` (a component starting with `/` replaces the path), which is all the program's components meet: none has a drive prefix or `\`. The destination is `root / channel / "<id>.<ext>"`. Two items share a destination exactly when they agree on channel, id and extension.
- **Requests** (`requests.dfy`, module `Requests`).
  - Page index `p` asks for offset `p * 96`, and the progress denominator is `max_pages * 96`. Both are `u64` products; see "Integer widths" below.
  - The query loop is a method. It builds one `("channel_name__in[]", tag)` pair per selected channel, in selection order, and asks for one folder per channel.
  - Each page request then appends exactly one `__offset` pair.
- **Downloads** (`downloads.dfy`, module `Downloads`).
  - What the filesystem and network answer for one item is a `Probe`. `OutcomeOf` is the worker's decision tree over a probe, giving `FileExists | GetFailed | NonOk | CreateFailed | Written`.
  - The `Downloader` class holds the `installed` and `errored` counters. Its `Download` and `Run` methods follow the worker closure and keep the invariant `errored <= installed`.
  - Workers share nothing except these two counters, which they change only by atomic additions. Running them one after another therefore gives the same totals as the parallel map.
- **Progress** (`progress.dfy`, module `Progress`). This module models the reporter's exit test, not its timing.
- **Orchestrator** (`scraper.dfy`, module `Scraper`). `Scrape` runs the whole pipeline on given page and item outcomes. It states what the run requests and collects, and the summary figures it ends with.

Integer widths: the counters and the page arithmetic are `u64` in the source. The products `e * 96` and `max_pages * 96` use the wrap-around of a release build (`Numbers.Wrap`). They are exact up to `MAX_EXACT_PAGES` = 192153584101141162 pages; beyond that they wrap (`Requests.OffsetWrapsPastExactRange`). The counters are unbounded `nat`s, because `fetch_add` could wrap only after 2^64 items, and a `Vec` cannot hold that many. The summary subtraction is modelled as a wrapping `u64` subtraction. It is then proved never to underflow.

Some details follow the code directly:
- The page count is any `u64`, 0 included, and unreadable input becomes 0. Nothing requires a positive count.
- The channel selection may be empty.
- Items are deserialised strictly: an item with an unknown tag makes the whole page decode to no items.

## Model

| member | source | states |
|---|---|---|
| Tags.ChannelWireName | src/main.rs:47-65 | definition: the `serde(rename)` string of each channel variant; see Tags.ChannelDisplayIsWireName and Tags.ChannelRoundTrip |
| Tags.ChannelDisplay | src/main.rs:106-119 | definition: the `Display` string of each channel variant; see Tags.ChannelDisplayIsWireName |
| Tags.ExtensionWireName | src/main.rs:67-79 | definition: the `serde(rename)` string of each extension variant; see Tags.ExtensionDisplayIsWireName and Tags.ExtensionRoundTrip |
| Tags.ExtensionDisplay | src/main.rs:81-91 | definition: the `Display` string of each extension variant; see Tags.ExtensionDisplayIsWireName |
| Tags.ChannelDisplayIsWireName | src/main.rs:47-65 | the `Display` string of every channel equals its `serde(rename)` name (Display table at lines 106-119) |
| Tags.ExtensionDisplayIsWireName | src/main.rs:67-91 | the `Display` string of every extension equals its `serde(rename)` name |
| Tags.ChannelWireNameInjective | src/main.rs:47-65 | distinct channels have distinct tags |
| Tags.ExtensionWireNameInjective | src/main.rs:67-79 | distinct extensions have distinct tags |
| Tags.ParseChannel | src/main.rs:47-65 | deserialising a channel name gives the variant whose tag is exactly that string, and fails for any string that is no variant's tag |
| Tags.ParseExtension | src/main.rs:67-79 | the same for extensions |
| Tags.ChannelRoundTrip | src/main.rs:47-65 | variant → tag → variant is the identity for channels |
| Tags.ExtensionRoundTrip | src/main.rs:67-79 | variant → tag → variant is the identity for extensions |
| Tags.TagsArePlainNames | src/main.rs:106-119 | every display tag is non-empty and holds no `/`, `\`, `:` or `.`, so it is one relative path component and the dot in a file name is unambiguous |
| Tags.AllChannels | src/main.rs:138 | the selectable options (`Channel::iter()`) are the 8 channels, each once, in declaration order |
| Tags.IsSelection | src/main.rs:137-138 | definition: an answer of the multi-select, some offered options in offered order; see Tags.SelectionOfOptions |
| Tags.SelectionOfOptions | src/main.rs:137-138 | every answer of the multi-select is a repeat-free subsequence of `Channel::iter()`, at most eight channels long |
| Numbers.Wrap | src/main.rs:158 | the `u64` reduction of an unchecked product: exact within range, congruent modulo 2^64 outside it |
| Numbers.NatToDecimal | src/main.rs:189 | the decimal form of a natural number is a non-empty string of digits without leading zeros |
| Numbers.DecimalRoundTrip | src/main.rs:189 | reading the decimal form back gives the number |
| Numbers.IntToDecimal | src/main.rs:189 | `Display` of an `i64` id: a `-` only at position 0 and exactly for negative ids, digits everywhere else, and the digits denote the magnitude of the id |
| Numbers.IntToDecimalInjective | src/main.rs:189 | distinct ids have distinct decimal forms |
| Items.EncodeData | src/main.rs:28-37 | definition: serde `Serialize` of an item, writing both tags as their rename strings; see Items.DataRoundTrip |
| Items.DecodeData | src/main.rs:28-37 | an item deserialises exactly when both its channel and extension tags are known, and the result serialises back to the input |
| Items.DataRoundTrip | src/main.rs:28-37 | serialising an item and reading it back gives the same item, tags included |
| Items.DecodeEachSpec | src/main.rs:22-26 | the `data` array deserialises exactly when every element does, into the same number of items, element by element |
| Items.PageItems | src/main.rs:155-163 | a page whose send, JSON read or item decoding fails contributes no items; a page that decodes contributes one item per array element, each re-encoding to its element |
| Items.Flatten | src/main.rs:165-166 | definition: the pages' items concatenated in page order; see Items.FlattenIsCollection and Items.CollectionSize |
| Items.PagesMultisetSize | src/main.rs:152-166 | the multiset of all pages' items has as many elements as the pages returned together |
| Items.FlattenIsCollection | src/main.rs:165-166 | concatenating the pages in page order is one admissible result of the parallel flatten and collect |
| Items.CollectionSize | src/main.rs:152-166 | any admissible collection, in whatever order, has exactly as many items as the pages returned together |
| Items.NoPagesNoItems | src/main.rs:152 | requesting zero pages collects nothing |
| Items.FailedPagesContributeNothing | src/main.rs:159-163 | the item count equals the item count of the pages that decoded: failed pages add zero |
| Items.UniformPagesCount | src/main.rs:152-166 | pages that each decode to `n` items give `n` items per page (2 full pages give 192) |
| Paths.Join | src/main.rs:190-193 | definition: `PathBuf::join` (Unix rule), appending a relative component; see Paths.ChannelDir and Paths.DestinationPath |
| Paths.ChannelDir | src/main.rs:148 | a channel's folder is the root with the channel tag appended as one component |
| Paths.FileNameIsRelative | src/main.rs:189 | `"<id>.<ext>"` starts with a sign or a digit, never with `/`, so joining it appends it |
| Paths.FileName | src/main.rs:189 | definition: `format!("{}.{}", id, extension)`; see Paths.FileNameInjective and Paths.FileNameIsRelative |
| Paths.DotSplitUnique | src/main.rs:189 | `x + "." + y`, with no dot in `x`, is split at one place only |
| Paths.FileNameInjective | src/main.rs:189 | two file names are equal exactly when the ids and the extensions are |
| Paths.DestinationPath | src/main.rs:189-193 | the destination is the root followed by the channel tag and `"<id>.<ext>"`, and its parent is the channel's folder |
| Paths.DestinationInjective | src/main.rs:189-193 | two items share a destination exactly when they agree on channel, id and extension |
| Paths.ChannelDirInjective | src/main.rs:148 | distinct channels have distinct folders |
| Requests.ExactProduct | src/main.rs:168 | up to `MAX_EXACT_PAGES` pages, the product with 96 fits in a `u64` |
| Requests.Offset | src/main.rs:158 | page index `p` asks for offset `p * 96` whenever that product fits in a `u64` |
| Requests.MaxCount | src/main.rs:168 | the progress denominator is `max_pages * 96` whenever that product fits in a `u64` |
| Requests.PageOffsets | src/main.rs:152-158 | one offset per page index in `0..max_pages` |
| Requests.PageOffsetsExact | src/main.rs:152-158 | without overflow, page `p` asks for `p * 96`, offsets strictly increase, and every page's 96-item window lies below the denominator |
| Requests.ZeroPages | src/main.rs:133 | zero pages (also the value of an unreadable page count) request no offsets and give a denominator of 0 |
| Requests.OffsetWrapsPastExactRange | src/main.rs:158 | past the exact range the product wraps: page 2^59 asks for offset 0, as page 0 does |
| Requests.ChannelParams | src/main.rs:146-150 | the filter has exactly one pair per selected channel |
| Requests.ChannelParamsAt | src/main.rs:146-150 | the filter's `i`-th pair is `("channel_name__in[]", tag of the i-th selected channel)` |
| Requests.ChannelParamsKeys | src/main.rs:146-150 | the filter holds exactly one `channel_name__in[]` key per channel and no `__offset` key |
| Requests.PageQueryShape | src/main.rs:157-158 | each page request carries the channel pairs in selection order, then exactly one `__offset` pair with that page's offset, and nothing else |
| Requests.PageQuery | src/main.rs:157-158 | definition: the shared filter followed by the `__offset` pair of the page; see Requests.PageQueryShape |
| Requests.DistinctSelectionDistinctParams | src/main.rs:146-150 | a selection without repeats gives pairwise distinct channel pairs |
| Requests.ChannelDirs | src/main.rs:147-148 | one folder per selected channel |
| Requests.ChannelDirsAt | src/main.rs:147-148 | the `i`-th folder is the folder of the `i`-th selected channel |
| Requests.PrepareChannels | src/main.rs:146-150 | the loop returns exactly the filter and the folder list of the selection |
| Requests.DestinationFolderPrepared | src/main.rs:148 | an item's destination folder is among the prepared folders exactly when its channel was selected (lines 190-193 build the destination) |
| Downloads.OutcomeOf | src/main.rs:196-211 | definition: the worker's decision tree over one probe (present file, GET failure, non-200, create failure, write); see Downloads.ErrorCases and Downloads.Downloader.Download |
| Downloads.ErrorCases | src/main.rs:196-211 | an item is an error exactly when its file was missing and then the GET failed, the status was not 200 or `File::create` failed; the copy's result never matters |
| Downloads.Outcomes | src/main.rs:186-188 | one outcome per item |
| Downloads.ErrorCount | src/main.rs:203-209 | errors never outnumber the items |
| Downloads.CompletedCount | src/main.rs:196-201 | completed items never outnumber the items |
| Downloads.CountsPartition | src/main.rs:195-211 | every item is exactly one of error or completed, so errors plus completed items equal the item count |
| Downloads.Downloader.constructor | src/main.rs:130-131 | both counters start at 0 |
| Downloads.Downloader.Download | src/main.rs:195-211 | one worker adds exactly 1 to `installed`, adds 1 to `errored` exactly on an error outcome and keeps `errored <= installed` |
| Downloads.Downloader.Run | src/main.rs:186-213 | after all workers, `installed` grew by the item count and `errored` by the number of error outcomes, with `errored <= installed` kept |
| Downloads.Downloaded | src/main.rs:216-219 | the `u64` subtraction `installed - errored` is exact whenever errors do not outnumber attempts |
| Downloads.SummaryOfRun | src/main.rs:216-219 | after a run from fresh counters the figure never underflows and equals the number of items skipped as present or reaching the write step |
| Downloads.ThreeItemExample | src/main.rs:195-219 | one present, one fetched with 200 and one answered 404: one error, two completed items, and a summary figure of 2 computed from the run's own counters |
| Progress.ReporterExits | src/main.rs:179 | definition: the exit test as written, `installed == max_count`; see Progress.ShortRunNeverExits and Progress.ReporterHangsAfterFailedPage |
| Progress.DownloadsFinished | src/main.rs:179 | definition: the corrected exit test, every collected item attempted; see Progress.FixedReporterExits |
| Progress.ShortRunNeverExits | src/main.rs:179 | if the run ends below `max_count`, no reading the reporter takes passes its exit test |
| Progress.ReporterHangsAfterFailedPage | src/main.rs:174-182 | with one page whose request fails, nothing is collected, the denominator is 96, and the exit test never passes, while the corrected test passes |
| Progress.FixedReporterExits | src/main.rs:179 | the corrected exit test, against the number of collected items, passes exactly when every collected item has been attempted |
| Scraper.Scrape | src/main.rs:129-222 | a whole run prepares one folder per channel and requests each page. It collects every page's items, counts one attempt per item and the error outcomes, and reports `installed - errored` against `max_pages * 96`. The corrected reporter stops at the end |

## Findings

| source | as written | input that shows it | evidently intended | confidence | as-written member | corrected member |
|---|---|---|---|---|---|---|
| src/main.rs:179 | the progress thread ends only when `installed == max_count`, where `max_count = max_pages * 96`. `installed` ends at the number of collected items, so with fewer items the thread loops forever, and `thread.join()` (line 215) never returns | `max_pages = 1` and the single page request fails (or returns fewer than 96 items): `installed` stays at 0 and `max_count` is 96 | the reporter stops once every collected item has been attempted | not executed; high | Progress.ReporterHangsAfterFailedPage | Progress.FixedReporterExits |

The orchestrator `Scraper.Scrape` states the corrected exit test (`DownloadsFinished`) for its final counter.

## Left out

- Operator interaction is not modelled: the prompts, the folder dialog, aborting when the dialog is cancelled, and the error return when the channel prompt is cancelled. The three answers arrive as `Scraper.Settings`.
- HTTP is not modelled. This covers the listing request, the JSON parser and the item GET. Their results are parameters: a `PageFetch` per page index and a `Probe` per item. The URL-encoding of the query pairs is done by the HTTP library and is not modelled either.
- The filesystem is not modelled: `create_dir_all`, `exists`, `File::create` and `io::copy`. Their results enter only through `Probe`. `PrepareChannels` returns the folders it asks for; whether creating them succeeds is ignored, as in the source.
- Parallelism is not modelled: the parallel maps, the reporter thread and the atomic memory orderings. The counters are modelled sequentially. This is faithful for the totals, because they change only by atomic additions. No claim is made about the order of items across pages.
- The reporter's one-second sleep and its printing are left out. Only its exit test is modelled.
- `Data`'s `Display` is left out. It formats the file size as a float through an external library.
- A debug build panics on `u64` overflow. The model follows the wrap-around of a release build instead.
- Downloads.Downloader.Download: does not state that `installed` is incremented before the existence check. In a sequential model that order cannot be observed; the contract states the net effect on both counters.
- Downloads.Downloader.Run: does not model two items with the same destination racing on one file; each item's `Probe` is given independently.
