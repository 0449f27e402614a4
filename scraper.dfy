/**
 * The orchestrator: prepare the channel folders and the query, fetch every
 * page, download every collected item, and report the summary figures.
 *
 * The operator's three answers arrive as `Settings`; what each page request
 * and each item's filesystem and network calls produced arrives as the
 * `fetch` and `probes` sequences.
 */
module Scraper {
  import opened Numbers
  import opened Tags
  import opened Items
  import opened Paths
  import opened Requests
  import opened Downloads
  import opened Progress

  /**
   * The operator's choices; a page count that could not be read is 0. The
   * channels the multi-select returns satisfy `Tags.IsSelection`; the run
   * itself does not rely on that, so any sequence is accepted here.
   */
  datatype Settings = Settings(maxPages: u64, root: Path, channels: seq<Channel>)

  /**
   * One whole run. `fetch[p]` is what the request for page index `p`
   * yielded; `probes` holds what the environment answered for each
   * collected item, in collection order.
   */
  method Scrape(settings: Settings, fetch: seq<PageFetch>, probes: seq<Probe>)
    returns (dirs: seq<Path>, requests: seq<seq<QueryPair>>, items: seq<Data>,
             installed: nat, errored: nat, downloaded: u64, maxCount: u64)
    requires |fetch| == settings.maxPages as int
    requires |probes| == ItemCount(fetch)
    ensures dirs == ChannelDirs(settings.root, settings.channels)
    ensures |requests| == settings.maxPages as int
    ensures forall p :: 0 <= p < |requests| ==>
              requests[p] == PageQuery(ChannelParams(settings.channels), p as u64)
    ensures IsCollection(fetch, items) && |items| == ItemCount(fetch)
    ensures installed == |items|
    ensures errored == ErrorCount(Outcomes(probes)) && errored <= installed
    ensures maxCount == MaxCount(settings.maxPages)
    ensures downloaded == Downloaded(installed, errored)
    ensures installed < U64_MODULUS ==> downloaded as int == CompletedCount(Outcomes(probes))
    ensures DownloadsFinished(installed, |items|)
  {
    var query;
    query, dirs := PrepareChannels(settings.root, settings.channels);
    requests := seq(settings.maxPages as int, p requires 0 <= p < settings.maxPages as int => PageQuery(query, p as u64));
    items := Flatten(fetch);
    FlattenIsCollection(fetch);
    CollectionSize(fetch, items);
    maxCount := MaxCount(settings.maxPages);
    var counters := new Downloader();
    var outcomes := counters.Run(probes);
    installed, errored := counters.installed, counters.errored;
    downloaded := Downloaded(installed, errored);
    if installed < U64_MODULUS {
      SummaryOfRun(probes, installed, errored);
    }
  }
}
