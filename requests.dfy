/**
 * The page requests: which offsets are asked for, with which query, and the
 * progress denominator.
 *
 * `e * 96` and `max_pages * 96` are `u64` products. They are modelled with
 * the wrap-around of a release build; up to `MAX_EXACT_PAGES` pages they are
 * the exact products.
 */
module Requests {
  import opened Numbers
  import opened Tags
  import opened Paths

  /** Items per page, by the API's convention. */
  const PAGE_SIZE: nat := 96
  const CHANNEL_KEY: string := "channel_name__in[]"
  const OFFSET_KEY: string := "__offset"

  /** The largest page count whose products with 96 all fit in a `u64`. */
  const MAX_EXACT_PAGES: nat := (U64_MODULUS - 1) / PAGE_SIZE

  lemma ExactProduct(pages: nat)
    ensures pages <= MAX_EXACT_PAGES ==> pages * PAGE_SIZE < U64_MODULUS
  {
    if pages <= MAX_EXACT_PAGES {
      assert pages * PAGE_SIZE <= MAX_EXACT_PAGES * PAGE_SIZE;
    }
  }

  /** `e * 96`: the item offset at which page index `e` starts. */
  function Offset(page: u64): (r: u64)
    ensures page as int <= MAX_EXACT_PAGES ==> r as int == page as int * PAGE_SIZE
  {
    ExactProduct(page as int);
    Wrap(page as int * PAGE_SIZE)
  }

  /** `max_pages * 96`: the expected total the progress line counts towards. */
  function MaxCount(maxPages: u64): (r: u64)
    ensures maxPages as int <= MAX_EXACT_PAGES ==> r as int == maxPages as int * PAGE_SIZE
  {
    ExactProduct(maxPages as int);
    Wrap(maxPages as int * PAGE_SIZE)
  }

  /** The offsets requested, one per page index in `0..max_pages`. */
  function PageOffsets(maxPages: u64): (r: seq<u64>)
    ensures |r| == maxPages as int
  {
    seq(maxPages as int, p requires 0 <= p < maxPages as int => Offset(p as u64))
  }

  /**
   * Without overflow, page `p` asks for offset `p * 96`, the offsets strictly
   * increase, and every page's window of 96 items lies below the denominator.
   */
  lemma PageOffsetsExact(maxPages: u64)
    requires maxPages as int <= MAX_EXACT_PAGES
    ensures forall p :: 0 <= p < maxPages as int ==> PageOffsets(maxPages)[p] as int == p * PAGE_SIZE
    ensures forall p, q :: 0 <= p < q < maxPages as int ==> PageOffsets(maxPages)[p] < PageOffsets(maxPages)[q]
    ensures forall p :: 0 <= p < maxPages as int ==> PageOffsets(maxPages)[p] as int + PAGE_SIZE <= MaxCount(maxPages) as int
  {
    var offs := PageOffsets(maxPages);
    forall p | 0 <= p < maxPages as int
      ensures offs[p] as int == p * PAGE_SIZE
      ensures offs[p] as int + PAGE_SIZE <= MaxCount(maxPages) as int
    {
      assert (p + 1) * PAGE_SIZE <= maxPages as int * PAGE_SIZE;
    }
    forall p, q | 0 <= p < q < maxPages as int
      ensures offs[p] < offs[q]
    {
      assert p * PAGE_SIZE < q * PAGE_SIZE;
    }
  }

  /** Zero pages (the value a rejected page count becomes) request nothing and expect nothing. */
  lemma ZeroPages()
    ensures PageOffsets(0) == [] && MaxCount(0) == 0
  {
  }

  /** Past the exact range the products wrap: page 2^59 asks for offset 0 again. */
  lemma OffsetWrapsPastExactRange()
    ensures Offset(0x0800_0000_0000_0000) == Offset(0) == 0
  {
    assert 0x0800_0000_0000_0000 * PAGE_SIZE == 3 * U64_MODULUS;
  }

  /** A query value: the channel pairs carry strings, the offset pair a number. */
  datatype QueryValue = Text(text: string) | Number(number: u64)

  type QueryPair = (string, QueryValue)

  function ChannelParam(c: Channel): QueryPair {
    (CHANNEL_KEY, Text(ChannelDisplay(c)))
  }

  /** The shared filter: one channel pair per selected channel, in selection order. */
  function ChannelParams(channels: seq<Channel>): (r: seq<QueryPair>)
    ensures |r| == |channels|
    decreases |channels|
  {
    if channels == [] then []
    else ChannelParams(channels[..|channels| - 1]) + [ChannelParam(channels[|channels| - 1])]
  }

  lemma {:induction false} ChannelParamsAt(channels: seq<Channel>)
    ensures forall i :: 0 <= i < |channels| ==> ChannelParams(channels)[i] == ChannelParam(channels[i])
    decreases |channels|
  {
    if channels != [] {
      var init := channels[..|channels| - 1];
      ChannelParamsAt(init);
      assert forall i :: 0 <= i < |init| ==> init[i] == channels[i];
    }
  }

  /** The parameters of the request for page index `page`: the shared filter, then `__offset`. */
  function PageQuery(filter: seq<QueryPair>, page: u64): seq<QueryPair> {
    filter + [(OFFSET_KEY, Number(Offset(page)))]
  }

  /** How many pairs of `q` have key `key`. */
  function KeyCount(q: seq<QueryPair>, key: string): nat
    decreases |q|
  {
    if q == [] then 0
    else KeyCount(q[..|q| - 1], key) + (if q[|q| - 1].0 == key then 1 else 0)
  }

  lemma {:induction false} ChannelParamsKeys(channels: seq<Channel>)
    ensures KeyCount(ChannelParams(channels), CHANNEL_KEY) == |channels|
    ensures KeyCount(ChannelParams(channels), OFFSET_KEY) == 0
    decreases |channels|
  {
    if channels != [] {
      var init := channels[..|channels| - 1];
      ChannelParamsKeys(init);
      assert ChannelParams(channels)[..|ChannelParams(channels)| - 1] == ChannelParams(init);
    }
  }

  /**
   * Every page request carries exactly one channel pair per selected channel,
   * in selection order, followed by exactly one `__offset` pair.
   */
  lemma PageQueryShape(channels: seq<Channel>, page: u64)
    ensures var q := PageQuery(ChannelParams(channels), page);
            && |q| == |channels| + 1
            && (forall i :: 0 <= i < |channels| ==> q[i] == ChannelParam(channels[i]))
            && q[|channels|] == (OFFSET_KEY, Number(Offset(page)))
            && KeyCount(q, CHANNEL_KEY) == |channels|
            && KeyCount(q, OFFSET_KEY) == 1
  {
    var q := PageQuery(ChannelParams(channels), page);
    ChannelParamsAt(channels);
    ChannelParamsKeys(channels);
    assert q[..|q| - 1] == ChannelParams(channels);
  }

  /**
   * A selection without repeats gives pairwise distinct channel pairs; every
   * answer of the multi-select is one (`Tags.SelectionOfOptions`).
   */
  lemma DistinctSelectionDistinctParams(channels: seq<Channel>)
    requires forall i, j :: 0 <= i < j < |channels| ==> channels[i] != channels[j]
    ensures forall i, j :: 0 <= i < j < |channels| ==> ChannelParams(channels)[i] != ChannelParams(channels)[j]
  {
    ChannelParamsAt(channels);
    forall i, j | 0 <= i < j < |channels|
      ensures ChannelParams(channels)[i] != ChannelParams(channels)[j]
    {
      ChannelDisplayIsWireName(channels[i]);
      ChannelDisplayIsWireName(channels[j]);
      ChannelWireNameInjective(channels[i], channels[j]);
    }
  }

  /** The folders of the selected channels, in selection order. */
  function ChannelDirs(root: Path, channels: seq<Channel>): (r: seq<Path>)
    ensures |r| == |channels|
    decreases |channels|
  {
    if channels == [] then []
    else ChannelDirs(root, channels[..|channels| - 1]) + [ChannelDir(root, channels[|channels| - 1])]
  }

  lemma {:induction false} ChannelDirsAt(root: Path, channels: seq<Channel>)
    ensures forall i :: 0 <= i < |channels| ==> ChannelDirs(root, channels)[i] == ChannelDir(root, channels[i])
    decreases |channels|
  {
    if channels != [] {
      var init := channels[..|channels| - 1];
      ChannelDirsAt(root, init);
      assert forall i :: 0 <= i < |init| ==> init[i] == channels[i];
    }
  }

  /**
   * The loop over the selected channels: ask for each channel's folder to be
   * created (the result is ignored) and push its query pair.
   */
  method PrepareChannels(root: Path, channels: seq<Channel>) returns (query: seq<QueryPair>, dirs: seq<Path>)
    ensures query == ChannelParams(channels)
    ensures dirs == ChannelDirs(root, channels)
  {
    query, dirs := [], [];
    var i := 0;
    while i < |channels|
      invariant 0 <= i <= |channels|
      invariant query == ChannelParams(channels[..i])
      invariant dirs == ChannelDirs(root, channels[..i])
    {
      var channel := channels[i];
      var dir := ChannelDir(root, channel);
      dirs := dirs + [dir];
      query := query + [ChannelParam(channel)];
      assert channels[..i + 1][..i] == channels[..i];
      assert ChannelParams(channels[..i + 1]) == ChannelParams(channels[..i]) + [ChannelParam(channel)];
      assert ChannelDirs(root, channels[..i + 1]) == ChannelDirs(root, channels[..i]) + [dir];
      i := i + 1;
    }
    assert channels[..i] == channels;
  }

  /**
   * An item's folder is among the folders prepared for the selection exactly
   * when the item's channel was selected.
   */
  lemma DestinationFolderPrepared(root: Path, channels: seq<Channel>, d: Items.Data)
    ensures Parent(DestinationPath(root, d)) in ChannelDirs(root, channels) <==> d.channel in channels
  {
    var dirs := ChannelDirs(root, channels);
    ChannelDirsAt(root, channels);
    if Parent(DestinationPath(root, d)) in dirs {
      var i :| 0 <= i < |dirs| && dirs[i] == Parent(DestinationPath(root, d));
      ChannelDirInjective(root, channels[i], d.channel);
    }
    if d.channel in channels {
      var i :| 0 <= i < |channels| && channels[i] == d.channel;
      assert dirs[i] == Parent(DestinationPath(root, d));
    }
  }
}
