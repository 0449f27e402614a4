/**
 * Items, the JSON envelope they arrive in, and the flattening of all pages
 * into one collection.
 *
 * JSON parsing itself is foreign: a page fetch is abstracted into what the
 * HTTP client and the JSON reader hand back. What is modelled is the part
 * the derived deserialiser decides from the program's own declarations:
 * an item is accepted only when its channel and extension names are in the
 * tag tables, and one rejected item rejects the whole envelope.
 */
module Items {
  import opened Wrappers
  import opened Numbers
  import opened Tags

  /** One discovered image (`Data`). */
  datatype Data = Data(id: i64, channel: Channel, url: string, extension: Extension,
                       width: i64, height: i64, filesize: u64)

  /** An item as it stands in the JSON body, with its two tags still as strings. */
  datatype WireData = WireData(id: i64, channelName: string, url: string, extension: string,
                               width: i64, height: i64, filesize: u64)

  function EncodeData(d: Data): WireData {
    WireData(d.id, ChannelWireName(d.channel), d.url, ExtensionWireName(d.extension),
             d.width, d.height, d.filesize)
  }

  /** Deserialising one item: it succeeds exactly when both tags are known, and then re-encodes to its input. */
  function DecodeData(w: WireData): (r: Option<Data>)
    ensures r.Some? <==> ParseChannel(w.channelName).Some? && ParseExtension(w.extension).Some?
    ensures r.Some? ==> EncodeData(r.value) == w
  {
    match (ParseChannel(w.channelName), ParseExtension(w.extension))
    case (Some(c), Some(e)) => Some(Data(w.id, c, w.url, e, w.width, w.height, w.filesize))
    case _ => None
  }

  /** Serialising and reading back an item gives the same item, tags included. */
  lemma DataRoundTrip(d: Data)
    ensures DecodeData(EncodeData(d)) == Some(d)
  {
    ChannelRoundTrip(d.channel);
    ExtensionRoundTrip(d.extension);
  }

  /**
   * Decoding a sequence element by element with `decode`; the first element
   * it rejects rejects the whole sequence (serde's sequence visitor).
   */
  function DecodeEach<A, B>(xs: seq<A>, decode: A -> Option<B>): Option<seq<B>>
    decreases |xs|
  {
    if xs == [] then Some([])
    else
      match DecodeEach(xs[..|xs| - 1], decode)
      case None => None
      case Some(front) =>
        match decode(xs[|xs| - 1])
        case None => None
        case Some(last) => Some(front + [last])
  }

  /** The sequence decodes exactly when every element does, and then element by element. */
  lemma {:induction false} DecodeEachSpec<A, B>(xs: seq<A>, decode: A -> Option<B>)
    ensures DecodeEach(xs, decode).Some? <==> forall k :: 0 <= k < |xs| ==> decode(xs[k]).Some?
    ensures DecodeEach(xs, decode).Some? ==> |DecodeEach(xs, decode).value| == |xs|
    ensures DecodeEach(xs, decode).Some? ==>
              forall k :: 0 <= k < |xs| ==> decode(xs[k]) == Some(DecodeEach(xs, decode).value[k])
    decreases |xs|
  {
    if xs != [] {
      var init := xs[..|xs| - 1];
      DecodeEachSpec(init, decode);
      assert forall k :: 0 <= k < |init| ==> init[k] == xs[k];
      var front := DecodeEach(init, decode);
      if front.Some? && decode(xs[|xs| - 1]).Some? {
        var r := front.value + [decode(xs[|xs| - 1]).value];
        assert forall k :: 0 <= k < |init| ==> r[k] == front.value[k];
      }
    }
  }

  /** Deserialising the `data` array. */
  function DecodeAll(ws: seq<WireData>): Option<seq<Data>> {
    DecodeEach(ws, DecodeData)
  }

  /** What one page request yielded, as far as the program can tell. */
  datatype PageFetch =
    | SendFailed                      // `send()` returned an error
    | BodyRejected                    // the body is not JSON of the envelope's shape
    | Envelope(data: seq<WireData>)   // an envelope whose `data` array holds these items

  /** The page decodes into items. */
  predicate Decodes(f: PageFetch) {
    f.Envelope? && DecodeAll(f.data).Some?
  }

  /** The items a page contributes (`.ok().and_then(json).map(data).unwrap_or_default()`). */
  function PageItems(f: PageFetch): (r: seq<Data>)
    ensures Decodes(f) ==> |r| == |f.data|
    ensures Decodes(f) ==> forall k :: 0 <= k < |r| ==> EncodeData(r[k]) == f.data[k]
    ensures !Decodes(f) ==> r == []
  {
    match f
    case Envelope(data) => DecodeEachSpec(data, DecodeData); DecodeAll(data).GetOr([])
    case _ => []
  }

  /** The pages' items, in page order. */
  function Flatten(pages: seq<PageFetch>): seq<Data>
    decreases |pages|
  {
    if pages == [] then [] else Flatten(pages[..|pages| - 1]) + PageItems(pages[|pages| - 1])
  }

  /** The number of items all pages together returned. */
  function ItemCount(pages: seq<PageFetch>): nat
    decreases |pages|
  {
    if pages == [] then 0 else ItemCount(pages[..|pages| - 1]) + |PageItems(pages[|pages| - 1])|
  }

  /** Every item of every page, as a multiset: the collection without its order. */
  function PagesMultiset(pages: seq<PageFetch>): multiset<Data>
    decreases |pages|
  {
    if pages == [] then multiset{}
    else PagesMultiset(pages[..|pages| - 1]) + multiset(PageItems(pages[|pages| - 1]))
  }

  /**
   * `items` is a possible result of the parallel flatten-and-collect: it holds
   * every item of every page, each as often as the pages hold it, in some order.
   */
  predicate IsCollection(pages: seq<PageFetch>, items: seq<Data>) {
    multiset(items) == PagesMultiset(pages)
  }

  lemma {:induction false} PagesMultisetSize(pages: seq<PageFetch>)
    ensures |PagesMultiset(pages)| == ItemCount(pages)
    decreases |pages|
  {
    if pages != [] {
      PagesMultisetSize(pages[..|pages| - 1]);
    }
  }

  /** Page-order concatenation is one such collection. */
  lemma {:induction false} FlattenIsCollection(pages: seq<PageFetch>)
    ensures IsCollection(pages, Flatten(pages))
    decreases |pages|
  {
    if pages != [] {
      FlattenIsCollection(pages[..|pages| - 1]);
    }
  }

  /** Whatever the order, the collection has as many items as the pages returned together. */
  lemma CollectionSize(pages: seq<PageFetch>, items: seq<Data>)
    requires IsCollection(pages, items)
    ensures |items| == ItemCount(pages)
  {
    PagesMultisetSize(pages);
  }

  /** Zero pages collect nothing. */
  lemma NoPagesNoItems(items: seq<Data>)
    requires IsCollection([], items)
    ensures items == []
  {
    assert |multiset(items)| == 0;
  }

  /** The pages that decoded, in order. */
  function DecodedPages(pages: seq<PageFetch>): (r: seq<PageFetch>)
    ensures forall k :: 0 <= k < |r| ==> Decodes(r[k])
    decreases |pages|
  {
    if pages == [] then []
    else if Decodes(pages[|pages| - 1]) then DecodedPages(pages[..|pages| - 1]) + [pages[|pages| - 1]]
    else DecodedPages(pages[..|pages| - 1])
  }

  /** A page whose send, JSON read or item decoding fails contributes nothing. */
  lemma {:induction false} FailedPagesContributeNothing(pages: seq<PageFetch>)
    ensures ItemCount(pages) == ItemCount(DecodedPages(pages))
    decreases |pages|
  {
    if pages != [] {
      var front := pages[..|pages| - 1];
      FailedPagesContributeNothing(front);
      if Decodes(pages[|pages| - 1]) {
        assert (DecodedPages(front) + [pages[|pages| - 1]])[..|DecodedPages(front)|] == DecodedPages(front);
      }
    }
  }

  /** Pages that each decode to `n` items give `n` items per page. */
  lemma {:induction false} UniformPagesCount(pages: seq<PageFetch>, n: nat)
    requires forall k :: 0 <= k < |pages| ==> Decodes(pages[k]) && |pages[k].data| == n
    ensures ItemCount(pages) == n * |pages|
    decreases |pages|
  {
    if pages != [] {
      UniformPagesCount(pages[..|pages| - 1], n);
      assert n * |pages| == n * (|pages| - 1) + n;
    }
  }
}
