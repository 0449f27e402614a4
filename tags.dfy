/**
 * The two closed tag tables of the scraper.
 *
 * Each `Channel` and each `Extension` carries one fixed string. The program
 * writes that string down twice: once as the `serde(rename)` name used to
 * read and write JSON, and once in its `Display` implementation, which picks
 * the API query value and the folder or file-name component. The two tables
 * are kept apart here so that their agreement is a proved fact.
 */
module Tags {
  import opened Wrappers

  datatype Channel = Media | NsfwGeneral | Furry | Futa | Yaoi | Yuri | Traps | Irl3D

  datatype Extension = Jpg | Jpeg | Png | Webp | Gif

  /** The `serde(rename)` name of each channel: its JSON spelling. */
  function ChannelWireName(c: Channel): string {
    match c
    case Media => "media"
    case NsfwGeneral => "nsfw-general"
    case Furry => "furry"
    case Futa => "futa"
    case Yaoi => "yaoi"
    case Yuri => "yuri"
    case Traps => "traps"
    case Irl3D => "irl-3d"
  }

  /** `Display` of a channel (`channel.to_string()`). */
  function ChannelDisplay(c: Channel): string {
    match c
    case Media => "media"
    case NsfwGeneral => "nsfw-general"
    case Furry => "furry"
    case Futa => "futa"
    case Yaoi => "yaoi"
    case Yuri => "yuri"
    case Traps => "traps"
    case Irl3D => "irl-3d"
  }

  /** The `serde(rename)` name of each extension. */
  function ExtensionWireName(e: Extension): string {
    match e
    case Jpg => "jpg"
    case Jpeg => "jpeg"
    case Png => "png"
    case Webp => "webp"
    case Gif => "gif"
  }

  /** `Display` of an extension. */
  function ExtensionDisplay(e: Extension): string {
    match e
    case Jpg => "jpg"
    case Jpeg => "jpeg"
    case Png => "png"
    case Webp => "webp"
    case Gif => "gif"
  }

  /** The display string of every channel equals its wire name. */
  lemma ChannelDisplayIsWireName(c: Channel)
    ensures ChannelDisplay(c) == ChannelWireName(c)
  {
  }

  lemma ExtensionDisplayIsWireName(e: Extension)
    ensures ExtensionDisplay(e) == ExtensionWireName(e)
  {
  }

  /** Distinct channels have distinct tags. */
  lemma ChannelWireNameInjective(a: Channel, b: Channel)
    ensures ChannelWireName(a) == ChannelWireName(b) ==> a == b
  {
  }

  lemma ExtensionWireNameInjective(a: Extension, b: Extension)
    ensures ExtensionWireName(a) == ExtensionWireName(b) ==> a == b
  {
  }

  /** No tag is empty or holds a dot, a path separator or a drive colon. */
  predicate IsPlainName(s: string) {
    |s| > 0 && forall k :: 0 <= k < |s| ==> s[k] != '/' && s[k] != '.' && s[k] != '\\' && s[k] != ':'
  }

  lemma TagsArePlainNames(c: Channel, e: Extension)
    ensures IsPlainName(ChannelDisplay(c))
    ensures IsPlainName(ExtensionDisplay(e))
  {
  }

  /**
   * Deserialising a channel name: the variant whose `serde(rename)` name is
   * exactly `s`, and nothing for any other string (serde rejects it).
   */
  function ParseChannel(s: string): (r: Option<Channel>)
    ensures r.Some? ==> ChannelWireName(r.value) == s
    ensures r.None? ==> forall c: Channel :: ChannelWireName(c) != s
  {
    if s == "media" then Some(Media)
    else if s == "nsfw-general" then Some(NsfwGeneral)
    else if s == "furry" then Some(Furry)
    else if s == "futa" then Some(Futa)
    else if s == "yaoi" then Some(Yaoi)
    else if s == "yuri" then Some(Yuri)
    else if s == "traps" then Some(Traps)
    else if s == "irl-3d" then Some(Irl3D)
    else None
  }

  function ParseExtension(s: string): (r: Option<Extension>)
    ensures r.Some? ==> ExtensionWireName(r.value) == s
    ensures r.None? ==> forall e: Extension :: ExtensionWireName(e) != s
  {
    if s == "jpg" then Some(Jpg)
    else if s == "jpeg" then Some(Jpeg)
    else if s == "png" then Some(Png)
    else if s == "webp" then Some(Webp)
    else if s == "gif" then Some(Gif)
    else None
  }

  /** variant -> tag -> variant */
  lemma ChannelRoundTrip(c: Channel)
    ensures ParseChannel(ChannelWireName(c)) == Some(c)
  {
    var r := ParseChannel(ChannelWireName(c));
    ChannelWireNameInjective(r.value, c);
  }

  lemma ExtensionRoundTrip(e: Extension)
    ensures ParseExtension(ExtensionWireName(e)) == Some(e)
  {
    var r := ParseExtension(ExtensionWireName(e));
    ExtensionWireNameInjective(r.value, e);
  }

  /** The position of a variant in the declaration. */
  function ChannelIndex(c: Channel): nat {
    match c
    case Media => 0
    case NsfwGeneral => 1
    case Furry => 2
    case Futa => 3
    case Yaoi => 4
    case Yuri => 5
    case Traps => 6
    case Irl3D => 7
  }

  /** The options offered for selection, in declaration order (`Channel::iter()`). */
  function AllChannels(): (r: seq<Channel>)
    ensures |r| == 8
    ensures forall c: Channel :: ChannelIndex(c) < |r| && r[ChannelIndex(c)] == c
    ensures forall i, j :: 0 <= i < j < |r| ==> r[i] != r[j]
  {
    [Media, NsfwGeneral, Furry, Futa, Yaoi, Yuri, Traps, Irl3D]
  }

  /**
   * A possible answer of the channel multi-select: some of the offered
   * options, each at most once, in the order they are offered.
   */
  predicate IsSelection(cs: seq<Channel>) {
    forall i, j :: 0 <= i < j < |cs| ==> ChannelIndex(cs[i]) < ChannelIndex(cs[j])
  }

  /** A selection is a repeat-free subsequence of the options, so it holds at most all eight. */
  lemma {:induction false} SelectionOfOptions(cs: seq<Channel>)
    requires IsSelection(cs)
    ensures forall i :: 0 <= i < |cs| ==> AllChannels()[ChannelIndex(cs[i])] == cs[i]
    ensures forall i, j :: 0 <= i < j < |cs| ==> cs[i] != cs[j]
    ensures |cs| <= |AllChannels()|
  {
    forall i | 0 <= i < |cs|
      ensures ChannelIndex(cs[i]) >= i
    {
      SelectionIndexAtLeast(cs, i);
    }
    if |cs| > 0 {
      assert ChannelIndex(cs[|cs| - 1]) >= |cs| - 1;
    }
  }

  lemma {:induction false} SelectionIndexAtLeast(cs: seq<Channel>, i: nat)
    requires IsSelection(cs) && i < |cs|
    ensures ChannelIndex(cs[i]) >= i
    decreases i
  {
    if i > 0 {
      SelectionIndexAtLeast(cs, i - 1);
    }
  }
}
