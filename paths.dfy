/**
 * Where an item is stored: `root / <channel> / "<id>.<extension>"`.
 *
 * A path is kept as its list of components; `Join` follows the Unix rule of
 * `PathBuf::join`, which appends a relative component and lets one starting
 * with `/` replace the whole path (Windows drive prefixes and `\` are not
 * modelled; no component this program joins has them). The components this program joins are never absolute, which
 * is what the lemmas below rely on.
 */
module Paths {
  import opened Numbers
  import opened Tags
  import opened Items

  datatype Path = Path(parts: seq<string>)

  function Join(p: Path, c: string): Path {
    if |c| > 0 && c[0] == '/' then Path([c]) else Path(p.parts + [c])
  }

  /** The path without its last component. */
  function Parent(p: Path): Path {
    if p.parts == [] then p else Path(p.parts[..|p.parts| - 1])
  }

  /** The folder of one channel: `root.join(channel.to_string())`. */
  function ChannelDir(root: Path, c: Channel): (r: Path)
    ensures r.parts == root.parts + [ChannelDisplay(c)]
  {
    TagsArePlainNames(c, Jpg);
    Join(root, ChannelDisplay(c))
  }

  /** `format!("{}.{}", id, extension)` */
  function FileName(id: i64, e: Extension): string {
    IntToDecimal(id as int) + "." + ExtensionDisplay(e)
  }

  /** The file name starts with a sign or a digit, so it is never an absolute component. */
  lemma FileNameIsRelative(id: i64, e: Extension)
    ensures |FileName(id, e)| > 0 && FileName(id, e)[0] != '/'
  {
    assert FileName(id, e)[0] == IntToDecimal(id as int)[0];
  }

  /** Splitting `x + "." + y` at its one dot, when neither side holds a dot. */
  lemma DotSplitUnique(x1: string, y1: string, x2: string, y2: string)
    requires forall k :: 0 <= k < |x1| ==> x1[k] != '.'
    requires forall k :: 0 <= k < |x2| ==> x2[k] != '.'
    requires x1 + "." + y1 == x2 + "." + y2
    ensures x1 == x2 && y1 == y2
  {
    var s := x1 + "." + y1;
    assert |x1| == |x2| by {
      assert s[|x1|] == '.' && s[|x2|] == '.';
    }
    assert x1 == s[..|x1|] == x2;
    assert y1 == s[|x1| + 1..] == y2;
  }

  /** Distinct (id, extension) pairs give distinct file names. */
  lemma FileNameInjective(a: i64, ea: Extension, b: i64, eb: Extension)
    ensures FileName(a, ea) == FileName(b, eb) <==> a == b && ea == eb
  {
    if FileName(a, ea) == FileName(b, eb) {
      DotSplitUnique(IntToDecimal(a as int), ExtensionDisplay(ea), IntToDecimal(b as int), ExtensionDisplay(eb));
      IntToDecimalInjective(a as int, b as int);
      ExtensionDisplayIsWireName(ea);
      ExtensionDisplayIsWireName(eb);
      ExtensionWireNameInjective(ea, eb);
    }
  }

  /** Where an item is written: two components below the chosen root. */
  function DestinationPath(root: Path, d: Data): (r: Path)
    ensures r.parts == root.parts + [ChannelDisplay(d.channel), FileName(d.id, d.extension)]
    ensures Parent(r) == ChannelDir(root, d.channel)
  {
    FileNameIsRelative(d.id, d.extension);
    var r := Join(ChannelDir(root, d.channel), FileName(d.id, d.extension));
    assert r.parts[..|r.parts| - 1] == root.parts + [ChannelDisplay(d.channel)];
    r
  }

  /**
   * Two items share a destination exactly when they agree on channel, id
   * and extension: writes of distinct items never target the same file.
   */
  lemma DestinationInjective(root: Path, a: Data, b: Data)
    ensures DestinationPath(root, a) == DestinationPath(root, b)
            <==> a.channel == b.channel && a.id == b.id && a.extension == b.extension
  {
    var pa, pb := DestinationPath(root, a).parts, DestinationPath(root, b).parts;
    if pa == pb {
      assert pa[|root.parts|] == ChannelDisplay(a.channel) && pb[|root.parts|] == ChannelDisplay(b.channel);
      assert pa[|root.parts| + 1] == FileName(a.id, a.extension) && pb[|root.parts| + 1] == FileName(b.id, b.extension);
      ChannelDisplayIsWireName(a.channel);
      ChannelDisplayIsWireName(b.channel);
      ChannelWireNameInjective(a.channel, b.channel);
      FileNameInjective(a.id, a.extension, b.id, b.extension);
    }
  }

  /** Distinct channels have distinct folders. */
  lemma ChannelDirInjective(root: Path, a: Channel, b: Channel)
    ensures ChannelDir(root, a) == ChannelDir(root, b) <==> a == b
  {
    if ChannelDir(root, a) == ChannelDir(root, b) {
      assert ChannelDir(root, a).parts[|root.parts|] == ChannelDisplay(a);
      ChannelDisplayIsWireName(a);
      ChannelDisplayIsWireName(b);
      ChannelWireNameInjective(a, b);
    }
  }
}
