/** The item URI rule of the metadata store. */
module Metadata {

  /** The URI reported for an item: the base URI followed by the item's own URI,
      or the empty string when the item has no URI of its own. */
  function ComposeUri(base: string, own: string): (uri: string)
    ensures own == [] <==> uri == []
    ensures own != [] ==> |uri| == |base| + |own| && uri[..|base|] == base && uri[|base|..] == own
  {
    if own == [] then [] else base + own
  }
}
