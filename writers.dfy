/** The `tar` writer the node service fills entry by entry when it builds a
    bundle (the gzip layer and the byte encoding of the archive are not
    modelled). */
module Writers {
  import opened Text
  import opened NodeText

  /** `archive/tar`'s writer: each header and its content become one member. */
  class TarWriter {
    var entries: seq<TarEntry>

    constructor()
      ensures entries == []
    {
      entries := [];
    }

    method Add(name: string, mode: int, content: string)
      modifies this
      ensures entries == old(entries) + [TarEntry(name, mode, content)]
    {
      entries := entries + [TarEntry(name, mode, content)];
    }
  }
}
