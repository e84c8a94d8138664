/**
 * Chunk identity (`SantanderVectorDB._generate_chunk_id`): the source name,
 * the page and the first eight hexadecimal digits of the content's MD5 digest,
 * joined by underscores. The digest itself is a parameter (`md5Hex` maps a
 * text to the hexadecimal MD5 digest of its UTF-8 bytes).
 */
module ChunkIds {
  import opened Wrappers
  import opened Text
  import opened Records

  /** Python's `hexdigest[:8]`. */
  function DigestPrefix(hex: string): string {
    if |hex| <= 8 then hex else hex[..8]
  }

  /** `f"{source}_{page}"` with `'unknown'` and `0` for missing keys. */
  function SourceInfo(metadata: Metadata): string {
    metadata.source.GetOr("unknown") + "_" + IntToString(metadata.page.GetOr(0))
  }

  function GenerateChunkId(content: string, metadata: Metadata, md5Hex: string -> string): (id: string)
    ensures StartsWith(id, metadata.source.GetOr("unknown") + "_")
    ensures |md5Hex(content)| >= 8 ==> EndsWith(id, "_" + md5Hex(content)[..8])
  {
    var id := SourceInfo(metadata) + "_" + DigestPrefix(md5Hex(content));
    assert id == metadata.source.GetOr("unknown") + "_" + (IntToString(metadata.page.GetOr(0)) + "_" + DigestPrefix(md5Hex(content)));
    id
  }

  /** Only the source, the page and the content enter the id: the sheet, row range, type and timestamp do not. */
  lemma ChunkIdIgnoresOtherKeys(content: string, m1: Metadata, m2: Metadata, md5Hex: string -> string)
    requires m1.source == m2.source && m1.page == m2.page
    ensures GenerateChunkId(content, m1, md5Hex) == GenerateChunkId(content, m2, md5Hex)
  {
  }

  /** A record with neither source nor page gets the id prefix "unknown_0_". */
  lemma ChunkIdDefaults(content: string, m: Metadata, md5Hex: string -> string)
    requires m.source.None? && m.page.None?
    ensures StartsWith(GenerateChunkId(content, m, md5Hex), "unknown_0_")
  {
    assert IntToString(0) == "0";
  }

  /** Two chunks of the same source on different pages never share an id, whatever their contents. */
  lemma ChunkIdSeparatesPages(c1: string, m1: Metadata, c2: string, m2: Metadata, md5Hex: string -> string)
    requires m1.source == m2.source
    requires |md5Hex(c1)| >= 8 && |md5Hex(c2)| >= 8
    requires m1.page.GetOr(0) != m2.page.GetOr(0)
    ensures GenerateChunkId(c1, m1, md5Hex) != GenerateChunkId(c2, m2, md5Hex)
  {
    var p := m1.source.GetOr("unknown") + "_";
    var a, b := IntToString(m1.page.GetOr(0)), IntToString(m2.page.GetOr(0));
    var h1, h2 := DigestPrefix(md5Hex(c1)), DigestPrefix(md5Hex(c2));
    var id1, id2 := GenerateChunkId(c1, m1, md5Hex), GenerateChunkId(c2, m2, md5Hex);
    assert id1 == p + (a + "_" + h1);
    assert id2 == p + (b + "_" + h2);
    if id1 == id2 {
      assert a + "_" + h1 == id1[|p|..] == b + "_" + h2;
      SamePrefix(a, b, h1, h2);
      IntToStringInjective(m1.page.GetOr(0), m2.page.GetOr(0));
    }
  }

  /** Two equal texts `a_h` and `b_h'` with equally long tails have equal heads. */
  lemma SamePrefix(a: string, b: string, h1: string, h2: string)
    requires |h1| == |h2| && a + "_" + h1 == b + "_" + h2
    ensures a == b
  {
    assert a == (a + "_" + h1)[..|a|];
    assert b == (b + "_" + h2)[..|b|];
  }

  /** Same source and page but digests that differ in their first eight digits give different ids. */
  lemma ChunkIdSeparatesContent(c1: string, c2: string, m: Metadata, md5Hex: string -> string)
    requires |md5Hex(c1)| >= 8 && |md5Hex(c2)| >= 8
    requires md5Hex(c1)[..8] != md5Hex(c2)[..8]
    ensures GenerateChunkId(c1, m, md5Hex) != GenerateChunkId(c2, m, md5Hex)
  {
    var p := SourceInfo(m) + "_";
    var id1, id2 := GenerateChunkId(c1, m, md5Hex), GenerateChunkId(c2, m, md5Hex);
    assert id1[|p|..] == md5Hex(c1)[..8];
    assert id2[|p|..] == md5Hex(c2)[..8];
  }
}
