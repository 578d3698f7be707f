/** `updateWavLength` of nabu.misc.sound.Services: repairs the size fields of a
    RIFF/WAVE buffer that was written by a streaming producer which did not know
    its final length. The top-level RIFF size at offset 4 is always rewritten; the
    chunk id at [36, 40) then decides whether the "data" size at offset 40 or the
    size field at offset 74 of the producer's "LIST" layout is rewritten too. */
module WavHeader {
  import opened LittleEndian

  const RIFF_SIZE_OFFSET: nat := 4
  const CHUNK_ID_OFFSET: nat := 36
  const DATA_SIZE_OFFSET: nat := 40
  const LIST_SIZE_OFFSET: nat := 74
  /** The largest length of a Java array. */
  const MAX_ARRAY_LENGTH: nat := 0x7FFF_FFFF

  /** What the chunk id at [36, 40) names. */
  datatype ChunkKind = DataChunk | ListChunk | OtherChunk

  /** Java's `new String(bytes, Charset.forName("ASCII"))`: bytes below 128 are
      their ASCII character, every other byte decodes to U+FFFD. */
  function DecodeAscii(bytes: seq<byte>): (s: string)
    ensures |s| == |bytes|
  {
    seq(|bytes|, i requires 0 <= i < |bytes| =>
      if bytes[i] < 128 then (bytes[i] as int) as char else '\U{FFFD}')
  }

  function ToUpper(c: char): char
  {
    if 'a' <= c <= 'z' then ((c as int) - 32) as char else c
  }

  function ToLower(c: char): char
  {
    if 'A' <= c <= 'Z' then ((c as int) + 32) as char else c
  }

  /** One step of Java's `String.equalsIgnoreCase`, with the case maps of ASCII. */
  predicate CharsEqualIgnoreCase(c: char, d: char)
  {
    c == d || ToUpper(c) == ToUpper(d) || ToLower(ToUpper(c)) == ToLower(ToUpper(d))
  }

  /** Java's `a.equalsIgnoreCase(b)`. */
  predicate EqualsIgnoreCase(a: string, b: string)
  {
    |a| == |b| && forall i :: 0 <= i < |a| ==> CharsEqualIgnoreCase(a[i], b[i])
  }

  /** Byte b is the lower-case ASCII letter c, in lower or in upper case. */
  predicate LetterIgnoringCase(b: byte, c: char)
  {
    b as int == c as int || b as int == c as int - 32
  }

  /** Each byte of the 4-byte `id` is the letter of the lower-case `word` at its
      position, in lower or in upper case. */
  predicate SpellsIgnoringCase(id: seq<byte>, word: string)
    requires |id| == |word| == 4
  {
    LetterIgnoringCase(id[0], word[0]) && LetterIgnoringCase(id[1], word[1]) &&
    LetterIgnoringCase(id[2], word[2]) && LetterIgnoringCase(id[3], word[3])
  }

  /** The chunk id at [36, 40), compared with "data" and then "list". */
  function ChunkKindOf(s: seq<byte>): (k: ChunkKind)
    requires |s| >= CHUNK_ID_OFFSET + 4
    ensures k == DataChunk <==> SpellsIgnoringCase(s[CHUNK_ID_OFFSET..CHUNK_ID_OFFSET + 4], "data")
    ensures k == ListChunk <==>
              !SpellsIgnoringCase(s[CHUNK_ID_OFFSET..CHUNK_ID_OFFSET + 4], "data") &&
              SpellsIgnoringCase(s[CHUNK_ID_OFFSET..CHUNK_ID_OFFSET + 4], "list")
  {
    var bytes := s[CHUNK_ID_OFFSET..CHUNK_ID_OFFSET + 4];
    MatchesIgnoringCase(bytes, "data");
    MatchesIgnoringCase(bytes, "list");
    var id := DecodeAscii(bytes);
    if EqualsIgnoreCase(id, "data") then DataChunk
    else if EqualsIgnoreCase(id, "list") then ListChunk
    else OtherChunk
  }

  /** The kind is the outcome of the two string comparisons the source makes. */
  lemma ChunkKindAgrees(s: seq<byte>)
    requires |s| >= CHUNK_ID_OFFSET + 4
    ensures ChunkKindOf(s) == DataChunk <==>
              EqualsIgnoreCase(DecodeAscii(s[CHUNK_ID_OFFSET..CHUNK_ID_OFFSET + 4]), "data")
    ensures ChunkKindOf(s) == ListChunk <==>
              !EqualsIgnoreCase(DecodeAscii(s[CHUNK_ID_OFFSET..CHUNK_ID_OFFSET + 4]), "data") &&
              EqualsIgnoreCase(DecodeAscii(s[CHUNK_ID_OFFSET..CHUNK_ID_OFFSET + 4]), "list")
  {
  }

  /** A chunk id matches a lower-case word ignoring case exactly when each of its
      bytes is that letter in lower or in upper case. */
  lemma MatchesIgnoringCase(id: seq<byte>, word: string)
    requires |id| == |word| == 4
    requires forall i :: 0 <= i < |word| ==> 'a' <= word[i] <= 'z'
    ensures EqualsIgnoreCase(DecodeAscii(id), word) <==> SpellsIgnoringCase(id, word)
  {
    var a := DecodeAscii(id);
    if EqualsIgnoreCase(a, word) {
      forall i | 0 <= i < |id|
        ensures LetterIgnoringCase(id[i], word[i])
      {
        assert CharsEqualIgnoreCase(a[i], word[i]);
      }
    }
    if SpellsIgnoringCase(id, word) {
      assert forall i :: 0 <= i < 4 ==> LetterIgnoringCase(id[i], word[i]);
      forall i | 0 <= i < |id| ensures CharsEqualIgnoreCase(a[i], word[i]) {
        assert ToUpper(a[i]) == ToUpper(word[i]);
      }
    }
  }

  /** What the source demands of a buffer: a Java array holding at least the
      44-byte canonical header, and the 78 bytes of the "LIST" layout when the id
      at [36, 40) is "list". */
  predicate Patchable(s: seq<byte>)
  {
    44 <= |s| <= MAX_ARRAY_LENGTH &&
    (ChunkKindOf(s) == ListChunk ==> |s| >= LIST_SIZE_OFFSET + 4)
  }

  /** The buffer `updateWavLength` leaves behind. The id is read after the RIFF
      size has been written, as the source does. */
  function PatchedHeader(s: seq<byte>): (r: seq<byte>)
    requires Patchable(s)
    ensures |r| == |s|
  {
    var filesize := |s| - 8;
    var s1 := Overwrite(s, RIFF_SIZE_OFFSET, Encode(filesize));
    assert s1[CHUNK_ID_OFFSET..CHUNK_ID_OFFSET + 4] == s[CHUNK_ID_OFFSET..CHUNK_ID_OFFSET + 4];
    match ChunkKindOf(s1)
    case DataChunk => Overwrite(s1, DATA_SIZE_OFFSET, Encode(|s1| - 44))
    case ListChunk => Overwrite(s1, LIST_SIZE_OFFSET, Encode(filesize - 8))
    case OtherChunk => s1
  }

  /** Java's `updateWavLength(content)`, in place. */
  method UpdateWavLength(content: array<byte>)
    requires Patchable(content[..])
    modifies content
    ensures content[..] == PatchedHeader(old(content[..]))
  {
    ghost var original := content[..];
    var filesize := content.Length - 8;
    WriteInt(filesize, content, RIFF_SIZE_OFFSET);
    ghost var sized := content[..];
    assert sized == Overwrite(original, RIFF_SIZE_OFFSET, Encode(filesize));
    assert sized[CHUNK_ID_OFFSET..CHUNK_ID_OFFSET + 4] == original[CHUNK_ID_OFFSET..CHUNK_ID_OFFSET + 4];
    var chunkId := DecodeAscii(content[CHUNK_ID_OFFSET..CHUNK_ID_OFFSET + 4]);
    ChunkKindAgrees(sized);
    if EqualsIgnoreCase(chunkId, "data") {
      WriteInt(content.Length - 44, content, DATA_SIZE_OFFSET);
    } else if EqualsIgnoreCase(chunkId, "list") {
      WriteInt(filesize - 8, content, LIST_SIZE_OFFSET);
    }
  }

  /** Position j lies outside the 4-byte field at `offset`. */
  predicate OutsideField(j: int, offset: nat)
  {
    !(offset <= j < offset + 4)
  }

  /** The chunk id is never written, so the kind of chunk is kept. */
  lemma ChunkIdKept(s: seq<byte>)
    requires Patchable(s)
    ensures PatchedHeader(s)[CHUNK_ID_OFFSET..CHUNK_ID_OFFSET + 4] == s[CHUNK_ID_OFFSET..CHUNK_ID_OFFSET + 4]
    ensures ChunkKindOf(PatchedHeader(s)) == ChunkKindOf(s)
  {
    var r := PatchedHeader(s);
    assert r[CHUNK_ID_OFFSET..CHUNK_ID_OFFSET + 4] == s[CHUNK_ID_OFFSET..CHUNK_ID_OFFSET + 4];
  }

  /** After the patch the RIFF size field reads the buffer length minus 8. */
  lemma RiffSizePatched(s: seq<byte>)
    requires Patchable(s)
    ensures Decode(PatchedHeader(s)[RIFF_SIZE_OFFSET..RIFF_SIZE_OFFSET + 4]) == |s| - 8
  {
    var s1 := Overwrite(s, RIFF_SIZE_OFFSET, Encode(|s| - 8));
    var r := PatchedHeader(s);
    assert r[RIFF_SIZE_OFFSET..RIFF_SIZE_OFFSET + 4] == s1[RIFF_SIZE_OFFSET..RIFF_SIZE_OFFSET + 4];
    DecodeEncode(|s| - 8);
  }

  /** With a "data" chunk at 36 the data size reads the length minus 44, and
      every byte outside the two size fields is kept. */
  lemma DataSizePatched(s: seq<byte>)
    requires Patchable(s) && ChunkKindOf(s) == DataChunk
    ensures Decode(PatchedHeader(s)[DATA_SIZE_OFFSET..DATA_SIZE_OFFSET + 4]) == |s| - 44
    ensures forall j :: 0 <= j < |s| && OutsideField(j, RIFF_SIZE_OFFSET) && OutsideField(j, DATA_SIZE_OFFSET) ==>
      PatchedHeader(s)[j] == s[j]
  {
    ChunkIdKept(s);
    DecodeEncode(|s| - 44);
  }

  /** With a "list" chunk at 36 the field at 74 reads the length minus 16, and
      every byte outside the two size fields is kept. */
  lemma ListSizePatched(s: seq<byte>)
    requires Patchable(s) && ChunkKindOf(s) == ListChunk
    ensures Decode(PatchedHeader(s)[LIST_SIZE_OFFSET..LIST_SIZE_OFFSET + 4]) == |s| - 16
    ensures forall j :: 0 <= j < |s| && OutsideField(j, RIFF_SIZE_OFFSET) && OutsideField(j, LIST_SIZE_OFFSET) ==>
      PatchedHeader(s)[j] == s[j]
  {
    ChunkIdKept(s);
    DecodeEncode(|s| - 16);
  }

  /** Any other id: only the RIFF size field changes. */
  lemma OtherChunkOnlyRiffSize(s: seq<byte>)
    requires Patchable(s) && ChunkKindOf(s) == OtherChunk
    ensures forall j :: 0 <= j < |s| && OutsideField(j, RIFF_SIZE_OFFSET) ==> PatchedHeader(s)[j] == s[j]
  {
    ChunkIdKept(s);
  }

  /** Patching twice is patching once: every value written is recomputed from
      the length, which the patch keeps, and the id that picks the fields is kept. */
  lemma PatchIdempotent(s: seq<byte>)
    requires Patchable(s)
    ensures Patchable(PatchedHeader(s))
    ensures PatchedHeader(PatchedHeader(s)) == PatchedHeader(s)
  {
    var r := PatchedHeader(s);
    ChunkIdKept(s);
    assert Overwrite(r, RIFF_SIZE_OFFSET, Encode(|r| - 8)) == r by {
      assert r[RIFF_SIZE_OFFSET..RIFF_SIZE_OFFSET + 4] == Encode(|s| - 8);
      OverwriteSame(r, RIFF_SIZE_OFFSET, Encode(|s| - 8));
    }
    match ChunkKindOf(s)
    case DataChunk =>
      assert Overwrite(r, DATA_SIZE_OFFSET, Encode(|r| - 44)) == r by {
        assert r[DATA_SIZE_OFFSET..DATA_SIZE_OFFSET + 4] == Encode(|s| - 44);
        OverwriteSame(r, DATA_SIZE_OFFSET, Encode(|s| - 44));
      }
    case ListChunk =>
      assert Overwrite(r, LIST_SIZE_OFFSET, Encode(|r| - 16)) == r by {
        assert r[LIST_SIZE_OFFSET..LIST_SIZE_OFFSET + 4] == Encode(|s| - 16);
        OverwriteSame(r, LIST_SIZE_OFFSET, Encode(|s| - 16));
      }
    case OtherChunk =>
  }

  /** A 48-byte buffer with "data" at 36: the RIFF size reads 40 and the data
      size reads 4. */
  lemma ShortDataBuffer(s: seq<byte>)
    requires |s| == 48
    requires s[36] as int == 'd' as int && s[37] as int == 'a' as int
    requires s[38] as int == 't' as int && s[39] as int == 'a' as int
    ensures Patchable(s) && ChunkKindOf(s) == DataChunk
    ensures Decode(PatchedHeader(s)[4..8]) == 40
    ensures Decode(PatchedHeader(s)[40..44]) == 4
  {
    RiffSizePatched(s);
    DataSizePatched(s);
  }
}
