/**
 The bootstrap manifest digest: the bytes that are hashed, what they determine, and when the digest of a
 repository seed does not depend on the order its files are listed in.
 */
module Manifest {
  import opened Wrappers

  type Byte = b: int | 0 <= b < 256

  datatype File = File(path: seq<Byte>, content: seq<Byte>)

  /** SHA-256, taken as injective: the digest stands for the bytes hashed. */
  datatype Digest = Sha256(hashed: seq<Byte>)

  /** "agx.bootstrap-manifest/v1" and a zero byte. */
  const PREFIX: seq<Byte> :=
    [97, 103, 120, 46, 98, 111, 111, 116, 115, 116, 114, 97, 112, 45, 109, 97, 110, 105, 102, 101, 115, 116, 47, 118,
     49, 0]

  const TWO_TO_64 := 0x1_0000_0000_0000_0000

  // ---------------------------------------------------------------- lengths

  /** The low `width` bytes of `n`, most significant first. */
  function BigEndian(n: nat, width: nat): (bytes: seq<Byte>)
    ensures |bytes| == width
    decreases width
  {
    if width == 0 then [] else BigEndian(n / 256, width - 1) + [n % 256]
  }

  function Number(bytes: seq<Byte>): nat {
    if bytes == [] then 0 else Number(bytes[..|bytes| - 1]) * 256 + bytes[|bytes| - 1]
  }

  function Power(width: nat): nat {
    if width == 0 then 1 else 256 * Power(width - 1)
  }

  lemma {:induction false} NumberRoundTrip(n: nat, width: nat)
    requires n < Power(width)
    ensures Number(BigEndian(n, width)) == n
    decreases width
  {
    if width > 0 {
      assert n / 256 < Power(width - 1);
      NumberRoundTrip(n / 256, width - 1);
      assert BigEndian(n, width)[..width - 1] == BigEndian(n / 256, width - 1);
    }
  }

  lemma EightBytes()
    ensures Power(8) == TWO_TO_64
  {}

  // ---------------------------------------------------------------- the manifest

  function Chunk(bytes: seq<Byte>): seq<Byte> {
    BigEndian(|bytes|, 8) + bytes
  }

  function Entry(file: File): seq<Byte> {
    Chunk(file.path) + Chunk(file.content)
  }

  function Entries(files: seq<File>): seq<Byte> {
    if files == [] then [] else Entry(files[0]) + Entries(files[1..])
  }

  function Frame(files: seq<File>): seq<Byte> {
    PREFIX + Entries(files)
  }

  /** A length and that many bytes, and what follows them. */
  function ReadChunk(bytes: seq<Byte>): (chunk: Option<(seq<Byte>, seq<Byte>)>)
    ensures chunk.Some? ==> |chunk.value.1| < |bytes|
  {
    if |bytes| < 8 then None
    else
      var n := Number(bytes[..8]);
      if 8 + n > |bytes| then None else Some((bytes[8..8 + n], bytes[8 + n..]))
  }

  function Decode(bytes: seq<Byte>): Option<seq<File>>
    decreases |bytes|
  {
    if bytes == [] then Some([])
    else
      var path := ReadChunk(bytes);
      if path.None? then None
      else
        var content := ReadChunk(path.value.1);
        if content.None? then None
        else
          var rest := Decode(content.value.1);
          if rest.None? then None else Some([File(path.value.0, content.value.0)] + rest.value)
  }

  predicate Short(bytes: seq<Byte>) {
    |bytes| < TWO_TO_64
  }

  predicate AllShort(files: seq<File>) {
    forall i :: 0 <= i < |files| ==> Short(files[i].path) && Short(files[i].content)
  }

  lemma ChunkRead(bytes: seq<Byte>, rest: seq<Byte>)
    requires Short(bytes)
    ensures ReadChunk(Chunk(bytes) + rest) == Some((bytes, rest))
  {
    hide BigEndian, Number;
    EightBytes();
    NumberRoundTrip(|bytes|, 8);
    var all := Chunk(bytes) + rest;
    assert all[..8] == BigEndian(|bytes|, 8);
    assert all[8..8 + |bytes|] == bytes && all[8 + |bytes|..] == rest;
  }

  /** The bytes hashed can be taken apart again into the files they were made of. */
  lemma {:induction false} DecodeRoundTrip(files: seq<File>)
    requires AllShort(files)
    ensures Decode(Entries(files)) == Some(files)
    decreases |files|
  {
    hide Chunk, ReadChunk;
    if files != [] {
      var file := files[0];
      var rest := Entries(files[1..]);
      assert Entries(files) == Chunk(file.path) + (Chunk(file.content) + rest);
      ChunkRead(file.path, Chunk(file.content) + rest);
      ChunkRead(file.content, rest);
      DecodeRoundTrip(files[1..]);
      assert [file] + files[1..] == files;
      assert Entries(files) != [] by { NotEmpty(file.path); }
    }
  }

  lemma NotEmpty(bytes: seq<Byte>)
    ensures Chunk(bytes) != []
  {
  }

  /** Two file lists have the same manifest only if they are the same list. */
  lemma FrameIsInjective(a: seq<File>, b: seq<File>)
    requires AllShort(a) && AllShort(b) && Frame(a) == Frame(b)
    ensures a == b
  {
    hide Decode, Entries, AllShort;
    assert Frame(a)[|PREFIX|..] == Entries(a) && Frame(b)[|PREFIX|..] == Entries(b);
    DecodeRoundTrip(a);
    DecodeRoundTrip(b);
  }

  // ---------------------------------------------------------------- hashing it

  class Hash {
    var written: seq<Byte>

    constructor ()
      ensures written == []
    {
      written := [];
    }

    method Write(bytes: seq<Byte>)
      modifies this
      ensures written == old(written) + bytes
    {
      written := written + bytes;
    }

    method Sum() returns (digest: Digest)
      ensures digest == Sha256(written)
    {
      digest := Sha256(written);
    }
  }

  /** Fills an eight-byte buffer from its end. */
  method PutUint64(buffer: array<Byte>, n: nat)
    requires buffer.Length == 8
    modifies buffer
    ensures buffer[..] == BigEndian(n, 8)
  {
    var rest, i := n, 8;
    while i > 0
      invariant 0 <= i <= 8
      invariant BigEndian(rest, i) + buffer[i..] == BigEndian(n, 8)
    {
      i := i - 1;
      ghost var after := buffer[i + 1..];
      buffer[i] := rest % 256;
      assert buffer[i..] == [rest % 256] + after;
      assert BigEndian(rest, i + 1) + after == BigEndian(rest / 256, i) + ([rest % 256] + after);
      rest := rest / 256;
    }
    assert buffer[0..] == buffer[..];
  }

  /** One file: both of its parts behind their lengths, which share one buffer. */
  method WriteEntry(hash: Hash, length: array<Byte>, file: File)
    requires length.Length == 8
    modifies hash, length
    ensures hash.written == old(hash.written) + Entry(file)
  {
    hide BigEndian;
    PutUint64(length, |file.path|);
    hash.Write(length[..]);
    hash.Write(file.path);
    PutUint64(length, |file.content|);
    hash.Write(length[..]);
    hash.Write(file.content);
    assert hash.written == old(hash.written) + (Chunk(file.path) + Chunk(file.content));
  }

  /** Hashes the files in the order given. */
  method ManifestDigest(files: seq<File>) returns (digest: Digest)
    ensures digest == Sha256(Frame(files))
  {
    hide Entry;
    var hash := new Hash();
    hash.Write(PREFIX);
    var length := new Byte[8];
    for i := 0 to |files|
      invariant hash.written == PREFIX + Entries(files[..i])
    {
      WriteEntry(hash, length, files[i]);
      EntriesSnoc(files[..i], files[i]);
      assert files[..i + 1] == files[..i] + [files[i]];
    }
    assert files[..|files|] == files;
    digest := hash.Sum();
  }

  lemma {:induction false} EntriesSnoc(files: seq<File>, file: File)
    ensures Entries(files + [file]) == Entries(files) + Entry(file)
    decreases |files|
  {
    hide Entry;
    if files == [] {
      assert Entries([file]) == Entry(file) + Entries([]);
      assert [file][1..] == [] && [] + [file] == [file];
    } else {
      EntriesSnoc(files[1..], file);
      assert (files + [file])[1..] == files[1..] + [file];
    }
  }
}
