/**
 The byte frame that `package-unica-plugin.py` feeds to SHA-256 for a package tree. The hash itself is not
 part of this model: what is proved is that the preimage determines every path, executable bit and content.
 */
module PackageFrame {
  import opened Wrappers

  type Byte = x: int | 0 <= x < 256
  type Bytes = seq<Byte>

  /** A regular file as the digest sees it. */
  datatype File = File(path: Bytes, executable: bool, content: Bytes)

  /** An entry of the sorted walk over the tree. `mode` is `st_mode`. */
  datatype Entry =
    | Symlink
    | Other
    | Regular(path: Bytes, mode: bv32, content: Bytes)

  datatype Refusal = SymlinkInTree | Overflow

  const CHUNK: nat := 1024 * 1024
  const LIMIT: nat := 0x1_0000_0000_0000_0000

  // ---------- The frame ----------

  /** `n.to_bytes(count, "big")`. */
  function BigEndian(n: nat, count: nat): (r: Bytes)
    ensures |r| == count
  {
    if count == 0 then [] else BigEndian(n / 256, count - 1) + [n % 256]
  }

  function U64(n: nat): (r: Bytes)
    ensures |r| == 8
  {
    BigEndian(n, 8)
  }

  function ModeByte(executable: bool): Byte {
    if executable then 1 else 0
  }

  function FrameOf(file: File): Bytes {
    U64(|file.path|) + (file.path + (U64(|file.content|) + ([ModeByte(file.executable)] + file.content)))
  }

  function Frames(files: seq<File>): Bytes {
    if files == [] then [] else FrameOf(files[0]) + Frames(files[1..])
  }

  predicate Fits(file: File) {
    |file.path| < LIMIT && |file.content| < LIMIT
  }

  /** What the walk digests of a tree: its regular files, in order. */
  function FilesOf(entries: seq<Entry>): seq<File> {
    if entries == [] then []
    else FileOf(entries[0]) + FilesOf(entries[1..])
  }

  /** `0o111`: somebody may execute it. */
  function FileOf(entry: Entry): seq<File> {
    match entry
    case Regular(path, mode, content) => [File(path, mode & 0x49 != 0, content)]
    case _ => []
  }

  /** A symbolic link is refused, and so is a length that eight bytes cannot hold. */
  function RefusalOf(entry: Entry): Option<Refusal> {
    match entry
    case Symlink => Some(SymlinkInTree)
    case Other => None
    case Regular(path, mode, content) => if |path| < LIMIT && |content| < LIMIT then None else Some(Overflow)
  }

  predicate AllDigestible(entries: seq<Entry>) {
    forall entry <- entries :: RefusalOf(entry) == None
  }

  // ---------- The digest loop ----------

  class Digest {
    var preimage: Bytes

    constructor ()
      ensures preimage == []
    {
      preimage := [];
    }

    method Update(bytes: Bytes)
      modifies this
      ensures preimage == old(preimage) + bytes
    {
      preimage := preimage + bytes;
    }

    /** The chunks of one file. */
    method UpdateFrom(content: Bytes)
      modifies this
      ensures preimage == old(preimage) + content
    {
      var position := 0;
      while position < |content|
        invariant 0 <= position <= |content|
        invariant preimage == old(preimage) + content[..position]
      {
        var next := if position + CHUNK < |content| then position + CHUNK else |content|;
        assert content[..next] == content[..position] + content[position..next];
        Update(content[position..next]);
        position := next;
      }
      assert content[..position] == content;
    }

    method UpdateFile(file: File)
      modifies this
      ensures preimage == old(preimage) + FrameOf(file)
    {
      Update(U64(|file.path|));
      Update(file.path);
      Update(U64(|file.content|));
      Update([ModeByte(file.executable)]);
      UpdateFrom(file.content);
      Associates(old(preimage), U64(|file.path|), file.path, U64(|file.content|), [ModeByte(file.executable)],
                 file.content);
    }

    /** One turn of the walk. */
    method UpdateEntry(entry: Entry) returns (refused: Option<Refusal>)
      modifies this
      ensures refused == RefusalOf(entry)
      ensures refused.None? ==> preimage == old(preimage) + Frames(FileOf(entry))
    {
      refused := None;
      match entry
      case Symlink => refused := Some(SymlinkInTree);
      case Other =>
      case Regular(path, mode, content) =>
        var file := File(path, mode & 0x49 != 0, content);
        if Fits(file) {
          UpdateFile(file);
          assert FileOf(entry) == [file] && Frames([file]) == FrameOf(file) + [];
        } else {
          refused := Some(Overflow);
        }
    }
  }

  lemma Associates(a: Bytes, b: Bytes, c: Bytes, d: Bytes, e: Bytes, f: Bytes)
    ensures a + b + c + d + e + f == a + (b + (c + (d + (e + f))))
  {
    Associate(a + b + c + d, e, f);
    Associate(a + b + c, d, e + f);
    Associate(a + b, c, d + (e + f));
    Associate(a, b, c + (d + (e + f)));
  }

  lemma Associate(a: Bytes, b: Bytes, c: Bytes)
    ensures a + b + c == a + (b + c)
  {
  }

  lemma {:induction false} FilesOfNext(entries: seq<Entry>, i: nat)
    requires i < |entries|
    ensures FilesOf(entries[..i + 1]) == FilesOf(entries[..i]) + FileOf(entries[i])
  {
    if i == 0 {
      assert entries[..1] == [entries[0]] && FilesOf([entries[0]]) == FileOf(entries[0]) + FilesOf([]);
    } else {
      FilesOfNext(entries[1..], i - 1);
      assert entries[..i + 1][1..] == entries[1..][..i] && entries[..i][1..] == entries[1..][..i - 1];
    }
  }

  lemma {:induction false} FramesSplit(a: seq<File>, b: seq<File>)
    ensures Frames(a + b) == Frames(a) + Frames(b)
  {
    if a == [] {
      assert a + b == b;
    } else {
      FramesSplit(a[1..], b);
      assert (a + b)[1..] == a[1..] + b;
      Associate(FrameOf(a[0]), Frames(a[1..]), Frames(b));
    }
  }

  lemma FramesNext(entries: seq<Entry>, i: nat)
    requires i < |entries|
    ensures Frames(FilesOf(entries[..i + 1])) == Frames(FilesOf(entries[..i])) + Frames(FileOf(entries[i]))
  {
    FilesOfNext(entries, i);
    FramesSplit(FilesOf(entries[..i]), FileOf(entries[i]));
  }

  /** `package_tree_sha256` up to the hash. */
  method TreePreimage(entries: seq<Entry>) returns (r: Result<Bytes, Refusal>)
    ensures r.Ok? <==> AllDigestible(entries)
    ensures r.Ok? ==> r.value == Frames(FilesOf(entries))
    ensures r.Err? ==> exists entry <- entries :: RefusalOf(entry) == Some(r.error)
  {
    var digest := new Digest();
    var i := 0;
    while i < |entries|
      invariant 0 <= i <= |entries|
      invariant AllDigestible(entries[..i])
      invariant digest.preimage == Frames(FilesOf(entries[..i]))
      invariant fresh(digest)
    {
      FramesNext(entries, i);
      var refused := digest.UpdateEntry(entries[i]);
      if refused.Some? {
        assert entries[i] in entries;
        return Err(refused.value);
      }
      assert entries[..i + 1] == entries[..i] + [entries[i]];
      i := i + 1;
    }
    assert entries[..i] == entries;
    return Ok(digest.preimage);
  }

  // ---------- Reading a frame back ----------

  function Value(bytes: Bytes): nat {
    if bytes == [] then 0 else Value(bytes[..|bytes| - 1]) * 256 + bytes[|bytes| - 1]
  }

  function Pow256(count: nat): nat {
    if count == 0 then 1 else Pow256(count - 1) * 256
  }

  lemma {:induction false} BigEndianReads(n: nat, count: nat)
    requires n < Pow256(count)
    ensures Value(BigEndian(n, count)) == n
  {
    if count > 0 {
      BigEndianReads(n / 256, count - 1);
      var bytes := BigEndian(n, count);
      assert bytes[..|bytes| - 1] == BigEndian(n / 256, count - 1);
    }
  }

  lemma U64Reads(n: nat)
    requires n < LIMIT
    ensures Value(U64(n)) == n
  {
    assert Pow256(4) == 0x1_0000_0000;
    assert Pow256(8) == Pow256(4) * 0x1_0000_0000;
    BigEndianReads(n, 8);
  }

  function DecodeFile(b0: Bytes): (r: Option<(File, Bytes)>)
    ensures r.Some? ==> |r.value.1| < |b0|
  {
    if |b0| < 8 then None else
    var n, b1 := Value(b0[..8]), b0[8..];
    if |b1| < n + 8 then None else
    var path, b2 := b1[..n], b1[n..];
    var size, b3 := Value(b2[..8]), b2[8..];
    if |b3| < 1 + size || b3[0] > 1 then None else
    Some((File(path, b3[0] == 1, b3[1..][..size]), b3[1..][size..]))
  }

  function Decode(bytes: Bytes): Option<seq<File>>
    decreases |bytes|
  {
    if bytes == [] then Some([])
    else
      match DecodeFile(bytes)
      case None => None
      case Some((file, rest)) =>
        match Decode(rest)
        case None => None
        case Some(files) => Some([file] + files)
  }

  lemma Cut(a: Bytes, b: Bytes)
    ensures (a + b)[..|a|] == a && (a + b)[|a|..] == b
  {
  }

  lemma DecodesFile(file: File, rest: Bytes)
    requires Fits(file)
    ensures DecodeFile(FrameOf(file) + rest) == Some((file, rest))
  {
    var mode := [ModeByte(file.executable)];
    var b4 := file.content + rest;
    var b3 := mode + b4;
    var b2 := U64(|file.content|) + b3;
    var b1 := file.path + b2;
    var b0 := U64(|file.path|) + b1;
    assert FrameOf(file) + rest == b0 by {
      Associate(mode, file.content, rest);
      Associate(U64(|file.content|), mode + file.content, rest);
      Associate(file.path, U64(|file.content|) + (mode + file.content), rest);
      Associate(U64(|file.path|), file.path + (U64(|file.content|) + (mode + file.content)), rest);
    }
    Cut(U64(|file.path|), b1);
    Cut(file.path, b2);
    Cut(U64(|file.content|), b3);
    Cut(mode, b4);
    Cut(file.content, rest);
    U64Reads(|file.path|);
    U64Reads(|file.content|);
  }

  predicate AllFit(files: seq<File>) {
    forall file <- files :: Fits(file)
  }

  /** Decoding the frame of any list of files gives the list back. */
  lemma {:induction false} FramesDecode(files: seq<File>)
    requires AllFit(files)
    ensures Decode(Frames(files)) == Some(files)
  {
    if files != [] {
      FramesDecode(files[1..]);
      FirstDecodes(files);
    }
  }

  lemma FirstDecodes(files: seq<File>)
    requires files != [] && Fits(files[0]) && Decode(Frames(files[1..])) == Some(files[1..])
    ensures Decode(Frames(files)) == Some(files)
  {
    DecodesFile(files[0], Frames(files[1..]));
    DecodeStep(FrameOf(files[0]) + Frames(files[1..]), files[0], Frames(files[1..]), files[1..]);
    assert [files[0]] + files[1..] == files;
  }

  lemma DecodeStep(bytes: Bytes, file: File, rest: Bytes, files: seq<File>)
    requires DecodeFile(bytes) == Some((file, rest)) && Decode(rest) == Some(files)
    ensures Decode(bytes) == Some([file] + files)
  {
  }

  /** So the preimage binds the files: different lists have different preimages. */
  lemma FramesAreInjective(a: seq<File>, b: seq<File>)
    requires AllFit(a) && AllFit(b)
    requires Frames(a) == Frames(b)
    ensures a == b
  {
    FramesDecode(a);
    FramesDecode(b);
  }

  /** And nothing is a preimage of a tree but the frames of its files. */
  lemma {:induction false} DecodedIsFramed(bytes: Bytes)
    requires Decode(bytes).Some?
    ensures Frames(Decode(bytes).value) == bytes
    decreases |bytes|
  {
    if bytes != [] {
      var (file, rest) := DecodeFile(bytes).value;
      DecodedIsFramed(rest);
      DecodedFile(bytes);
      var files := Decode(bytes).value;
      assert files[1..] == Decode(rest).value;
    }
  }

  lemma {:induction false} ValueWrites(bytes: Bytes)
    ensures BigEndian(Value(bytes), |bytes|) == bytes
  {
    if bytes != [] {
      ValueWrites(bytes[..|bytes| - 1]);
      assert bytes == bytes[..|bytes| - 1] + [bytes[|bytes| - 1]];
    }
  }

  lemma DecodedFile(b0: Bytes)
    requires DecodeFile(b0).Some?
    ensures b0 == FrameOf(DecodeFile(b0).value.0) + DecodeFile(b0).value.1
  {
    var (file, rest) := DecodeFile(b0).value;
    var n, b1 := Value(b0[..8]), b0[8..];
    var b2 := b1[n..];
    var b3 := b2[8..];
    ValueWrites(b0[..8]);
    ValueWrites(b2[..8]);
    var mode := [ModeByte(file.executable)];
    assert b3 == mode + (file.content + rest);
    Associate(mode, file.content, rest);
    assert b2 == U64(|file.content|) + b3;
    Associate(U64(|file.content|), mode + file.content, rest);
    assert b1 == file.path + b2;
    Associate(file.path, U64(|file.content|) + (mode + file.content), rest);
    assert b0 == U64(|file.path|) + b1;
    Associate(U64(|file.path|), file.path + (U64(|file.content|) + (mode + file.content)), rest);
  }

  lemma {:induction false} DigestibleFits(entries: seq<Entry>)
    requires AllDigestible(entries)
    ensures AllFit(FilesOf(entries))
  {
    if entries != [] {
      assert entries[0] in entries && RefusalOf(entries[0]) == None;
      DigestibleFits(entries[1..]);
    }
  }

  /** Two walks that are digested alike hold the same paths, executable bits and contents, in the same order. */
  lemma PreimageBindsTheTree(a: seq<Entry>, b: seq<Entry>)
    requires AllDigestible(a) && AllDigestible(b)
    requires Frames(FilesOf(a)) == Frames(FilesOf(b))
    ensures FilesOf(a) == FilesOf(b)
  {
    DigestibleFits(a);
    DigestibleFits(b);
    FramesAreInjective(FilesOf(a), FilesOf(b));
  }
}
