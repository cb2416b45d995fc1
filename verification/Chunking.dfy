/** Cutting a file into packets' payloads. */
module Chunking {
  import opened Seqs
  import opened Arithmetic

  type Bytes = string

  /** default_payload: the payload of a full packet. */
  const PAYLOAD: nat := 8192

  /** expected_packets = (file_size + default_payload - 1) / default_payload */
  function ExpectedPackets(size: nat, b: nat): nat
    requires b > 0
  {
    (size + b - 1) / b
  }

  function Chunks(file: Bytes, b: nat): seq<Bytes>
    requires b > 0
  {
    if file == [] then []
    else if |file| <= b then [file]
    else [file[..b]] + Chunks(file[b..], b)
  }

  /** A cutting of `file`: pieces of `b` bytes, except that the last one may be shorter, and no
      piece is empty. */
  ghost predicate IsCutting(pieces: seq<Bytes>, file: Bytes, b: nat) {
    && Flatten(pieces) == file
    && (forall i :: 0 <= i < |pieces| ==> 0 < |pieces[i]| <= b)
    && (forall i :: 0 <= i < |pieces| - 1 ==> |pieces[i]| == b)
  }

  lemma {:induction false} ChunksCut(file: Bytes, b: nat)
    requires b > 0
    ensures IsCutting(Chunks(file, b), file, b)
  {
    if |file| > b {
      ChunksCut(file[b..], b);
      assert file == file[..b] + file[b..];
    } else if file != [] {
      assert Flatten([file]) == file + Flatten<char>([]);
    }
  }

  /** There is only one cutting of a file. */
  lemma {:induction false} CuttingUnique(pieces: seq<Bytes>, file: Bytes, b: nat)
    requires b > 0 && IsCutting(pieces, file, b)
    ensures pieces == Chunks(file, b)
  {
    if pieces != [] {
      var rest := pieces[1..];
      assert file == pieces[0] + Flatten(rest);
      if rest == [] {
        assert file == pieces[0];
      } else {
        assert Flatten(rest) == rest[0] + Flatten(rest[1..]);
        assert file[..b] == pieces[0] && file[b..] == Flatten(rest);
        CuttingUnique(rest, file[b..], b);
      }
    }
  }

  lemma {:induction false} ChunkCount(file: Bytes, b: nat)
    requires b > 0
    ensures |Chunks(file, b)| == ExpectedPackets(|file|, b)
  {
    if |file| > b {
      ChunkCount(file[b..], b);
      assert |file| + b - 1 == (|file[b..]| + b - 1) + b;
      DivStep(|file[b..]| + b - 1, b);
    } else if file != [] {
      DivStep(|file| - 1, b);
      assert (|file| - 1) / b == 0;
    } else {
      assert (b - 1) / b == 0;
    }
  }

  lemma DivStep(n: nat, b: nat)
    requires b > 0
    ensures (n + b) / b == n / b + 1
  {
    var q, r := n / b, n % b;
    assert n + b == (q + 1) * b + r;
    QuotientUnique(n + b, b, q + 1, r);
  }

  const MAX_INT32: int := 0x7FFF_FFFF

  /** The last sequence number of a file fits a 32-bit int exactly for files of up to 2^44 bytes. */
  lemma SequenceNumbersFit(file: Bytes)
    ensures |Chunks(file, PAYLOAD)| - 1 <= MAX_INT32 <==> |file| <= 0x1000_0000_0000
  {
    ChunkCount(file, PAYLOAD);
  }

  lemma ChunkStep(done: seq<Bytes>, file: Bytes, pos: nat, next: nat, b: nat)
    requires b > 0 && pos < next <= |file|
    requires next == if |file| - pos < b then |file| else pos + b
    ensures done + Chunks(file[pos..], b) == (done + [file[pos..next]]) + Chunks(file[next..], b)
  {
    assert file[pos..][..next - pos] == file[pos..next];
    assert file[pos..][next - pos..] == file[next..];
    if next == |file| {
      assert file[pos..next] == file[pos..] && file[next..] == [];
    }
    assert Chunks(file[pos..], b) == [file[pos..next]] + Chunks(file[next..], b);
  }

  /** bufferize_file: reads `b` bytes at a time until a read comes short, and keeps what each
      read delivered. */
  method BufferizeFile(file: Bytes, b: nat) returns (buffers: seq<Bytes>)
    requires b > 0
    ensures buffers == Chunks(file, b)
  {
    buffers := [];
    var pos, eof := 0, false;
    while !eof
      invariant 0 <= pos <= |file|
      invariant eof ==> pos == |file|
      invariant buffers + Chunks(file[pos..], b) == Chunks(file, b)
      decreases |file| - pos, !eof
    {
      var bytesRead := if |file| - pos < b then |file| - pos else b;
      eof := bytesRead < b;
      if bytesRead > 0 {
        ChunkStep(buffers, file, pos, pos + bytesRead, b);
        buffers := buffers + [file[pos..pos + bytesRead]];
      }
      pos := pos + bytesRead;
    }
  }
}
