/** One file transfer: the packets a sender loop produces for a file, and what the receiver's
    append-then-rename handler makes of them. */
module Transfer {
  import opened Seqs
  import opened Codec
  import opened Chunking
  import opened Framing

  type Name = string
  /** A folder: the contents under every path relative to it. */
  type Folder = map<string, Bytes>

  const EXTENSION: string := ".swizdownload"

  function TempPath(n: Name): string { n + EXTENSION }

  predicate IsTempPath(path: string) {
    |path| >= |EXTENSION| && path[|path| - |EXTENSION|..] == EXTENSION
  }

  lemma TempPaths(n: Name, m: Name)
    ensures IsTempPath(TempPath(n)) && TempPath(n) != n
    ensures TempPath(n) == TempPath(m) ==> n == m
  {
    assert TempPath(n)[|n|..] == EXTENSION;
    assert TempPath(n)[..|TempPath(n)| - |EXTENSION|] == n;
    assert TempPath(m)[..|TempPath(m)| - |EXTENSION|] == m;
  }

  function Contents(folder: Folder, path: string): Bytes {
    if path in folder then folder[path] else []
  }

  /** Writing through a stream opened in append mode. */
  function Append(folder: Folder, path: string, data: Bytes): Folder {
    folder[path := Contents(folder, path) + data]
  }

  /** rename(2) over an existing or new file. */
  function Rename(folder: Folder, from: string, to: string): Folder
    requires from in folder
  {
    (folder - {from})[to := folder[from]]
  }

  /** `sequence_number == expected_packets - 1`, an int compared with an unsigned 64-bit size. */
  predicate IsLast(p: Packet) {
    p.sequenceNumber % TWO64 == (p.expected - 1) % TWO64
  }

  /** On everything the structure can hold: the number is one less than the count, where a number below -1 is
      2^64 more. */
  lemma LastMeans(p: Packet)
    requires Valid(p)
    ensures IsLast(p) <==>
      p.expected == (if p.sequenceNumber >= -1 then p.sequenceNumber + 1
                     else p.sequenceNumber + 0x1_0000_0000_0000_0001)
  {
  }

  /** The receiving handler: append the payload to the temporary file, and on the last packet
      move that file over the real name, provided the name has a file mutex. */
  function Reassemble(folder: Folder, locks: set<Name>, n: Name, p: Packet): Folder {
    var written := Append(folder, TempPath(n), p.payload);
    if IsLast(p) && n in locks then Rename(written, TempPath(n), n) else written
  }

  /** What one packet of `n` does to a folder: it only lengthens the temporary file of its name, except that
      the last one, where there is a mutex, turns the whole of it into the visible file. All other
      paths stay as they are. */
  ghost predicate Written(folder: Folder, after: Folder, locks: set<Name>, n: Name, p: Packet) {
    var whole := Contents(folder, TempPath(n)) + p.payload;
    && (forall path :: path != n && path != TempPath(n) ==>
          Contents(after, path) == Contents(folder, path) && (path in after <==> path in folder))
    && (if IsLast(p) && n in locks then TempPath(n) !in after && n in after && after[n] == whole
        else TempPath(n) in after && after[TempPath(n)] == whole
             && Contents(after, n) == Contents(folder, n) && (n in after <==> n in folder))
  }

  lemma ReassembleEffect(folder: Folder, locks: set<Name>, n: Name, p: Packet)
    ensures Written(folder, Reassemble(folder, locks, n, p), locks, n, p)
  {
    TempPaths(n, n);
  }

  function ReassembleAll(folder: Folder, locks: set<Name>, n: Name, ps: seq<Packet>): Folder
    decreases |ps|
  {
    if ps == [] then folder else ReassembleAll(Reassemble(folder, locks, n, ps[0]), locks, n, ps[1..])
  }

  function DataCommand(verb: string, n: Name, sum: string): string { Join([verb, n, sum]) }

  /** One packet per piece, each carrying its index. */
  function Numbered(command: string, expected: nat, pieces: seq<Bytes>): (ps: seq<Packet>)
    ensures |ps| == |pieces|
    ensures Payloads(ps) == pieces
  {
    seq(|pieces|, i requires 0 <= i < |pieces| => Packet(command, i, expected, pieces[i]))
  }

  lemma NumberedSnoc(command: string, expected: nat, pieces: seq<Bytes>, piece: Bytes)
    ensures Numbered(command, expected, pieces + [piece])
         == Numbered(command, expected, pieces) + [Packet(command, |pieces|, expected, piece)]
  {
  }

  function Payloads(ps: seq<Packet>): seq<Bytes> {
    seq(|ps|, i requires 0 <= i < |ps| => ps[i].payload)
  }

  /** The packets of one file. */
  function Packets(command: string, file: Bytes): (ps: seq<Packet>)
    ensures |ps| == |Chunks(file, PAYLOAD)|
  {
    Numbered(command, |Chunks(file, PAYLOAD)|, Chunks(file, PAYLOAD))
  }

  lemma NumberedLast(command: string, pieces: seq<Bytes>)
    requires |pieces| < TWO64
    ensures var ps := Numbered(command, |pieces|, pieces);
            forall i :: 0 <= i < |ps| ==> (IsLast(ps[i]) <==> i == |ps| - 1)
  {
  }

  /** Exactly one packet of a file announces itself as the last: the final one. */
  lemma OneLastPacket(command: string, file: Bytes, i: nat)
    requires i < |Packets(command, file)| && |file| <= 0x1000_0000_0000
    ensures IsLast(Packets(command, file)[i]) <==> i == |Packets(command, file)| - 1
  {
    SequenceNumbersFit(file);
  }

  lemma {:induction false} ReassembleConcat(folder: Folder, locks: set<Name>, n: Name, a: seq<Packet>, b: seq<Packet>)
    ensures ReassembleAll(folder, locks, n, a + b)
         == ReassembleAll(ReassembleAll(folder, locks, n, a), locks, n, b)
    decreases |a|
  {
    if a == [] {
      assert a + b == b;
    } else {
      var next := Reassemble(folder, locks, n, a[0]);
      assert (a + b)[0] == a[0] && (a + b)[1..] == a[1..] + b;
      ReassembleConcat(next, locks, n, a[1..], b);
    }
  }

  lemma AppendTwice(folder: Folder, path: string, a: Bytes, b: Bytes)
    ensures Append(Append(folder, path, a), path, b) == Append(folder, path, a + b)
  {
    assert Contents(folder, path) + a + b == Contents(folder, path) + (a + b);
  }

  /** Packets before the last only grow the temporary file. */
  lemma {:induction false} ReassembleHead(folder: Folder, locks: set<Name>, n: Name, ps: seq<Packet>)
    requires ps != [] && forall i :: 0 <= i < |ps| ==> !IsLast(ps[i])
    ensures ReassembleAll(folder, locks, n, ps) == Append(folder, TempPath(n), Flatten(Payloads(ps)))
    decreases |ps|
  {
    var first, rest := ps[0].payload, ps[1..];
    assert Payloads(ps) == [first] + Payloads(rest);
    if rest == [] {
      assert Flatten(Payloads(ps)) == first;
    } else {
      ReassembleHead(Append(folder, TempPath(n), first), locks, n, rest);
      AppendTwice(folder, TempPath(n), first, Flatten(Payloads(rest)));
    }
  }

  /** A run of packets of which only the last one says so. */
  lemma ReassembleRun(folder: Folder, locks: set<Name>, n: Name, ps: seq<Packet>)
    requires ps != [] && forall i :: 0 <= i < |ps| ==> (IsLast(ps[i]) <==> i == |ps| - 1)
    ensures var all := Append(folder, TempPath(n), Flatten(Payloads(ps)));
            ReassembleAll(folder, locks, n, ps)
            == if n in locks then Rename(all, TempPath(n), n) else all
  {
    var head, last := ps[..|ps| - 1], ps[|ps| - 1];
    assert ps == head + [last];
    ReassembleConcat(folder, locks, n, head, [last]);
    ReassembleOne(ReassembleAll(folder, locks, n, head), locks, n, last);
    if head == [] {
      assert Flatten(Payloads(ps)) == last.payload;
    } else {
      ReassembleHead(folder, locks, n, head);
      assert Payloads(ps) == Payloads(head) + [last.payload];
      FlattenSnoc(Payloads(head), last.payload);
      AppendTwice(folder, TempPath(n), Flatten(Payloads(head)), last.payload);
    }
  }

  lemma ReassembleOne(folder: Folder, locks: set<Name>, n: Name, p: Packet)
    ensures ReassembleAll(folder, locks, n, [p]) == Reassemble(folder, locks, n, p)
  {
    assert [p][1..] == [];
  }

  /** What a whole transfer leaves behind, whatever was in the temporary file before. */
  lemma TransferOutcome(folder: Folder, locks: set<Name>, n: Name, command: string, file: Bytes)
    requires 0 < |file| <= 0x1000_0000_0000
    ensures var all := Append(folder, TempPath(n), file);
            ReassembleAll(folder, locks, n, Packets(command, file))
            == if n in locks then Rename(all, TempPath(n), n) else all
  {
    var ps := Packets(command, file);
    forall i | 0 <= i < |ps| ensures IsLast(ps[i]) <==> i == |ps| - 1 {
      OneLastPacket(command, file, i);
    }
    ReassembleRun(folder, locks, n, ps);
    ChunksCut(file, PAYLOAD);
    assert Payloads(ps) == Chunks(file, PAYLOAD);
  }

  /** Reassembly is exact if and only if the name has a mutex and no stale temporary data. */
  lemma TransferExact(folder: Folder, locks: set<Name>, n: Name, command: string, file: Bytes)
    requires 0 < |file| <= 0x1000_0000_0000
    ensures ReassembleAll(folder, locks, n, Packets(command, file)) == (folder - {TempPath(n)})[n := file]
       <==> n in locks && Contents(folder, TempPath(n)) == []
  {
    TransferOutcome(folder, locks, n, command, file);
    TempPaths(n, n);
    var stale := Contents(folder, TempPath(n));
    var all := Append(folder, TempPath(n), file);
    var goal := (folder - {TempPath(n)})[n := file];
    assert TempPath(n) in all && TempPath(n) !in goal;
    if n in locks {
      var renamed := Rename(all, TempPath(n), n);
      assert renamed[n] == stale + file && goal[n] == file;
      assert |stale + file| == |stale| + |file|;
      if stale == [] {
        assert stale + file == file;
        assert renamed == goal;
      }
    }
  }

  // ----- the sender loop as the source has it -----

  /** One read of the sender loops in the session and client handlers. They leave the payload
      size at 8192, so that a short read also sends `junk`, whatever lies behind it in memory. */
  function ReadPiece(file: Bytes, pos: nat, junk: Bytes): (piece: Bytes)
    requires pos <= |file| && |junk| >= PAYLOAD
    ensures |piece| == PAYLOAD
  {
    if |file| - pos < PAYLOAD then file[pos..] + junk[..PAYLOAD - (|file| - pos)]
    else file[pos..pos + PAYLOAD]
  }

  /** The payloads sent from `pos` on: reading goes on until a read comes short. `junk(pos)` is
      what the buffer holds before the read at `pos`. */
  function PaddedPieces(file: Bytes, pos: nat, junk: nat -> Bytes): (pieces: seq<Bytes>)
    requires pos <= |file| && forall k :: |junk(k)| >= PAYLOAD
    ensures |pieces| == (|file| - pos) / PAYLOAD + 1
    decreases |file| - pos
  {
    [ReadPiece(file, pos, junk(pos))]
    + if |file| - pos < PAYLOAD then [] else PaddedPieces(file, pos + PAYLOAD, junk)
  }

  function PaddedPackets(command: string, file: Bytes, junk: nat -> Bytes): seq<Packet>
    requires forall k :: |junk(k)| >= PAYLOAD
  {
    Numbered(command, ExpectedPackets(|file|, PAYLOAD), PaddedPieces(file, 0, junk))
  }

  /** The start of the last, short read. */
  function LastRead(size: nat): (pos: nat)
    ensures pos <= size < pos + PAYLOAD
  {
    size - size % PAYLOAD
  }

  function Overrun(file: Bytes, junk: nat -> Bytes): (extra: Bytes)
    requires forall k :: |junk(k)| >= PAYLOAD
    ensures |extra| == PAYLOAD - |file| % PAYLOAD
  {
    junk(LastRead(|file|))[..PAYLOAD - |file| % PAYLOAD]
  }

  lemma {:induction false} PaddedFlatten(file: Bytes, pos: nat, junk: nat -> Bytes)
    requires pos <= |file| && pos % PAYLOAD == 0 && forall k :: |junk(k)| >= PAYLOAD
    ensures Flatten(PaddedPieces(file, pos, junk)) == file[pos..] + Overrun(file, junk)
    decreases |file| - pos
  {
    var piece := ReadPiece(file, pos, junk(pos));
    if |file| - pos < PAYLOAD {
      FlattenCons(piece, []);
      assert [piece] + [] == [piece];
    } else {
      PaddedFlatten(file, pos + PAYLOAD, junk);
      FlattenCons(piece, PaddedPieces(file, pos + PAYLOAD, junk));
      Associate(piece, file[pos + PAYLOAD..], Overrun(file, junk));
      assert file[pos..] == piece + file[pos + PAYLOAD..];
    }
  }

  /** On an exact multiple all pieces but the last are the file's chunks. */
  lemma {:induction false} PaddedHead(file: Bytes, pos: nat, junk: nat -> Bytes)
    requires pos <= |file| && pos % PAYLOAD == 0 && forall k :: |junk(k)| >= PAYLOAD
    requires |file| % PAYLOAD == 0
    ensures var pieces, k := PaddedPieces(file, pos, junk), (|file| - pos) / PAYLOAD;
            Flatten(pieces[..k]) == file[pos..] && pieces[k] == Overrun(file, junk)
    decreases |file| - pos
  {
    var pieces, k := PaddedPieces(file, pos, junk), (|file| - pos) / PAYLOAD;
    if pos == |file| {
      assert pieces[..k] == [];
      assert file[pos..] + junk(pos)[..PAYLOAD] == junk(pos)[..PAYLOAD];
    } else {
      var tail := PaddedPieces(file, pos + PAYLOAD, junk);
      PaddedHead(file, pos + PAYLOAD, junk);
      assert k - 1 == (|file| - (pos + PAYLOAD)) / PAYLOAD;
      assert pieces == [pieces[0]] + tail && pieces[k] == tail[k - 1];
      assert pieces[..k] == [pieces[0]] + tail[..k - 1];
      FlattenCons(pieces[0], tail[..k - 1]);
      assert file[pos..] == pieces[0] + file[pos + PAYLOAD..];
    }
  }

  lemma RenameFresh(folder: Folder, n: Name, file: Bytes)
    requires TempPath(n) !in folder
    ensures Rename(Append(folder, TempPath(n), file), TempPath(n), n) == folder[n := file]
  {
    TempPaths(n, n);
    assert [] + file == file;
  }

  lemma PaddedRemainder(folder: Folder, locks: set<Name>, n: Name, command: string, file: Bytes, junk: nat -> Bytes)
    requires forall k :: |junk(k)| >= PAYLOAD
    requires n in locks && TempPath(n) !in folder && |file| <= 0x1000_0000_0000
    requires |file| % PAYLOAD != 0
    ensures ReassembleAll(folder, locks, n, PaddedPackets(command, file, junk))
         == folder[n := file + Overrun(file, junk)]
  {
    var ps := PaddedPackets(command, file, junk);
    PaddedFlatten(file, 0, junk);
    assert file[0..] == file;
    assert ExpectedPackets(|file|, PAYLOAD) == |ps|;
    NumberedLast(command, PaddedPieces(file, 0, junk));
    ReassembleRun(folder, locks, n, ps);
    RenameFresh(folder, n, Flatten(Payloads(ps)));
  }

  lemma PaddedMultiple(folder: Folder, locks: set<Name>, n: Name, command: string, file: Bytes, junk: nat -> Bytes)
    requires forall k :: |junk(k)| >= PAYLOAD
    requires n in locks && TempPath(n) !in folder && |file| <= 0x1000_0000_0000
    requires |file| % PAYLOAD == 0
    ensures ReassembleAll(folder, locks, n, PaddedPackets(command, file, junk))
         == (if file == [] then folder else folder[n := file])
            [TempPath(n) := Overrun(file, junk)]
  {
    var k, pieces := |file| / PAYLOAD, PaddedPieces(file, 0, junk);
    PaddedHead(file, 0, junk);
    assert pieces == pieces[..k] + [pieces[k]];
    NumberedSnoc(command, k, pieces[..k], pieces[k]);
    assert ExpectedPackets(|file|, PAYLOAD) == k && (k == 0 <==> file == []);
    NumberedLast(command, pieces[..k]);
    WholePlusOne(folder, locks, n, Numbered(command, k, pieces[..k]), Packet(command, k, k, pieces[k]), file);
  }

  /** A complete run followed by a packet beyond its end, which starts a new temporary file. */
  lemma WholePlusOne(folder: Folder, locks: set<Name>, n: Name, run: seq<Packet>, extra: Packet, file: Bytes)
    requires n in locks && TempPath(n) !in folder
    requires forall i :: 0 <= i < |run| ==> (IsLast(run[i]) <==> i == |run| - 1)
    requires Flatten(Payloads(run)) == file && (run == [] <==> file == [])
    requires !IsLast(extra)
    ensures ReassembleAll(folder, locks, n, run + [extra])
         == (if file == [] then folder else folder[n := file])[TempPath(n) := extra.payload]
  {
    var before := if file == [] then folder else folder[n := file];
    ReassembleConcat(folder, locks, n, run, [extra]);
    if run != [] {
      ReassembleRun(folder, locks, n, run);
      RenameFresh(folder, n, file);
    }
    TempPaths(n, n);
    ReassembleOne(before, locks, n, extra);
    assert [] + extra.payload == extra.payload;
  }

  /** What the loop as written delivers to a clean receiver that holds the mutex. */
  lemma PaddedOutcome(folder: Folder, locks: set<Name>, n: Name, command: string, file: Bytes, junk: nat -> Bytes)
    requires forall k :: |junk(k)| >= PAYLOAD
    requires n in locks && TempPath(n) !in folder && |file| <= 0x1000_0000_0000
    ensures ReassembleAll(folder, locks, n, PaddedPackets(command, file, junk))
         == if |file| % PAYLOAD != 0 then folder[n := file + Overrun(file, junk)]
            else (if file == [] then folder else folder[n := file])[TempPath(n) := Overrun(file, junk)]
  {
    if |file| % PAYLOAD != 0 {
      PaddedRemainder(folder, locks, n, command, file, junk);
    } else {
      PaddedMultiple(folder, locks, n, command, file, junk);
    }
  }

  /** The loop as written gets the file across exactly when its size is a positive multiple of
      8192, and leaves no stray temporary file exactly when it is not a multiple of 8192: it
      never does both. */
  lemma PaddedNeverClean(folder: Folder, locks: set<Name>, n: Name, command: string, file: Bytes, junk: nat -> Bytes)
    requires forall k :: |junk(k)| >= PAYLOAD
    requires n in locks && TempPath(n) !in folder && n !in folder && |file| <= 0x1000_0000_0000
    ensures var after := ReassembleAll(folder, locks, n, PaddedPackets(command, file, junk));
            && ((n in after && after[n] == file) <==> |file| > 0 && |file| % PAYLOAD == 0)
            && (TempPath(n) !in after <==> |file| % PAYLOAD != 0)
  {
    PaddedOutcome(folder, locks, n, command, file, junk);
    TempPaths(n, n);
    assert |file + Overrun(file, junk)| > |file|;
  }

  lemma PaddedStep(done: seq<Bytes>, file: Bytes, pos: nat, junk: nat -> Bytes)
    requires pos <= |file| && forall k :: |junk(k)| >= PAYLOAD
    ensures done + PaddedPieces(file, pos, junk)
         == (done + [ReadPiece(file, pos, junk(pos))])
          + (if |file| - pos < PAYLOAD then [] else PaddedPieces(file, pos + PAYLOAD, junk))
  {
    var rest := if |file| - pos < PAYLOAD then [] else PaddedPieces(file, pos + PAYLOAD, junk);
    Associate(done, [ReadPiece(file, pos, junk(pos))], rest);
  }

  /** The sender loop as written: reads 8192 bytes at a time until a read comes short, which on
      an exact multiple takes one read more. */
  method SendUntilEof(command: string, file: Bytes, junk: nat -> Bytes) returns (ps: seq<Packet>)
    requires forall k :: |junk(k)| >= PAYLOAD
    ensures ps == PaddedPackets(command, file, junk)
  {
    var expected := ExpectedPackets(|file|, PAYLOAD);
    ps := [];
    var packetIndex, pos, eof := 0, 0, false;
    ghost var done := [];
    while !eof
      invariant 0 <= pos <= |file| && packetIndex == |done|
      invariant ps == Numbered(command, expected, done)
      invariant done + (if eof then [] else PaddedPieces(file, pos, junk)) == PaddedPieces(file, 0, junk)
      decreases |file| - pos, !eof
    {
      eof := |file| - pos < PAYLOAD;
      var payload := ReadPiece(file, pos, junk(pos));
      NumberedSnoc(command, expected, done, payload);
      PaddedStep(done, file, pos, junk);
      ps := ps + [Packet(command, packetIndex, expected, payload)];
      done := done + [payload];
      pos := if eof then |file| else pos + PAYLOAD;
      packetIndex := packetIndex + 1;
    }
  }
}
