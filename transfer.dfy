/**
 * The chunked file transfer of new.py as values: how `send_file` cuts and
 * frames a file, how `receive_file` files the chunks it gets into a dict, and
 * how the dict is written out in ascending index order.
 */
module Transfer {
  import opened Results
  import opened Bytes
  import opened PeerPackets

  /** The chunks one after the other. */
  function Concat(chunks: seq<seq<byte>>): seq<byte>
  {
    if chunks == [] then [] else chunks[0] + Concat(chunks[1..])
  }

  /**
   * `chunkify(data, size)`, whose code is not part of this model, assumed to
   * cut `data` into consecutive slices of `size` bytes, the last one possibly
   * shorter, and no slice at all for empty data.
   */
  function Chunkify(data: seq<byte>, size: nat): (chunks: seq<seq<byte>>)
    requires size > 0
    ensures Concat(chunks) == data
    ensures forall i :: 0 <= i < |chunks| ==> 0 < |chunks[i]| <= size
    ensures forall i :: 0 <= i < |chunks| - 1 ==> |chunks[i]| == size
    decreases |data|
  {
    if data == [] then []
    else if |data| <= size then
      assert Concat([data]) == data + Concat([]);
      [data]
    else
      var rest := Chunkify(data[size..], size);
      assert Concat([data[..size]] + rest) == data[..size] + Concat(rest) by {
        assert ([data[..size]] + rest)[1..] == rest;
      }
      [data[..size]] + rest
  }

  /** The quotient by `size` is the `q` whose multiples of `size` enclose the dividend. */
  lemma DivBetween(a: int, size: nat, q: int)
    requires size > 0 && q * size <= a < q * size + size
    ensures a / size == q
  {
    var d := a / size - q;
    assert d * size == (a / size) * size - q * size;
    MulSign(d - 1, size);
    MulSign(d + 1, size);
    assert (d - 1) * size == d * size - size && (d + 1) * size == d * size + size;
  }

  /** Dividing by `size` after adding `size` counts one more. */
  lemma DivAddDivisor(a: nat, size: nat)
    requires size > 0
    ensures (a + size) / size == a / size + 1
  {
    var q := a / size;
    assert q * size <= a < q * size + size;
    assert (q + 1) * size == q * size + size;
    DivBetween(a + size, size, q + 1);
  }

  /** The sign of a product with a natural number. */
  lemma MulSign(a: int, b: nat)
    ensures a >= 0 ==> a * b >= 0
    ensures a <= 0 ==> a * b <= 0
  {
  }

  /** The number of chunks is the length divided by the chunk size, rounded up. */
  lemma {:induction false} ChunkCountIsCeiling(data: seq<byte>, size: nat)
    requires size > 0
    ensures |Chunkify(data, size)| == (|data| + size - 1) / size
    decreases |data|
  {
    var n := |data| + size - 1;
    if data == [] {
      DivBetween(n, size, 0);
    } else if |data| <= size {
      DivBetween(n, size, 1);
    } else {
      ChunkCountIsCeiling(data[size..], size);
      DivAddDivisor(|data[size..]| + size - 1, size);
      assert Chunkify(data, size) == [data[..size]] + Chunkify(data[size..], size);
    }
  }

  /** The TRANSFER_BEGIN packet: the chunk count as four big-endian bytes. */
  function BeginPacket(count: nat): (p: Packet)
    requires count < Pow256(4)
    ensures p.kind == TransferBegin && |Pack(p)| == 5
    ensures ChunkCount(p.payload) == count
  {
    Packet(TransferBegin, ToBigEndian(count, 4))
  }

  /** A TRANSFER_CHUNK packet: the index as four big-endian bytes, then the data. */
  function ChunkPacket(index: nat, chunk: seq<byte>): (p: Packet)
    requires index < Pow256(4)
    ensures p.kind == TransferChunk && |Pack(p)| == 5 + |chunk|
  {
    Packet(TransferChunk, ToBigEndian(index, 4) + chunk)
  }

  /** Everything `send_file` sends for `data`, in order, when the chunk count fits in four bytes. */
  function FilePackets(data: seq<byte>, size: nat): (ps: seq<Packet>)
    requires size > 0 && |Chunkify(data, size)| < Pow256(4)
    ensures |ps| == |Chunkify(data, size)| + 1
    ensures ps[0].kind == TransferBegin && forall i :: 1 <= i < |ps| ==> ps[i].kind == TransferChunk
  {
    var chunks := Chunkify(data, size);
    [BeginPacket(|chunks|)] + seq(|chunks|, i requires 0 <= i < |chunks| => ChunkPacket(i, chunks[i]))
  }

  /** The packets `send_file` sends: one TRANSFER_BEGIN with the count, then each chunk once, in index order. */
  lemma FilePacketsLayout(data: seq<byte>, size: nat)
    requires size > 0 && |Chunkify(data, size)| < Pow256(4)
    ensures var chunks, ps := Chunkify(data, size), FilePackets(data, size);
      && |ps| == |chunks| + 1
      && ps[0].kind == TransferBegin && FromBigEndian(ps[0].payload) == |chunks| && |ps[0].payload| == 4
      && forall i :: 0 <= i < |chunks| ==>
           && ps[i + 1].kind == TransferChunk
           && |Pack(ps[i + 1])| == 5 + |chunks[i]| <= 5 + size
           && ParseChunk(ps[i + 1].payload) == (i, chunks[i])
  {
    var chunks, ps := Chunkify(data, size), FilePackets(data, size);
    assert ps[0] == BeginPacket(|chunks|);
    forall i | 0 <= i < |chunks|
      ensures ps[i + 1].kind == TransferChunk
      ensures |Pack(ps[i + 1])| == 5 + |chunks[i]| <= 5 + size
      ensures ParseChunk(ps[i + 1].payload) == (i, chunks[i])
    {
      FilePacketAt(data, size, i);
    }
  }

  /** The packet `send_file` sends for chunk `i`: the chunk behind its index, 5 bytes longer than the chunk. */
  lemma FilePacketAt(data: seq<byte>, size: nat, i: nat)
    requires size > 0 && |Chunkify(data, size)| < Pow256(4) && i < |Chunkify(data, size)|
    ensures var chunks, ps := Chunkify(data, size), FilePackets(data, size);
      && ps[i + 1].kind == TransferChunk
      && |Pack(ps[i + 1])| == 5 + |chunks[i]| <= 5 + size
      && ParseChunk(ps[i + 1].payload) == (i, chunks[i])
  {
    var chunks, ps := Chunkify(data, size), FilePackets(data, size);
    assert ps[i + 1] == ChunkPacket(i, chunks[i]) && |chunks[i]| <= size;
    ParseChunkPacket(i, chunks[i]);
  }

  /** How `receive_file` splits a chunk payload: the index from the first four bytes, the data after them. */
  function ParseChunk(payload: seq<byte>): (r: (nat, seq<byte>))
    ensures |payload| >= 4 ==> |r.1| == |payload| - 4 && r.0 < Pow256(4)
    ensures |payload| <= 4 ==> r.1 == []
  {
    (FromBigEndian(Take(payload, 4)), Drop(payload, 4))
  }

  /** Every payload of four bytes or more is the chunk packet payload of the index and data it parses to. */
  lemma ParseChunkInverse(payload: seq<byte>)
    requires |payload| >= 4
    ensures var r := ParseChunk(payload);
      r.0 < Pow256(4) && ChunkPacket(r.0, r.1).payload == payload
  {
    ToFromBigEndian(Take(payload, 4));
    assert payload == payload[..4] + payload[4..];
  }

  /** The chunk count a TRANSFER_BEGIN payload announces: its first four bytes, big-endian. */
  function ChunkCount(payload: seq<byte>): (n: nat)
    ensures |payload| >= 4 ==> n < Pow256(4) && ToBigEndian(n, 4) == payload[..4]
  {
    ToFromBigEndian(Take(payload, 4));
    FromBigEndian(Take(payload, 4))
  }

  /** Parsing a chunk packet's payload gives back its index and data. */
  lemma ParseChunkPacket(index: nat, chunk: seq<byte>)
    requires index < Pow256(4)
    ensures ParseChunk(ChunkPacket(index, chunk).payload) == (index, chunk)
  {
    var payload := ToBigEndian(index, 4) + chunk;
    assert Take(payload, 4) == ToBigEndian(index, 4);
    assert Drop(payload, 4) == chunk;
  }

  /**
   * The dict `receive_file` fills: each entry, in arrival order, is stored
   * under its index, so a later entry for an index overwrites an earlier one.
   */
  function Store(m: map<nat, seq<byte>>, entries: seq<(nat, seq<byte>)>): (r: map<nat, seq<byte>>)
    ensures r.Keys == m.Keys + Indices(entries)
    decreases |entries|
  {
    if entries == [] then m
    else
      var r := Store(m[entries[0].0 := entries[0].1], entries[1..]);
      assert Indices(entries) == {entries[0].0} + Indices(entries[1..]) by {
        forall j | 0 <= j < |entries| ensures entries[j].0 in {entries[0].0} + Indices(entries[1..]) {
          if j > 0 { assert entries[j] == entries[1..][j - 1]; }
        }
        forall j | 0 <= j < |entries[1..]| ensures entries[1..][j].0 in Indices(entries) {
          assert entries[1..][j] == entries[j + 1];
        }
      }
      r
  }

  /** The indices the entries carry. */
  function Indices(entries: seq<(nat, seq<byte>)>): set<nat>
  {
    set j | 0 <= j < |entries| :: entries[j].0
  }

  /** An index no entry mentions keeps what the dict held before. */
  lemma {:induction false} StoreUntouched(m: map<nat, seq<byte>>, entries: seq<(nat, seq<byte>)>, k: nat)
    requires k in m
    requires forall j :: 0 <= j < |entries| ==> entries[j].0 != k
    ensures Store(m, entries)[k] == m[k]
    decreases |entries|
  {
    if entries != [] {
      StoreUntouched(m[entries[0].0 := entries[0].1], entries[1..], k);
    }
  }

  /** Duplicates overwrite: an index holds the data of the LAST entry that carries it. */
  lemma {:induction false} StoreLastWins(m: map<nat, seq<byte>>, entries: seq<(nat, seq<byte>)>, j: nat)
    requires j < |entries|
    requires forall j' :: j < j' < |entries| ==> entries[j'].0 != entries[j].0
    ensures Store(m, entries)[entries[j].0] == entries[j].1
    decreases |entries|
  {
    var m' := m[entries[0].0 := entries[0].1];
    if j == 0 {
      forall j' | 0 <= j' < |entries[1..]| ensures entries[1..][j'].0 != entries[0].0 {
        assert entries[1..][j'] == entries[j' + 1];
      }
      StoreUntouched(m', entries[1..], entries[0].0);
    } else {
      assert entries[1..][j - 1] == entries[j];
      forall j' | j - 1 < j' < |entries[1..]| ensures entries[1..][j'].0 != entries[j].0 {
        assert entries[1..][j'] == entries[j' + 1];
      }
      StoreLastWins(m', entries[1..], j - 1);
    }
  }

  /** When the dict and every entry agree with `chunks`, so does the filled dict. */
  lemma {:induction false} StoreAgrees(m: map<nat, seq<byte>>, entries: seq<(nat, seq<byte>)>, chunks: seq<seq<byte>>)
    requires forall k :: k in m ==> k < |chunks| && m[k] == chunks[k]
    requires forall j :: 0 <= j < |entries| ==> entries[j].0 < |chunks| && entries[j].1 == chunks[entries[j].0]
    ensures forall k :: k in Store(m, entries) ==> k < |chunks| && Store(m, entries)[k] == chunks[k]
    decreases |entries|
  {
    if entries != [] {
      var m' := m[entries[0].0 := entries[0].1];
      forall j | 0 <= j < |entries[1..]|
        ensures entries[1..][j].0 < |chunks| && entries[1..][j].1 == chunks[entries[1..][j].0]
      {
        assert entries[1..][j] == entries[j + 1];
      }
      StoreAgrees(m', entries[1..], chunks);
    }
  }

  // ---- writing the file: new.py:148-149 ----

  /** A smallest key, which exists in every non-empty set of naturals. */
  lemma {:induction false} HasLeast(keys: set<nat>)
    requires keys != {}
    ensures exists k :: k in keys && IsLeast(k, keys)
    decreases keys
  {
    var x :| x in keys;
    var others := keys - {x};
    if others == {} {
      assert IsLeast(x, keys) by {
        forall j | j in keys ensures x <= j {
          assert j !in others;
        }
      }
    } else {
      HasLeast(others);
      var k :| k in others && IsLeast(k, others);
      var least := if x < k then x else k;
      assert IsLeast(least, keys) by {
        forall j | j in keys ensures least <= j {
          if j != x { assert j in others; }
        }
      }
    }
  }

  /** No key of `keys` is smaller than `k`. */
  predicate IsLeast(k: nat, keys: set<nat>)
  {
    forall j :: j in keys ==> k <= j
  }

  /** The first key of `sorted(keys)`. */
  function LeastKey(keys: set<nat>): (k: nat)
    requires keys != {}
    ensures k in keys && forall j :: j in keys ==> k <= j
  {
    HasLeast(keys);
    var k :| k in keys && IsLeast(k, keys);
    k
  }

  /** `for i in sorted(chunks.keys()): f.write(chunks[i])`: the values in ascending key order. */
  function Reassemble(m: map<nat, seq<byte>>): (r: seq<byte>)
    ensures forall k :: k in m ==> |m[k]| <= |r|
    ensures r == [] <==> forall k :: k in m ==> m[k] == []
    decreases m.Keys
  {
    if m.Keys == {} then []
    else
      var k := LeastKey(m.Keys);
      var rest := m - {k};
      assert forall j :: j in m && j != k ==> j in rest && rest[j] == m[j];
      m[k] + Reassemble(rest)
  }

  /** The dict's values for the indices `lo` to `n - 1`, an empty chunk where an index has no key. */
  function Gapped(m: map<nat, seq<byte>>, lo: nat, n: nat): seq<seq<byte>>
    requires lo <= n
  {
    seq(n - lo, i requires 0 <= i < n - lo => if lo + i in m then m[lo + i] else [])
  }

  /**
   * Written in ascending order, a dict whose keys lie in `lo` to `n - 1`
   * gives its chunks index by index, a missing index contributing nothing.
   */
  lemma {:induction false} ReassembleGaps(m: map<nat, seq<byte>>, lo: nat, n: nat)
    requires lo <= n && forall k :: k in m ==> lo <= k < n
    ensures Reassemble(m) == Concat(Gapped(m, lo, n))
    decreases n - lo
  {
    if lo == n {
      assert m.Keys == {};
    } else {
      var rest := m - {lo};
      ReassembleGaps(rest, lo + 1, n);
      GappedTail(m, lo, n);
      if lo in m {
        assert LeastKey(m.Keys) == lo;
      } else {
        assert rest == m;
      }
    }
  }

  /** The first gapped chunk, then the gapped chunks of the rest of the dict. */
  lemma GappedTail(m: map<nat, seq<byte>>, lo: nat, n: nat)
    requires lo < n
    ensures Gapped(m, lo, n) == [if lo in m then m[lo] else []] + Gapped(m - {lo}, lo + 1, n)
  {
  }

  /** The chunks from index `lo` on, as a dict from index to chunk. */
  function Indexed(chunks: seq<seq<byte>>, lo: nat): map<nat, seq<byte>>
  {
    map i | lo <= i < |chunks| :: chunks[i]
  }

  /** Written in ascending order, a dict holding every index from `lo` on gives the chunks from `lo` on. */
  lemma {:induction false} ReassembleIndexed(chunks: seq<seq<byte>>, lo: nat)
    requires lo <= |chunks|
    ensures Reassemble(Indexed(chunks, lo)) == Concat(chunks[lo..])
    decreases |chunks| - lo
  {
    var m := Indexed(chunks, lo);
    if lo == |chunks| {
      assert m.Keys == {};
    } else {
      assert lo in m.Keys;
      var k := LeastKey(m.Keys);
      assert k == lo;
      assert m - {k} == Indexed(chunks, lo + 1);
      ReassembleIndexed(chunks, lo + 1);
      assert chunks[lo..][1..] == chunks[lo + 1..];
    }
  }

  /**
   * Order independence: whatever order the chunk entries arrive in, and
   * whatever duplicates there are, as long as every entry is a correct chunk
   * and every index arrives, writing the dict out rebuilds the data.
   */
  lemma ReassembleAnyOrder(entries: seq<(nat, seq<byte>)>, chunks: seq<seq<byte>>)
    requires forall j :: 0 <= j < |entries| ==> entries[j].0 < |chunks| && entries[j].1 == chunks[entries[j].0]
    requires forall i :: 0 <= i < |chunks| ==> i in Indices(entries)
    ensures Reassemble(Store(map[], entries)) == Concat(chunks)
  {
    var m := Store(map[], entries);
    StoreAgrees(map[], entries, chunks);
    var dense := Indexed(chunks, 0);
    assert m.Keys == dense.Keys;
    forall k | k in m ensures m[k] == dense[k] { }
    assert m == dense;
    ReassembleIndexed(chunks, 0);
  }
}
