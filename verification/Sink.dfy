/** Postgres to chDB: the sink that gathers small writes, and the cutting of a scan into blocks. */
module Sink {
  import opened Bytes
  import opened Rows

  const BLOCK_BYTES := 8 * 1024 * 1024
  const SINK_BYTES := 256 * 1024
  const SINK_DIRECT := 16 * 1024

  /** The helper's data channel, as chdb_helper_write leaves it when it does not raise. */
  class Channel {
    var sent: Bytes

    method Write(p: Bytes)
      modifies this
      ensures sent == old(sent) + p
    {
      sent := sent + p;
    }
  }

  class NativeSink {
    const channel: Channel
    const buf: array<byte>
    var len: nat

    predicate Valid()
      reads this
    {
      buf.Length == SINK_BYTES && len <= SINK_BYTES
    }

    /** All that has been written to the sink: sent, then still buffered. */
    function Stream(): Bytes
      reads this, channel, buf
      requires Valid()
    {
      channel.sent + buf[..len]
    }

    constructor (channel: Channel)
      ensures Valid() && len == 0 && this.channel == channel && fresh(buf)
      ensures Stream() == channel.sent
    {
      this.channel := channel;
      buf := new byte[SINK_BYTES];
      len := 0;
    }

    /** sink_flush. */
    method Flush()
      requires Valid()
      modifies this, channel
      ensures Valid() && len == 0
      ensures channel.sent == old(Stream()) == Stream()
    {
      if len != 0 {
        channel.Write(buf[..len]);
        len := 0;
      }
    }

    /** sink_write: large writes go past the buffer, small ones through it, in order. */
    method Write(p: Bytes)
      requires Valid()
      modifies this, channel, buf
      ensures Valid()
      ensures Stream() == old(Stream()) + p
      ensures SINK_DIRECT <= |p| ==> len == 0
    {
      if |p| >= SINK_DIRECT {
        Flush();
        channel.Write(p);
        return;
      }
      if len + |p| > SINK_BYTES {
        Flush();
      }
      ghost var before := Stream();
      forall i | 0 <= i < |p| {
        buf[len + i] := p[i];
      }
      len := len + |p|;
      assert buf[..len] == buf[..len - |p|] + p;
      assert Stream() == before + p;
    }

    /** send_block: the encoder's writes, then nothing is left in the buffer. */
    method SendBlock(pieces: seq<Bytes>)
      requires Valid()
      modifies this, channel, buf
      ensures Valid() && len == 0
      ensures channel.sent == old(Stream()) + Flatten(pieces)
    {
      for i := 0 to |pieces|
        invariant Valid()
        invariant Stream() == old(Stream()) + Flatten(pieces[..i])
      {
        Write(pieces[i]);
        assert pieces[..i + 1] == pieces[..i] + [pieces[i]];
        FlattenAppend(pieces[..i], [pieces[i]]);
        FlattenOne(pieces[i]);
      }
      assert pieces[..|pieces|] == pieces;
      Flush();
    }
  }

  // ---- Rows and blocks ----------------------------------------------------

  /** The tuple's copied columns, in their order. */
  predicate Projects(row: Row, tuple: Row, attnums: seq<nat>)
    requires InRange(attnums, |tuple|)
  {
    |row| == |attnums| && forall j | 0 <= j < |attnums| :: row[j] == tuple[attnums[j] - 1]
  }

  /** append_slot. */
  method AppendSlot(tuple: Row, attnums: seq<nat>) returns (row: Row)
    requires InRange(attnums, |tuple|)
    ensures |row| == |attnums| && forall j | 0 <= j < |attnums| :: row[j] == tuple[attnums[j] - 1]
  {
    row := [];
    for col := 0 to |attnums|
      invariant |row| == col && forall j | 0 <= j < col :: row[j] == tuple[attnums[j] - 1]
    {
      row := row + [tuple[attnums[col] - 1]];
    }
  }

  predicate ValidScan(scan: seq<Row>, attnums: seq<nat>)
  {
    forall i | 0 <= i < |scan| :: InRange(attnums, |scan[i]|)
  }

  predicate Projected(rows: seq<Row>, scan: seq<Row>, attnums: seq<nat>)
    requires ValidScan(scan, attnums)
  {
    |rows| <= |scan| && forall i | 0 <= i < |rows| :: Projects(rows[i], scan[i], attnums)
  }

  lemma NoneProjected(scan: seq<Row>, attnums: seq<nat>)
    requires ValidScan(scan, attnums)
    ensures Projected([] + [], scan, attnums)
  {
  }

  lemma ProjectedGrows(rows: seq<Row>, scan: seq<Row>, attnums: seq<nat>, row: Row)
    requires ValidScan(scan, attnums) && Projected(rows, scan, attnums) && |rows| < |scan|
    requires Projects(row, scan[|rows|], attnums)
    ensures Projected(rows + [row], scan, attnums)
  {
  }

  /** No proper non-empty beginning of the block had reached the limit. */
  ghost predicate UnderUntilLast(block: seq<Row>, size: seq<Row> -> nat)
  {
    forall k | 0 < k < |block| :: size(block[..k]) < BLOCK_BYTES
  }

  /** What the loop promises of the blocks: none empty, each cut at the first row that fills it. */
  ghost predicate WellCut(blocks: seq<seq<Row>>, size: seq<Row> -> nat)
  {
    forall i | 0 <= i < |blocks| ::
      && blocks[i] != []
      && UnderUntilLast(blocks[i], size)
      && (i < |blocks| - 1 ==> BLOCK_BYTES <= size(blocks[i]))
  }

  /** The rows and the limit determine the blocks. */
  lemma {:induction false} CutIsUnique(a: seq<seq<Row>>, b: seq<seq<Row>>, size: seq<Row> -> nat)
    requires WellCut(a, size) && WellCut(b, size) && Flatten(a) == Flatten(b)
    ensures a == b
  {
    if a != [] && b != [] {
      FirstBlockIsNotShorter(a, b, size);
      FirstBlockIsNotShorter(b, a, size);
      assert Flatten(a)[..|a[0]|] == a[0] && Flatten(b)[..|b[0]|] == b[0];
      assert Flatten(a)[|a[0]|..] == Flatten(a[1..]) && Flatten(b)[|b[0]|..] == Flatten(b[1..]);
      CutTail(a, size);
      CutTail(b, size);
      CutIsUnique(a[1..], b[1..], size);
      assert a == [a[0]] + a[1..] && b == [b[0]] + b[1..];
    }
  }

  lemma CutTail(a: seq<seq<Row>>, size: seq<Row> -> nat)
    requires a != [] && WellCut(a, size)
    ensures WellCut(a[1..], size)
  {
    forall i | 0 <= i < |a| - 1 ensures a[1..][i] == a[i + 1] {}
  }

  lemma FirstBlockIsNotShorter(a: seq<seq<Row>>, b: seq<seq<Row>>, size: seq<Row> -> nat)
    requires a != [] && b != [] && WellCut(a, size) && WellCut(b, size) && Flatten(a) == Flatten(b)
    ensures |b[0]| <= |a[0]|
  {
    assert a[0] == Flatten(a)[..|a[0]|] && b[0] == Flatten(b)[..|b[0]|];
    var n := Min(|a[0]|, |b[0]|);
    assert a[0][..n] == b[0][..n] == Flatten(a)[..n];
    assert a[0][..|a[0]|] == a[0];
    assert |a| == 1 ==> a[1..] == [];
  }

  /** What the encoder writes for each block. */
  /**
    chdb_copy_send, for any encoder and any measure of what the writer holds: every
    row scanned is sent once, projected and in order, in well-cut blocks.
   */
  method CopySend(scan: seq<Row>, attnums: seq<nat>, channel: Channel,
                  size: seq<Row> -> nat, encode: seq<Row> -> seq<Bytes>)
    returns (rows: nat, ghost blocks: seq<seq<Row>>, ghost sent: seq<Bytes>)
    requires ValidScan(scan, attnums)
    modifies channel
    ensures rows == |scan|
    ensures |Flatten(blocks)| == |scan| && Projected(Flatten(blocks), scan, attnums)
    ensures WellCut(blocks, size)
    ensures |sent| == |blocks| && forall i | 0 <= i < |blocks| :: sent[i] == Flatten(encode(blocks[i]))
    ensures channel.sent == old(channel.sent) + Flatten(sent)
  {
    hide Flatten, UnderUntilLast, AllFull, WellCut, Projected;
    NoneProjected(scan, attnums);
    StartBlocks(size);
    var sink := new NativeSink(channel);
    var writer: seq<Row> := [];
    blocks, sent := [], [];
    rows := 0;
    while rows < |scan|
      invariant rows <= |scan| && sink.Valid() && sink.len == 0 && fresh(sink) && fresh(sink.buf)
      invariant sink.channel == channel
      invariant |Flatten(blocks) + writer| == rows && Projected(Flatten(blocks) + writer, scan, attnums)
      invariant AllFull(blocks, size) && UnderUntilLast(writer, size)
      invariant writer != [] ==> size(writer) < BLOCK_BYTES
      invariant |sent| == |blocks| && forall i | 0 <= i < |blocks| :: sent[i] == Flatten(encode(blocks[i]))
      invariant channel.sent == old(channel.sent) + Flatten(sent)
    {
      var row := AppendSlot(scan[rows], attnums);
      ghost var before := writer;
      writer := writer + [row];
      assert Flatten(blocks) + writer == (Flatten(blocks) + before) + [row];
      ProjectedGrows(Flatten(blocks) + before, scan, attnums, row);
      UnderGrows(before, row, size);
      rows := rows + 1;
      if size(writer) >= BLOCK_BYTES {
        BlocksGrow(blocks, writer, size);
        PiecesGrow(sent, Flatten(encode(writer)));
        sink.SendBlock(encode(writer));
        blocks, sent := blocks + [writer], sent + [Flatten(encode(writer))];
        writer := [];
        assert Flatten(blocks) + [] == Flatten(blocks);
      }
    }
    assert Flatten(blocks) + [] == Flatten(blocks);
    AllFullIsWellCut(blocks, size);
    if writer != [] {
      BlocksGrow(blocks, writer, size);
      PiecesGrow(sent, Flatten(encode(writer)));
      sink.SendBlock(encode(writer));
      blocks, sent := blocks + [writer], sent + [Flatten(encode(writer))];
    }
  }

  ghost predicate AllFull(blocks: seq<seq<Row>>, size: seq<Row> -> nat)
  {
    forall i | 0 <= i < |blocks| ::
      blocks[i] != [] && UnderUntilLast(blocks[i], size) && BLOCK_BYTES <= size(blocks[i])
  }

  lemma UnderGrows(writer: seq<Row>, row: Row, size: seq<Row> -> nat)
    requires UnderUntilLast(writer, size) && (writer != [] ==> size(writer) < BLOCK_BYTES)
    ensures UnderUntilLast(writer + [row], size)
  {
    forall k | 0 < k < |writer + [row]|
      ensures size((writer + [row])[..k]) < BLOCK_BYTES
    {
      assert (writer + [row])[..k] == if k == |writer| then writer else writer[..k];
    }
  }

  lemma PiecesGrow(sent: seq<Bytes>, piece: Bytes)
    ensures Flatten(sent + [piece]) == Flatten(sent) + piece
  {
    FlattenAppend(sent, [piece]);
    FlattenOne(piece);
  }

  lemma StartBlocks(size: seq<Row> -> nat)
    ensures Flatten<Row>([]) == [] && Flatten<byte>([]) == [] && AllFull([], size) && UnderUntilLast([], size)
  {
  }

  lemma AllFullIsWellCut(blocks: seq<seq<Row>>, size: seq<Row> -> nat)
    requires AllFull(blocks, size)
    ensures WellCut(blocks, size)
  {
  }

  lemma BlocksGrow(blocks: seq<seq<Row>>, block: seq<Row>, size: seq<Row> -> nat)
    requires AllFull(blocks, size) && block != [] && UnderUntilLast(block, size)
    ensures WellCut(blocks + [block], size)
    ensures BLOCK_BYTES <= size(block) ==> AllFull(blocks + [block], size)
    ensures Flatten(blocks + [block]) == Flatten(blocks) + block
  {
    FlattenAppend(blocks, [block]);
    FlattenOne(block);
  }
}
