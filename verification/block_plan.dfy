/** The block plan `startDownload` seeds a download's queue with: blocks of
    `BLOCK_SIZE` bytes at offsets `i * BLOCK_SIZE`, the last one truncated
    to the end of the file. */
module BlockPlan {
  import opened Common
  import opened Protocol

  /** `Constants.BLOCK_SIZE` */
  const BLOCK_SIZE: int := 10240

  /** `(size + BLOCK_SIZE - 1) / BLOCK_SIZE` */
  function TotalBlocks(size: nat): nat {
    (size + BLOCK_SIZE - 1) / BLOCK_SIZE
  }

  /** The block count is the ceiling of `size / BLOCK_SIZE`: the blocks
      reach the end of the file and the last one starts inside it. */
  lemma TotalBlocksIsCeiling(size: nat)
    ensures size <= TotalBlocks(size) * BLOCK_SIZE
    ensures size == 0 <==> TotalBlocks(size) == 0
    ensures size > 0 ==> (TotalBlocks(size) - 1) * BLOCK_SIZE < size
  {
  }

  /** The request for block `i`. */
  function BlockAt(fileName: string, size: nat, i: nat): FileBlockRequestMessage {
    FileBlockRequestMessage(fileName, i * BLOCK_SIZE, Min(BLOCK_SIZE, size - i * BLOCK_SIZE))
  }

  /** The queue `startDownload` builds, in its loop's order. */
  function Plan(fileName: string, size: nat): (q: seq<FileBlockRequestMessage>)
    ensures |q| == TotalBlocks(size)
    ensures forall i :: 0 <= i < |q| ==> q[i] == BlockAt(fileName, size, i)
  {
    seq(TotalBlocks(size), i requires 0 <= i => BlockAt(fileName, size, i))
  }

  /** Every planned block is a non-empty range inside the file. */
  lemma BlockWithinFile(fileName: string, size: nat, i: nat)
    requires i < TotalBlocks(size)
    ensures var b := BlockAt(fileName, size, i);
      0 <= b.offset && 0 < b.length <= BLOCK_SIZE && b.offset + b.length <= size
  {
    TotalBlocksIsCeiling(size);
  }

  /** The sum of the lengths of `q`. */
  function SumLengths(q: seq<FileBlockRequestMessage>): int
    decreases |q|
  {
    if q == [] then 0 else SumLengths(q[..|q| - 1]) + q[|q| - 1].length
  }

  /** Byte `j` of the file lies in block `j / BLOCK_SIZE`, and in no other. */
  lemma InBlockIff(fileName: string, size: nat, i: nat, j: int)
    requires 0 <= j < size && i < TotalBlocks(size)
    ensures var b := BlockAt(fileName, size, i);
      b.offset <= j < b.offset + b.length <==> j / BLOCK_SIZE == i
  {
    var q := j / BLOCK_SIZE;
    assert j == q * BLOCK_SIZE + j % BLOCK_SIZE;
  }

  /** The plan tiles `[0, size)`: every block is non-empty and at most
      `BLOCK_SIZE` long, the first starts at 0, each starts where the
      previous ends, the last ends at `size` with length
      `size - BLOCK_SIZE * (n - 1)`, and the lengths add up to `size`. */
  lemma PlanTiles(fileName: string, size: nat)
    ensures var q := Plan(fileName, size);
      && (forall i :: 0 <= i < |q| ==> 0 < q[i].length <= BLOCK_SIZE && q[i].fileName == fileName)
      && (|q| > 0 ==> q[0].offset == 0)
      && (forall i :: 0 <= i < |q| - 1 ==> q[i].offset + q[i].length == q[i + 1].offset)
      && (|q| > 0 ==> q[|q| - 1].offset + q[|q| - 1].length == size)
      && (|q| > 0 ==> q[|q| - 1].length == size - BLOCK_SIZE * (|q| - 1))
      && SumLengths(q) == size
  {
    var q := Plan(fileName, size);
    TotalBlocksIsCeiling(size);
    PrefixSum(fileName, size, |q|);
    assert q[..|q|] == q;
  }

  /** The first `k` blocks cover `[0, min(k * BLOCK_SIZE, size))`. */
  lemma {:induction false} PrefixSum(fileName: string, size: nat, k: nat)
    requires k <= TotalBlocks(size)
    ensures SumLengths(Plan(fileName, size)[..k]) == Min(k * BLOCK_SIZE, size)
  {
    var q := Plan(fileName, size);
    TotalBlocksIsCeiling(size);
    if k > 0 {
      assert q[..k][..k - 1] == q[..k - 1];
      PrefixSum(fileName, size, k - 1);
    } else {
      assert q[..k] == [];
    }
    if k == |q| {
      assert q[..k] == q;
    }
  }

  /** A 25,000-byte file is planned as blocks of 10240, 10240 and 4520
      bytes at offsets 0, 10240 and 20480. */
  lemma PlanOf25000Bytes(fileName: string)
    ensures Plan(fileName, 25000) == [
      FileBlockRequestMessage(fileName, 0, 10240),
      FileBlockRequestMessage(fileName, 10240, 10240),
      FileBlockRequestMessage(fileName, 20480, 4520)]
  {
    assert TotalBlocks(25000) == 3;
  }
}
