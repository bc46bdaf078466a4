/**
  The buffer vector that collects one logically contiguous run of dirty
  buffers for I/O, and the helpers that read its first and last block index.
 */
module BufVec {
  import opened Optional
  import opened BufferHead

  /** The kernel's page-cache page size, in bytes. */
  const PAGE_CACHE_SIZE: nat := 4096
  /** Slots in the on_page table: one per 512-byte block of a page. */
  const BUFS_PER_PAGE_CACHE: nat := PAGE_CACHE_SIZE / 512
  /** contig_count is an unsigned 32-bit counter. */
  const UINT_MAX: nat := 0xffff_ffff

  /** One entry of the on_page table: a buffer and the block it sits at. */
  datatype OnPageSlot = OnPageSlot(buffer: Buf, block: Block)

  /** contig is the run being built, contig_count its length; on_page holds
      the buffers of the current page, of which the first on_page_idx slots
      are filled. */
  datatype BufVec = BufVec(
    contig: seq<Buf>,
    contigCount: nat,
    onPage: seq<OnPageSlot>,
    onPageIdx: nat)

  /** Each buffer of s has the index just after the one before it. */
  predicate Consecutive(s: seq<Buf>) {
    forall i :: 0 < i < |s| ==> s[i].index == s[i - 1].index + 1
  }

  /** What the bufvec fields mean together: contig is one contiguous range
      of contig_count buffers, and on_page_idx stays within the fixed
      on_page table. */
  predicate Valid(v: BufVec) {
    && |v.contig| == v.contigCount
    && v.contigCount <= UINT_MAX
    && Consecutive(v.contig)
    && |v.onPage| == BUFS_PER_PAGE_CACHE
    && v.onPageIdx <= BUFS_PER_PAGE_CACHE
  }

  /** In a consecutive run, the i-th buffer is i blocks past the first. */
  lemma {:induction false} ConsecutiveIndexAt(s: seq<Buf>, i: nat)
    requires Consecutive(s)
    requires i < |s|
    ensures s[i].index == s[0].index + i
  {
    if i > 0 {
      ConsecutiveIndexAt(s, i - 1);
    }
  }

  /** A non-empty run is consecutive exactly when it is first, first + 1, ... */
  lemma ConsecutiveIff(s: seq<Buf>)
    requires |s| > 0
    ensures Consecutive(s) <==> forall i :: 0 <= i < |s| ==> s[i].index == s[0].index + i
  {
    if Consecutive(s) {
      forall i | 0 <= i < |s|
        ensures s[i].index == s[0].index + i
      {
        ConsecutiveIndexAt(s, i);
      }
    }
  }

  /** bufvec_contig_count. */
  function ContigCount(v: BufVec): (r: nat)
    ensures Valid(v) ==> r == |v.contig|
  {
    v.contigCount
  }

  /** bufvec_contig_buf: the first buffer of the run, which must not be empty.
      In a valid bufvec it has the lowest index of the run. */
  function ContigBuf(v: BufVec): (r: Buf)
    requires |v.contig| > 0
    ensures r in v.contig
    ensures Valid(v) ==> forall i :: 0 < i < |v.contig| ==> r.index < v.contig[i].index
  {
    ConsecutiveIff(v.contig);
    v.contig[0]
  }

  /** bufvec_contig_index: the block index the run starts at.  In a valid
      bufvec the run covers the indices r, r + 1, ... in order. */
  function ContigIndex(v: BufVec): (r: Block)
    requires |v.contig| > 0
    ensures r == ContigBuf(v).index
    ensures Valid(v) ==> forall i :: 0 <= i < |v.contig| ==> v.contig[i].index == r + i
  {
    ConsecutiveIff(v.contig);
    ContigBuf(v).index
  }

  /** The computation of bufvec_contig_last_index does not overflow block_t. */
  predicate LastIndexFits(v: BufVec)
    requires |v.contig| > 0
  {
    InBlockRange(v.contig[0].index + v.contigCount - 1)
  }

  /** bufvec_contig_last_index: the block index the run ends at.  In a valid
      bufvec it is the index of the last buffer, every buffer of the run lies
      between the first and last index, and the run is never backwards. */
  function ContigLastIndex(v: BufVec): (r: Block)
    requires |v.contig| > 0
    requires LastIndexFits(v)
    ensures Valid(v) ==> r == v.contig[|v.contig| - 1].index
    ensures Valid(v) ==> forall i :: 0 <= i < |v.contig| ==> ContigIndex(v) <= v.contig[i].index <= r
    ensures v.contigCount >= 1 ==> ContigIndex(v) <= r
  {
    ContigIndex(v) + ContigCount(v) - 1
  }

  /** Every valid non-empty bufvec meets the no-overflow condition of
      bufvec_contig_last_index, because its last buffer has a block_t index. */
  lemma {:induction false} ValidLastIndexFits(v: BufVec)
    requires Valid(v)
    requires |v.contig| > 0
    ensures LastIndexFits(v)
  {
    ConsecutiveIndexAt(v.contig, |v.contig| - 1);
  }

  /** A valid bufvec's on_page table has one slot per 512-byte block of a
      page, and its filled slots never cover more than one page. */
  lemma OnPageCapacity(v: BufVec)
    requires Valid(v)
    ensures |v.onPage| * 512 == PAGE_CACHE_SIZE
    ensures v.onPageIdx * 512 <= PAGE_CACHE_SIZE
  {
  }

  /** The buffer of the first slot among slots that records block, if any. */
  function FindSlot(slots: seq<OnPageSlot>, block: Block): (r: Maybe<Buf>)
    ensures r.Nothing? <==> forall i :: 0 <= i < |slots| ==> slots[i].block != block
    ensures r.Just? ==> exists i :: 0 <= i < |slots| && slots[i] == OnPageSlot(r.value, block)
                                    && forall j :: 0 <= j < i ==> slots[j].block != block
  {
    if |slots| == 0 then Nothing
    else if slots[0].block == block then Just(slots[0].buffer)
    else
      var r := FindSlot(slots[1..], block);
      assert forall i :: 0 < i < |slots| ==> slots[i] == slots[1..][i - 1];
      r
  }

  /** The on_page table read as a reverse lookup from a block to the buffer
      recorded for it: only the first on_page_idx slots are filled, and the
      earliest filled slot for the block decides. */
  function OnPageLookup(v: BufVec, block: Block): (r: Maybe<Buf>)
    requires Valid(v)
    ensures r.Nothing? <==> forall i :: 0 <= i < v.onPageIdx ==> v.onPage[i].block != block
    ensures r.Just? ==> exists i :: 0 <= i < v.onPageIdx && v.onPage[i] == OnPageSlot(r.value, block)
                                    && forall j :: 0 <= j < i ==> v.onPage[j].block != block
  {
    var filled := v.onPage[..v.onPageIdx];
    assert forall i :: 0 <= i < v.onPageIdx ==> filled[i] == v.onPage[i];
    FindSlot(filled, block)
  }

}
