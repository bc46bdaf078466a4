/**
  A buffer as the inline helpers of the header see it: its block index and
  the two kernel flags that decide whether it is clean.
 */
module BufferHead {

  /** block_t is a signed 64-bit integer. */
  const BLOCK_MIN: int := -0x8000_0000_0000_0000
  const BLOCK_MAX: int := 0x7fff_ffff_ffff_ffff

  predicate InBlockRange(n: int) {
    BLOCK_MIN <= n <= BLOCK_MAX
  }

  type Block = n: int | InBlockRange(n)

  /** index stands for bufindex(buffer); dirty and uptodate for the kernel's
      buffer_dirty and buffer_uptodate flags. */
  datatype Buf = Buf(index: Block, dirty: bool, uptodate: bool)

  /** buffer_clean: a buffer is clean unless it is dirty with data that is
      not up to date. */
  function BufferClean(b: Buf): (r: bool)
    ensures !r <==> b.dirty && !b.uptodate
  {
    !b.dirty || b.uptodate
  }

  /** buffer_empty: every buffer counts as empty. */
  function BufferEmpty(b: Buf): (r: bool)
    ensures r
  {
    true
  }

  /** set_buffer_empty: marks nothing and hands the buffer back. */
  function SetBufferEmpty(b: Buf): (r: Buf)
    ensures r == b
  {
    b
  }

  /** A buffer that is not dirty is clean, and so is one whose data is up to date. */
  lemma NotDirtyIsClean(b: Buf)
    ensures !b.dirty ==> BufferClean(b)
    ensures b.uptodate ==> BufferClean(b)
  {
  }

  /** set_buffer_empty changes neither what buffer_empty nor what
      buffer_clean says about a buffer. */
  lemma SetBufferEmptyPreserves(b: Buf)
    ensures BufferEmpty(SetBufferEmpty(b))
    ensures BufferClean(SetBufferEmpty(b)) == BufferClean(b)
  {
  }

}
