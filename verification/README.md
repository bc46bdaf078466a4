# tux3 buffer header, modelled in Dafny

This project models the visible logic of tux3's `buffer.h`. tux3 is a
Linux filesystem whose block buffers are versioned by commit epoch ("delta"):
one frontend delta takes writes while one backend delta is flushed. The
header defines three things, and each has a module here. A fourth, small
module holds the lookup result type.

- `BufferState` (`buffer_state.dfy`): the delta constants `TUX3_MAX_DELTA` and
  `TUX3_INIT_DELTA`. It also holds the buffer lifecycle enum: `BUFFER_FREED`,
  `BUFFER_EMPTY` and `BUFFER_CLEAN`, then one `BUFFER_DIRTY + delta` state per
  delta, bounded by `BUFFER_STATES`. The enum becomes the datatype
  `Freed | Empty | Clean | Dirty(delta)`. `Encode` maps it to the C codes and
  `Decode` maps codes back, so the encoding can be checked against its inverse.
- `BufferHead` (`buffer_head.dfy`): a buffer as the inline helpers see it. It
  carries the `block_t` index that `bufindex` returns and the kernel's
  `dirty` and `uptodate` flags. It also holds `buffer_clean`, `buffer_empty`
  and `set_buffer_empty`.
- `BufVec` (`bufvec.dfy`): `struct bufvec` as an immutable record. `contig`
  is the run being built, a sequence of buffers, and `contig_count` is its
  count. `on_page` is the fixed table of `BUFS_PER_PAGE_CACHE` slots, and
  `on_page_idx` counts its filled slots. `Valid` states what the fields mean
  together. The helpers `bufvec_contig_count`, `bufvec_contig_buf`,
  `bufvec_contig_index` and `bufvec_contig_last_index` are proved against
  `Valid`.
- `Optional` (`optional.dfy`): the `Maybe` type that decoding and lookup return.

`block_t` is a signed 64-bit integer. It is modelled as the subset type
`Block` of `int`. `bufvec_contig_last_index` computes
`first + contig_count - 1` in that type, so the model requires the sum to fit
(`LastIndexFits`). `ValidLastIndexFits` proves that every valid non-empty
bufvec meets this condition.

## Model

| member | source | states |
|---|---|---|
| BufferState.Encode | buffer.h:21-24 | every state has a code in `[0, BUFFER_STATES)`; a code is at least `BUFFER_DIRTY` exactly when the state is dirty, and a dirty code minus `BUFFER_DIRTY` is its delta |
| BufferState.Decode | buffer.h:21-24 | a code decodes to a state exactly when it lies in `[0, BUFFER_STATES)`; codes from `BUFFER_DIRTY` up decode to dirty states |
| BufferState.DecodeEncode | buffer.h:22-23 | decoding the code of any state gives that state back |
| BufferState.EncodeDecode | buffer.h:23 | every code below `BUFFER_STATES` is the code of the state it decodes to, so the enum has no gaps |
| BufferState.EncodeInjective | buffer.h:21-24 | two states have the same code exactly when they are the same state |
| BufferState.DeltaConstants | buffer.h:17-19 | `TUX3_MAX_DELTA` is a power of two, and `TUX3_INIT_DELTA` is a valid delta |
| BufferState.DirtyCodeInRange | buffer.h:18-23 | for every delta `d`, `BUFFER_DIRTY + d < BUFFER_STATES` holds exactly when `d < TUX3_MAX_DELTA` |
| BufferState.NonDirtyBelowDirty | buffer.h:21-22 | freed, empty and clean all encode strictly below `BUFFER_DIRTY`, and every dirty state encodes at or above it |
| BufferState.DeltaSlot | buffer.h:17-18 | the slot a delta number occupies differs from the delta number by a multiple of `TUX3_MAX_DELTA` and is itself a valid delta |
| BufferState.LiveDeltasDistinctSlots | buffer.h:18 | a backend delta and a frontend delta less than `TUX3_MAX_DELTA` apart occupy different slots |
| BufferHead.BufferClean | buffer.h:45-48 | a buffer is unclean exactly when it is dirty and not up to date |
| BufferHead.NotDirtyIsClean | buffer.h:47 | a buffer that is not dirty is clean, and so is a buffer that is up to date |
| BufferHead.BufferEmpty | buffer.h:55-58 | every buffer is reported empty |
| BufferHead.SetBufferEmpty | buffer.h:60-63 | the buffer is returned unchanged |
| BufferHead.SetBufferEmptyPreserves | buffer.h:55-63 | after `set_buffer_empty` the buffer is empty, and whether it is clean does not change |
| BufVec.ConsecutiveIndexAt | buffer.h:124 | in one contiguous range, the i-th buffer is i blocks past the first |
| BufVec.ConsecutiveIff | buffer.h:124-125 | a non-empty run is contiguous exactly when its indices are first, first + 1, ... in order |
| BufVec.ContigCount | buffer.h:145-148 | in a valid bufvec the count is the number of buffers in the run |
| BufVec.ContigBuf | buffer.h:150-155 | needs a non-empty run; returns a buffer of the run whose index is strictly below every other buffer's in a valid bufvec |
| BufVec.ContigIndex | buffer.h:161-164 | needs a non-empty run; returns the first buffer's index, and in a valid bufvec the i-th buffer has this index plus i |
| BufVec.ContigLastIndex | buffer.h:166-169 | needs a non-empty run and a sum that fits `block_t`; in a valid bufvec the result is the last buffer's index, every buffer lies between first and last, and so last is never below first |
| BufVec.ValidLastIndexFits | buffer.h:15 | in every valid non-empty bufvec, `first + contig_count - 1` fits in signed 64 bits |
| BufVec.OnPageCapacity | buffer.h:121-133 | in a valid bufvec, `on_page` has one slot per 512-byte block of a page, and its filled slots (`on_page_idx` of them) cover at most one page |
| BufVec.OnPageLookup | buffer.h:129-133 | a block is found in the filled slots of `on_page` exactly when a filled slot records it, and the buffer found is the one recorded by the earliest filled slot for that block |
| BufferState.DeltaSlotIsMask | buffer.h:17 | for every delta number that fits in 32 bits, its slot equals the number masked with `TUX3_MAX_DELTA - 1` |

## Left out

- `PAGE_CACHE_SIZE` is a kernel constant and is not defined in the header. It is fixed here at 4096 bytes, which gives 8 `on_page` slots.
- The header only declares `bufindex`. A buffer's index is an abstract `block_t` field instead.
- The header only declares the functions that dirty, clear, free, invalidate and fork buffers (`buffer_already_dirty`, `buffer_can_modify`, `tux3_set_buffer_dirty_list`, `tux3_set_buffer_dirty`, `tux3_clear_buffer_dirty`, `blockput_free`, `blockput_free_unify`, `tux3_invalidate_buffer`, `free_forked_buffers`, `blockdirty`, `pagefork_for_blockdirty` and `bufferfork_to_invalidate`). Their bodies are not part of this model, so no behaviour is assumed for them.
- Run building and I/O (`bufvec_contig_add`, `flush_list`, `bufvec_io`, `bufvec_compressed_io`, `__tux3_volmap_io`, `tux3_volmap_io`, `tux3_iowait_init` and `tux3_iowait_wait`) are also declared only and are not modelled. This covers the splitting of dirty lists into contiguous, page-bounded runs.
- `struct iowait` and `struct compressed_bio` are atomic counters, completions and page arrays used across threads. They are concurrency state, and the header shows no logic for them.
- `bufdata`, `bufsize`, `bufcount`, `blockput`, `bufvec_inode` and `buffer_forked` / `PageForked` / `SetPageForked` only read a kernel field or call a kernel primitive (`atomic_read`, `put_bh`, the page-checked flag under `lock_page`). They are not modelled.
- The `buffers`, `idata`, `mapping`, `cb`, `bio` and `bio_lastbuf` fields of `struct bufvec` are left out of the record. `buffers`, `mapping`, `bio` and `bio_lastbuf` point at kernel lists, address spaces, bios and buffer heads. `idata` points at tux3's `struct tux3_iattr_data`, which the header only declares. `cb` points at tux3's `struct compressed_bio`, which is left out above. No header helper uses any of them beyond `bufvec_inode`'s field read.
- `bufvec_buffer_for_each_contig` is the kernel list iteration over `contig`. A Dafny sequence takes its place.
- BufferState.DeltaSlot: the header does not show how a delta number is reduced to a slot. The model takes the remainder modulo `TUX3_MAX_DELTA`. `DeltaSlotIsMask` proves that this equals the bit mask only for delta numbers below 2^32.
- BufferHead.BufferClean: the `dirty` and `uptodate` flags are the kernel's buffer-head bits. The model does not relate them to the tux3 lifecycle state, because the header does not.
- BufVec.OnPageLookup: the header declares only the `on_page` table and its fill index, not a lookup routine. The lookup reads the filled slots as a reverse map from block to buffer, which is the table's role. The completion code that consults the table is not part of this model.
- BufVec.ContigLastIndex: C adds `contig_count` to the first index before subtracting 1 (buffer.h:168). When the last index is the largest `block_t`, that intermediate sum overflows. The result is still right only because kernel builds make signed overflow wrap. The model checks that the final value fits, not the intermediate sum.
