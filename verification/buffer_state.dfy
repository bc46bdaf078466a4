/**
  The tux3 buffer lifecycle states and the delta constants they are built on.

  A buffer is freed, empty, clean, or dirty for exactly one delta (commit
  epoch).  The C header encodes these as consecutive integers: the three
  non-dirty states first, then one dirty state per delta, the last of them
  just below BUFFER_STATES.
 */
module BufferState {
  import opened Optional

  /** Number of live deltas: one frontend delta taking writes, one backend
      delta being flushed.  Must be a power of two. */
  const TUX3_MAX_DELTA: int := 2
  /** The delta number a filesystem starts with. */
  const TUX3_INIT_DELTA: int := 0

  /** The integer codes of the enum. */
  const BUFFER_FREED: int := 0
  const BUFFER_EMPTY: int := 1
  const BUFFER_CLEAN: int := 2
  const BUFFER_DIRTY: int := 3
  const BUFFER_STATES: int := BUFFER_DIRTY + TUX3_MAX_DELTA

  /** A delta as a dirty state can carry it: below TUX3_MAX_DELTA. */
  type Delta = d: int | 0 <= d < TUX3_MAX_DELTA

  datatype State = Freed | Empty | Clean | Dirty(delta: Delta)

  /** n is 1, 2, 4, 8, ... */
  predicate IsPowerOfTwo(n: int)
    decreases n
  {
    n == 1 || (n >= 2 && n % 2 == 0 && IsPowerOfTwo(n / 2))
  }

  /** The enum value of a state. */
  function Encode(s: State): (r: int)
    ensures 0 <= r < BUFFER_STATES
    ensures s.Dirty? <==> r >= BUFFER_DIRTY
    ensures s.Dirty? ==> r - BUFFER_DIRTY == s.delta
  {
    match s
    case Freed => BUFFER_FREED
    case Empty => BUFFER_EMPTY
    case Clean => BUFFER_CLEAN
    case Dirty(d) => BUFFER_DIRTY + d
  }

  /** The state an enum value stands for, if any. */
  function Decode(n: int): (r: Maybe<State>)
    ensures r.Just? <==> 0 <= n < BUFFER_STATES
    ensures r.Just? && n >= BUFFER_DIRTY ==> r.value.Dirty?
  {
    if n == BUFFER_FREED then Just(Freed)
    else if n == BUFFER_EMPTY then Just(Empty)
    else if n == BUFFER_CLEAN then Just(Clean)
    else if BUFFER_DIRTY <= n < BUFFER_STATES then Just(Dirty(n - BUFFER_DIRTY))
    else Nothing
  }

  /** The delta constants are as the header requires: the number of deltas
      is a power of two and the initial delta is one of them. */
  lemma DeltaConstants()
    ensures IsPowerOfTwo(TUX3_MAX_DELTA)
    ensures 0 <= TUX3_INIT_DELTA < TUX3_MAX_DELTA
  {
  }

  /** A dirty code stays below BUFFER_STATES exactly for the valid deltas, so
      each valid delta has its own dirty state and no other does. */
  lemma DirtyCodeInRange(d: nat)
    ensures BUFFER_DIRTY + d < BUFFER_STATES <==> d < TUX3_MAX_DELTA
  {
  }

  /** The non-dirty states sit strictly below every dirty state. */
  lemma NonDirtyBelowDirty(s: State, d: Delta)
    requires !s.Dirty?
    ensures Encode(s) < BUFFER_DIRTY <= Encode(Dirty(d))
  {
  }

  /** Decoding undoes encoding. */
  lemma DecodeEncode(s: State)
    ensures Decode(Encode(s)) == Just(s)
  {
  }

  /** Every code below BUFFER_STATES is the encoding of the state it decodes to. */
  lemma EncodeDecode(n: int)
    requires 0 <= n < BUFFER_STATES
    ensures Decode(n).Just? && Encode(Decode(n).value) == n
  {
  }

  /** Distinct states have distinct codes. */
  lemma EncodeInjective(a: State, b: State)
    ensures Encode(a) == Encode(b) <==> a == b
  {
    if Encode(a) == Encode(b) {
      DecodeEncode(a);
      DecodeEncode(b);
    }
  }

  /** The slot a delta number occupies: deltas count up forever, but a buffer
      only records the delta modulo TUX3_MAX_DELTA. */
  function DeltaSlot(delta: nat): (r: Delta)
    ensures (delta - r) % TUX3_MAX_DELTA == 0
  {
    delta % TUX3_MAX_DELTA
  }

  /** Because TUX3_MAX_DELTA is a power of two, the slot can equally be
      taken by masking the delta number with TUX3_MAX_DELTA - 1, which is 1. */
  lemma DeltaSlotIsMask(delta: nat)
    requires delta < 0x1_0000_0000
    ensures DeltaSlot(delta) as bv32 == (delta as bv32) & 1
  {
  }

  /** The frontend and backend deltas are at most TUX3_MAX_DELTA - 1 apart, so
      they always occupy different slots and a dirty state never confuses
      them. */
  lemma LiveDeltasDistinctSlots(backend: nat, frontend: nat)
    requires backend < frontend < backend + TUX3_MAX_DELTA
    ensures DeltaSlot(backend) != DeltaSlot(frontend)
  {
  }

}
