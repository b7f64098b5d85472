/** The flat data memory: a sequence of 64-bit cells and the contiguous-range
    update the write phase performs. The simulator's memory is a NumPy array
    of `dtype=int`, the C `long`, which is 64 bits wide on 64-bit Linux and
    macOS; that is the platform the cells assume. The memory's length is the
    simulator's `mem_size`. */
module Memory {

  type Cell = bv64

  /** One operand: `operand_size` contiguous cells (a 10x10 matrix by default). */
  type Operand = seq<Cell>

  /** The range `[ptr, ptr + n)` lies inside a memory of `memSize` cells. */
  predicate InRange(memSize: int, n: nat, ptr: int) {
    0 <= ptr && ptr + n <= memSize
  }

  /** The ranges `[p, p + n)` and `[q, q + n)` share no cell. */
  predicate Disjoint(p: int, q: int, n: nat) {
    p + n <= q || q + n <= p
  }

  /** `memory[ptr:ptr+len(out)] = out` */
  function Store(mem: seq<Cell>, ptr: int, out: Operand): (r: seq<Cell>)
    requires InRange(|mem|, |out|, ptr)
    ensures |r| == |mem|
    ensures forall j :: 0 <= j < |mem| ==>
              r[j] == if ptr <= j < ptr + |out| then out[j - ptr] else mem[j]
  {
    mem[..ptr] + out + mem[ptr + |out|..]
  }

  /** Reading back the range just stored gives what was stored. */
  lemma ReadAfterStore(mem: seq<Cell>, ptr: int, out: Operand)
    requires InRange(|mem|, |out|, ptr)
    ensures Store(mem, ptr, out)[ptr..ptr + |out|] == out
  {
  }

  /** A store leaves every range disjoint from it as it was. */
  lemma StoreFrame(mem: seq<Cell>, ptr: int, out: Operand, q: int)
    requires InRange(|mem|, |out|, ptr)
    requires InRange(|mem|, |out|, q)
    requires Disjoint(ptr, q, |out|)
    ensures Store(mem, ptr, out)[q..q + |out|] == mem[q..q + |out|]
  {
  }
}
