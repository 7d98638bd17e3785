/** Pointers as the lock-free code sees them: an address and the low tag bit. */
module Words {

  /** An address; 0 is the null pointer. */
  type Addr = nat

  /** A thread. */
  type Tid = nat

  /** A pointer-sized word: nodes are aligned, so bit 0 is free to carry a mark. */
  datatype Word = Word(ptr: Addr, tag: bool)

  const NULL := Word(0, false)
  const MARKED_NULL := Word(0, true)

  datatype Option<+T> = None | Some(value: T)

  function Mark(w: Word): Word {
    w.(tag := true)
  }

  function Clear(w: Word): Word {
    w.(tag := false)
  }

  predicate Marked0(w: Word) {
    w.tag
  }
}
