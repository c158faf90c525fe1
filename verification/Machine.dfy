/** What the modules share about C memory: 32-bit arithmetic and NUL-terminated strings. */
module Machine {

  const TWO_32: nat := 0x1_0000_0000

  /** Whole turns of a 32-bit word do not show. */
  lemma {:induction false} WholeTurns(x: nat, turns: int)
    requires x < TWO_32
    ensures (x + TWO_32 * turns) % TWO_32 == x
  {
  }

  /** A C string in memory: everything before the first NUL. */
  function CString<T(==)>(memory: seq<T>, nul: T): seq<T> {
    if memory == [] || memory[0] == nul then [] else [memory[0]] + CString(memory[1..], nul)
  }

  lemma {:induction false} CStringIsPrefix<T>(memory: seq<T>, nul: T, k: nat)
    requires k <= |memory| && (forall i :: 0 <= i < k ==> memory[i] != nul)
    requires k < |memory| ==> memory[k] == nul
    ensures CString(memory, nul) == memory[..k]
  {
    if k > 0 {
      CStringIsPrefix(memory[1..], nul, k - 1);
      assert memory[..k] == [memory[0]] + memory[1..][..k - 1];
    }
  }
}
