/** The C uint64_t as its 64 bits, lowest first, with the operators the bitmap code uses. */
module Words {
  type Word = w: seq<bool> | |w| == 64 witness seq(64, _ => false)

  const ZERO: Word := seq(64, _ => false)

  const ONE: Word := seq(64, i => i == 0)

  function And(v: Word, w: Word): Word {
    seq(64, i requires 0 <= i < 64 => v[i] && w[i])
  }

  function Or(v: Word, w: Word): Word {
    seq(64, i requires 0 <= i < 64 => v[i] || w[i])
  }

  function Not(w: Word): Word {
    seq(64, i requires 0 <= i < 64 => !w[i])
  }

  /** Defined in C for shifts below the width only. */
  function ShiftLeft(w: Word, k: nat): Word
    requires k < 64
  {
    seq(64, i requires 0 <= i < 64 => i >= k && w[i - k])
  }

  /** w & (1 << k) tests bit k. */
  lemma TestBit(w: Word, k: nat)
    requires k < 64
    ensures And(w, ShiftLeft(ONE, k)) == ZERO <==> !w[k]
  {
    assert And(w, ShiftLeft(ONE, k))[k] == w[k];
  }

  /** w | (1 << k) changes bit k alone, to one. */
  lemma SetBit(w: Word, k: nat)
    requires k < 64
    ensures Or(w, ShiftLeft(ONE, k)) == w[k := true]
  {
  }

  /** w & ~(1 << k) changes bit k alone, to zero. */
  lemma ClearBit(w: Word, k: nat)
    requires k < 64
    ensures And(w, Not(ShiftLeft(ONE, k))) == w[k := false]
  {
  }
}
