/** Unsigned 32-bit arithmetic, which wraps around. */
module Words {
  const WORD: nat := 0x1_0000_0000

  type Word = x: int | 0 <= x < WORD

  /** The conversion of any integer to 32 bits. */
  function Wrap(x: int): Word {
    x % WORD
  }

  lemma WrapOfWord(x: int)
    requires 0 <= x < WORD
    ensures Wrap(x) == x
  {
  }

  function Add(x: Word, y: Word): Word {
    if x + y < WORD then x + y else x + y - WORD
  }

  /** A sum may be wrapped at the end or part by part. */
  lemma WrapOfSum(x: int, y: int)
    ensures Wrap(x + y) == Add(Wrap(x), Wrap(y))
  {
    var a, b := x / WORD, y / WORD;
    assert x + y == (Wrap(x) + Wrap(y)) + (a + b) * WORD;
    WrapShift(Wrap(x) + Wrap(y), a + b);
  }

  lemma {:induction false} WrapShift(x: int, k: int)
    ensures Wrap(x + k * WORD) == Wrap(x)
    decreases if k >= 0 then k else -k
  {
    if k > 0 {
      WrapShift(x, k - 1);
      assert x + k * WORD == (x + (k - 1) * WORD) + WORD;
    } else if k < 0 {
      WrapShift(x, k + 1);
      assert x + k * WORD == (x + (k + 1) * WORD) - WORD;
    }
  }
}
