/** 32-bit words as integers, with the wrap-around and the bit masks written out. */
module Words {

  const TWO31: int := 0x8000_0000
  const TWO32: int := 0x1_0000_0000

  type Word = w: int | 0 <= w < 0x1_0000_0000
  type Int32 = i: int | -0x8000_0000 <= i < 0x8000_0000

  function Add(w: Word, n: int): Word {
    (w + n) % TWO32
  }

  function Sub(w: Word, n: int): Word {
    (w - n) % TWO32
  }

  /** Two's complement wrap-around, as `std::atomic<int32_t>` arithmetic performs it. */
  function Wrap(i: int): Int32 {
    (i + TWO31) % TWO32 - TWO31
  }

  /** `w & 1` */
  predicate Odd(w: Word) {
    w % 2 == 1
  }

  /** `w | 1` */
  function SetLow(w: Word): Word {
    w - w % 2 + 1
  }

  /** `w & ~1` */
  function ClearLow(w: Word): Word {
    w - w % 2
  }
}
