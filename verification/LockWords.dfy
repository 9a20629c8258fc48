/**
 The 32-bit word of the eventfd and parking mutexes: bit 0 is the lock bit, bits 1 to 31
 count the registered waiters. The machines work on the two parts; the lemmas below say
 that their operations are the ones the code performs on the `uint32_t`.
 */
module LockWords {
  import opened Words

  datatype LockWord = LockWord(waiters: nat, locked: bool) {

    /** The `uint32_t` itself. */
    function Bits(): nat {
      2 * waiters + if locked then 1 else 0
    }

    /** `w + 2`, with the wrap-around of the count. */
    function AddWaiter(): LockWord {
      LockWord(if waiters + 1 >= TWO31 then waiters + 1 - TWO31 else waiters + 1, locked)
    }

    /** `w - 2`, with the wrap-around of the count. */
    function RemoveWaiter(): LockWord {
      LockWord(if waiters == 0 then TWO31 - 1 else waiters - 1, locked)
    }

    /** `w | 1` */
    function Locked(): LockWord {
      LockWord(waiters, true)
    }

    /** `w & ~1` */
    function Unlocked(): LockWord {
      LockWord(waiters, false)
    }
  }

  const FREE := LockWord(0, false)

  /** Every `uint32_t` is one lock word, read off its bits. */
  function FromBits(w: Word): (l: LockWord)
    ensures l.waiters < TWO31 && l.Bits() == w
  {
    LockWord(w / 2, w % 2 == 1)
  }

  /** The operations on the parts are the code's operations on the `uint32_t`. */
  lemma BitsAgree(l: LockWord)
    requires l.waiters < TWO31
    ensures l.Bits() < TWO32 && FromBits(l.Bits()) == l
    ensures l.AddWaiter().Bits() == Add(l.Bits(), 2)
    ensures l.RemoveWaiter().Bits() == Sub(l.Bits(), 2)
    ensures l.Locked().Bits() == SetLow(l.Bits())
    ensures l.Unlocked().Bits() == ClearLow(l.Bits())
    ensures l.locked <==> Odd(l.Bits())
    ensures l.waiters > 0 <==> l.Bits() > 1
    ensures l == FREE <==> l.Bits() == 0
  {
  }
}
