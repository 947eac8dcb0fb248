/** The adaptive read size of io.rs: `ReadStrategy`, `incr_power_of_two`, `prev_power_of_two`. */
module ReadStrategy {
  import opened Bytes

  const INIT_BUFFER_SIZE: nat := 8192
  const DEFAULT_MAX_BUFFER_SIZE: nat := 8192 + 4096 * 100
  const USIZE_MAX: nat := TWO_64 - 1

  datatype Strategy =
    | Adaptive(decreaseNow: bool, next: nat, max: nat)
    | Exact(size: nat)
  {
    function Next(): nat {
      match this case Adaptive(_, n, _) => n case Exact(n) => n
    }

    function MaxSize(): nat {
      match this case Adaptive(_, _, m) => m case Exact(n) => n
    }
  }

  function WithMax(max: nat): Strategy {
    Adaptive(false, INIT_BUFFER_SIZE, max)
  }

  /** Position of the highest one bit. */
  function Log2(n: nat): (k: nat)
    requires n > 0
    ensures Pow2(k) <= n < 2 * Pow2(k)
  {
    if n == 1 then 0 else 1 + Log2(n / 2)
  }

  lemma {:induction false} Pow2Monotone(a: nat, b: nat)
    requires a <= b
    ensures Pow2(a) <= Pow2(b)
    decreases b - a
  {
    if a < b {
      Pow2Monotone(a, b - 1);
    }
  }

  lemma {:induction false} Pow2Sum(a: nat, b: nat)
    ensures Pow2(a + b) == Pow2(a) * Pow2(b)
    decreases a
  {
    if a > 0 {
      Pow2Sum(a - 1, b);
    }
  }

  lemma Pow2Of64()
    ensures Pow2(64) == TWO_64
  {
    assert Pow2(8) == 256;
    Pow2Sum(8, 8);
    Pow2Sum(16, 16);
    Pow2Sum(32, 32);
    hide Pow2;
    assert Pow2(16) == 0x1_0000 && Pow2(32) == 0x1_0000_0000;
  }

  /** The bit count `usize::leading_zeros` on 64-bit words. */
  function LeadingZeros(n: nat): (r: nat)
    requires 0 < n <= USIZE_MAX
    ensures r <= 63
  {
    LogBelow64(n);
    63 - Log2(n)
  }

  lemma LogBelow64(n: nat)
    requires 0 < n <= USIZE_MAX
    ensures Log2(n) <= 63
  {
    if Log2(n) >= 64 {
      Pow2Monotone(64, Log2(n));
      Pow2Of64();
    }
  }

  function SaturatingDouble(n: nat): nat {
    Min(2 * n, USIZE_MAX)
  }

  /** `n >> k`. */
  function ShiftRight(n: nat, k: nat): nat {
    if k == 0 then n else ShiftRight(n / 2, k - 1)
  }

  /** `(usize::MAX >> (n.leading_zeros() + 2)) + 1`. */
  function PrevPowerOfTwo(n: nat): nat
    requires 4 <= n <= USIZE_MAX
  {
    ShiftRight(USIZE_MAX, LeadingZeros(n) + 2) + 1
  }

  ghost predicate IsPowerOfTwo(n: nat) {
    exists k: nat :: n == Pow2(k)
  }

  /** Shifting a block of ones right drops that many ones. */
  lemma {:induction false} ShiftOfOnes(a: nat, k: nat)
    ensures ShiftRight(Pow2(a + k) - 1, k) == Pow2(a) - 1
    decreases k
  {
    if k > 0 {
      assert (Pow2(a + k) - 1) / 2 == Pow2(a + (k - 1)) - 1;
      ShiftOfOnes(a, k - 1);
    }
  }

  /** The shift computes half of the largest power of two not exceeding `n`. */
  lemma PrevPowerOfTwoIsHalf(n: nat)
    requires 4 <= n <= USIZE_MAX
    ensures IsPowerOfTwo(PrevPowerOfTwo(n))
    ensures 2 * PrevPowerOfTwo(n) <= n < 4 * PrevPowerOfTwo(n)
  {
    var k := Log2(n);
    LogBelow64(n);
    assert Pow2(2) == 4;
    assert k >= 2;
    Pow2Of64();
    ShiftOfOnes(k - 1, 65 - k);
    hide ShiftRight;
    assert PrevPowerOfTwo(n) == Pow2(k - 1);
  }

  /** `ReadStrategy::record`. */
  function Recorded(s: Strategy, bytesRead: nat): Strategy
    requires s.Adaptive? ==> 4 <= s.next <= USIZE_MAX
  {
    match s
    case Adaptive(decreaseNow, next, max) =>
      if bytesRead >= next then
        Adaptive(false, Min(SaturatingDouble(next), max), max)
      else if bytesRead < PrevPowerOfTwo(next) then
        if decreaseNow then Adaptive(false, Max(PrevPowerOfTwo(next), INIT_BUFFER_SIZE), max)
        else Adaptive(true, next, max)
      else Adaptive(false, next, max)
    case Exact(_) => s
  }

  predicate InRange(s: Strategy) {
    s.Adaptive? ==> INIT_BUFFER_SIZE <= s.next <= s.max <= USIZE_MAX
  }

  /** The read size stays between the initial size and the maximum. */
  lemma RecordedInRange(s: Strategy, n: nat)
    requires InRange(s)
    ensures InRange(Recorded(s, n)) && Recorded(s, n).MaxSize() == s.MaxSize()
  {
    if s.Adaptive? {
      PrevPowerOfTwoIsHalf(s.next);
    }
  }

  function RecordAll(s: Strategy, sizes: seq<nat>): (r: Strategy)
    requires InRange(s)
    ensures InRange(r)
    decreases |sizes|
  {
    if sizes == [] then s
    else
      var before := RecordAll(s, sizes[..|sizes| - 1]);
      RecordedInRange(before, sizes[|sizes| - 1]);
      Recorded(before, sizes[|sizes| - 1])
  }

  /** A read strictly below half the largest power of two not exceeding the current size. */
  predicate Small(s: Strategy, n: nat)
    requires InRange(s) && s.Adaptive?
  {
    n < PrevPowerOfTwo(s.next)
  }

  lemma InitIsPowerOfTwo()
    ensures IsPowerOfTwo(INIT_BUFFER_SIZE)
  {
    assert Pow2(13) == INIT_BUFFER_SIZE;
  }

  /**
   Over every run from `with_max`: the size is in range, a pending decrease means the last
   read was small at the current size, and a step that lowers the size follows two
   consecutive small reads, lands on a power of two and is at least the initial size.
   */
  lemma {:induction false} DecreaseNeedsTwoSmallReads(max: nat, sizes: seq<nat>)
    requires INIT_BUFFER_SIZE <= max <= USIZE_MAX
    ensures var s := RecordAll(WithMax(max), sizes);
            && s.Adaptive? && s.max == max
            && INIT_BUFFER_SIZE <= s.next <= max
            && (s.decreaseNow ==>
                  sizes != []
                  && RecordAll(WithMax(max), sizes[..|sizes| - 1]) == s.(decreaseNow := false)
                  && Small(s, sizes[|sizes| - 1]))
    ensures sizes != [] ==>
              var before := RecordAll(WithMax(max), sizes[..|sizes| - 1]);
              var after := RecordAll(WithMax(max), sizes);
              before.Adaptive? && after.Adaptive?
              && (after.next < before.next ==>
                    && |sizes| >= 2
                    && RecordAll(WithMax(max), sizes[..|sizes| - 2]).Next() == before.next
                    && Small(before, sizes[|sizes| - 2]) && Small(before, sizes[|sizes| - 1])
                    && IsPowerOfTwo(after.next)
                    && after.next == Max(PrevPowerOfTwo(before.next), INIT_BUFFER_SIZE))
    decreases |sizes|
  {
    if sizes != [] {
      var init := sizes[..|sizes| - 1];
      DecreaseNeedsTwoSmallReads(max, init);
      RecordStep(RecordAll(WithMax(max), init), sizes[|sizes| - 1]);
      if init != [] {
        assert init[..|init| - 1] == sizes[..|sizes| - 2];
        assert init[|init| - 1] == sizes[|sizes| - 2];
      }
      hide Recorded, PrevPowerOfTwo, IsPowerOfTwo;
    }
  }

  /** One record: what arms a decrease, and what carries it out. */
  lemma RecordStep(s: Strategy, n: nat)
    requires InRange(s) && s.Adaptive?
    ensures var after := Recorded(s, n);
            && after.Adaptive? && after.max == s.max && InRange(after)
            && (after.decreaseNow ==> !s.decreaseNow && after == s.(decreaseNow := true) && Small(s, n))
            && (after.next < s.next ==>
                  s.decreaseNow && Small(s, n) && IsPowerOfTwo(after.next)
                  && after.next == Max(PrevPowerOfTwo(s.next), INIT_BUFFER_SIZE))
  {
    PrevPowerOfTwoIsHalf(s.next);
    InitIsPowerOfTwo();
    RecordedInRange(s, n);
    hide PrevPowerOfTwo, IsPowerOfTwo;
  }

  /**
   Every outcome of a read. One that filled the buffer doubles the size, up to the maximum; one
   below half the largest power of two not above the size arms a decrease, or carries one out;
   any other leaves the size and disarms.
   */
  lemma RecordedIs(s: Strategy, n: nat)
    requires InRange(s) && s.Adaptive?
    ensures n >= s.next ==> Recorded(s, n) == Adaptive(false, Min(2 * s.next, s.max), s.max)
    ensures forall k: nat :: 2 * Pow2(k) <= s.next < 4 * Pow2(k) && n < s.next ==>
              Recorded(s, n) == if n >= Pow2(k) then Adaptive(false, s.next, s.max)
                                else if !s.decreaseNow then Adaptive(true, s.next, s.max)
                                else Adaptive(false, Max(Pow2(k), 8192), s.max)
  {
    hide PrevPowerOfTwo, Pow2;
    var prev := PrevPowerOfTwo(s.next);
    PrevPowerOfTwoIsHalf(s.next);
    var j: nat :| prev == Pow2(j);
    forall k: nat | 2 * Pow2(k) <= s.next < 4 * Pow2(k) ensures k == j {
      OneHalf(s.next, j, k);
    }
  }

  lemma OneHalf(n: nat, j: nat, k: nat)
    requires 2 * Pow2(j) <= n < 4 * Pow2(j) && 2 * Pow2(k) <= n < 4 * Pow2(k)
    ensures j == k
  {
    if k < j { Pow2Doubles(k, j); }
    if j < k { Pow2Doubles(j, k); }
  }

  lemma Pow2Doubles(a: nat, b: nat)
    requires a < b
    ensures 2 * Pow2(a) <= Pow2(b)
  {
    Pow2Monotone(a + 1, b);
  }

  /** As long as every read fills the buffer the size doubles, up to the maximum. */
  lemma {:induction false} FullReadsDouble(max: nat, sizes: seq<nat>)
    requires INIT_BUFFER_SIZE <= max <= USIZE_MAX
    requires forall i :: 0 <= i < |sizes| ==> sizes[i] >= RecordAll(WithMax(max), sizes[..i]).Next()
    ensures RecordAll(WithMax(max), sizes).Adaptive? && RecordAll(WithMax(max), sizes).max == max
    ensures RecordAll(WithMax(max), sizes).Next() == Min(8192 * Pow2(|sizes|), max)
    decreases |sizes|
  {
    if sizes != [] {
      var n := |sizes| - 1;
      forall i | 0 <= i < n ensures sizes[..n][i] >= RecordAll(WithMax(max), sizes[..n][..i]).Next() {
        assert sizes[..n][..i] == sizes[..i];
      }
      FullReadsDouble(max, sizes[..n]);
      RecordedIs(RecordAll(WithMax(max), sizes[..n]), sizes[n]);
      hide Recorded;
    }
  }
}
