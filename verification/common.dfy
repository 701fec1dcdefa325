/** Small shared vocabulary: an optional value (for C# null references) and
    32-bit signed integer wrap-around (for unchecked C# `int` arithmetic). */
module Common {

  /** A value that may be missing, as a nullable C# reference may be. */
  datatype Option<+T> = None | Some(value: T)

  const MinInt32: int := -0x8000_0000
  const MaxInt32: int := 0x7fff_ffff

  predicate IsInt32(x: int) {
    MinInt32 <= x <= MaxInt32
  }

  /** The two's-complement value a C# `int` holds after an unchecked operation
      whose mathematical result is `x`. */
  function WrapInt32(x: int): (r: int)
    ensures IsInt32(r)
    ensures IsInt32(x) ==> r == x
    ensures (r - x) % 0x1_0000_0000 == 0
  {
    (x - MinInt32) % 0x1_0000_0000 + MinInt32
  }

  /** Number of `true` entries in a sequence of flags. */
  function CountTrue(s: seq<bool>): (n: nat)
    ensures n <= |s|
  {
    if |s| == 0 then 0 else (if s[|s| - 1] then 1 else 0) + CountTrue(s[..|s| - 1])
  }

  /** Counting over a longer prefix never gives fewer flags. */
  lemma {:induction false} CountTruePrefixMonotone(s: seq<bool>, i: nat, k: nat)
    requires i <= k <= |s|
    ensures CountTrue(s[..i]) <= CountTrue(s[..k])
    decreases k - i
  {
    if i < k {
      CountTruePrefixMonotone(s, i, k - 1);
      assert s[..k][..k - 1] == s[..k - 1];
    }
  }
}
