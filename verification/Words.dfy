/** Unsigned 32-bit arithmetic as the firmware's counters use it: additions and
    subtractions are taken modulo 2^32. */
module Words {
  const TWO32: int := 0x1_0000_0000

  type u32 = x: int | 0 <= x < TWO32

  function Wrap(x: int): u32 {
    x % TWO32
  }

  /** `a - b` on two uint32_t values. */
  function Sub(a: u32, b: u32): u32 {
    (a - b) % TWO32
  }

  function Min(a: int, b: int): int {
    if a <= b then a else b
  }

  function Max(a: int, b: int): int {
    if a >= b then a else b
  }

  datatype Option<+T> = None | Some(value: T)

  lemma WrapAdd(x: nat, n: nat)
    ensures Wrap(Wrap(x) + n) == Wrap(x + n)
  {
  }

  // ---- sequences ---------------------------------------------------------------

  lemma Regroup<T>(a: seq<T>, b: seq<T>, c: seq<T>)
    ensures a + (b + c) == (a + b) + c
  {
  }

  /** from, from + 1, ..., from + n - 1. */
  function CountUp(from: nat, n: nat): (r: seq<nat>)
    ensures |r| == n
    ensures forall i :: 0 <= i < n ==> r[i] == from + i
  {
    seq(n, i => from + i)
  }

  function Elements(s: seq<nat>): (e: set<nat>)
    ensures forall x :: x in e <==> x in s
  {
    if s == [] then {} else Elements(s[..|s| - 1]) + {s[|s| - 1]}
  }

  lemma {:induction false} AscendingSize(s: seq<nat>)
    requires Ascending(s)
    ensures |Elements(s)| == |s|
    decreases |s|
  {
    if s != [] {
      AscendingSize(s[..|s| - 1]);
      assert s[|s| - 1] !in s[..|s| - 1];
    }
  }

  ghost predicate Ascending(numbers: seq<nat>) {
    forall i, j :: 0 <= i < j < |numbers| ==> numbers[i] < numbers[j]
  }
}
