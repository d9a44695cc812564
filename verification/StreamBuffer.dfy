/** The host side of the preview: the plot buffer that must always hold the newest samples,
    and the unwrapping of 16-bit sequence numbers into a time axis. */
module HostPreview {
  import opened Words
  import CrossCore

  /** The newest `n` elements, or all if there are fewer. */
  function Newest<T>(s: seq<T>, n: nat): seq<T> {
    if |s| <= n then s else s[|s| - n..]
  }

  /** What one append leaves in a buffer of twice `cap`. */
  function Appended<T>(content: seq<T>, xs: seq<T>, cap: nat): seq<T> {
    var add := Newest(xs, cap);
    (if |content| + |add| > 2 * cap then Newest(content, cap) else content) + add
  }

  lemma NewestOfConcat<T>(a: seq<T>, b: seq<T>, n: nat)
    ensures Newest(a + b, n) == if |b| >= n then Newest(b, n) else Newest(a, n - |b|) + b
  {
  }

  lemma NewestOfNewest<T>(a: seq<T>, n: nat, m: nat)
    requires n <= m
    ensures Newest(Newest(a, m), n) == Newest(a, n)
  {
  }

  /** What agrees in its newest n elements agrees in its newest m <= n. */
  lemma FewerAgree<T>(a: seq<T>, b: seq<T>, n: nat, m: nat)
    requires Newest(a, n) == Newest(b, n) && m <= n
    ensures Newest(a, m) == Newest(b, m)
  {
    NewestOfNewest(a, m, n);
    NewestOfNewest(b, m, n);
  }

  lemma ShortBatchAgrees<T>(a: seq<T>, b: seq<T>, x: seq<T>, n: nat)
    requires Newest(a, n) == Newest(b, n) && |x| < n
    ensures Newest(a + x, n) == Newest(b + x, n)
  {
    NewestOfConcat(a, x, n);
    NewestOfConcat(b, x, n);
    FewerAgree(a, b, n, n - |x|);
  }

  lemma LongBatchCovers<T>(a: seq<T>, x: seq<T>, n: nat)
    requires |x| >= n
    ensures Newest(a + x, n) == Newest(x, n)
  {
    NewestOfConcat(a, x, n);
  }

  /** The buffer refines the full append history: its newest `cap` entries are the newest
      `cap` of everything ever appended, and it never outgrows twice `cap`. */
  lemma AppendKeepsNewest<T>(history: seq<T>, content: seq<T>, xs: seq<T>, cap: nat)
    requires cap > 0 && |content| <= 2 * cap
    requires Newest(content, cap) == Newest(history, cap)
    ensures Newest(Appended(content, xs, cap), cap) == Newest(history + xs, cap)
    ensures |Appended(content, xs, cap)| <= 2 * cap
  {
    var add := Newest(xs, cap);
    var base := if |content| + |add| > 2 * cap then Newest(content, cap) else content;
    NewestOfNewest(content, cap, cap);
    if |xs| < cap {
      ShortBatchAgrees(base, history, xs, cap);
    } else {
      LongBatchCovers(base, add, cap);
      LongBatchCovers(history, xs, cap);
    }
  }

  ghost predicate IsSuffix<T>(s: seq<T>, of: seq<T>) {
    |s| <= |of| && s == of[|of| - |s|..]
  }

  /** With bursts of at most `cap` samples the whole content is one contiguous suffix of the
      history. */
  lemma AppendKeepsSuffix<T>(history: seq<T>, content: seq<T>, xs: seq<T>, cap: nat)
    requires cap > 0 && IsSuffix(content, history) && |xs| <= cap
    ensures IsSuffix(Appended(content, xs, cap), history + xs)
  {
    var base := if |content| + |xs| > 2 * cap then Newest(content, cap) else content;
    assert IsSuffix(base, history);
    assert (history + xs)[|history| - |base|..] == base + xs;
  }

  /** All states of the buffer over a run of appends. */
  function AfterAppends<T>(batches: seq<seq<T>>, cap: nat): seq<T> {
    if batches == [] then [] else Appended(AfterAppends(batches[..|batches| - 1], cap), batches[|batches| - 1], cap)
  }

  function AllOf<T>(batches: seq<seq<T>>): seq<T> {
    if batches == [] then [] else AllOf(batches[..|batches| - 1]) + batches[|batches| - 1]
  }

  lemma {:induction false} BufferHoldsTheNewest<T>(batches: seq<seq<T>>, cap: nat)
    requires cap > 0
    ensures Newest(AfterAppends(batches, cap), cap) == Newest(AllOf(batches), cap)
    ensures |AfterAppends(batches, cap)| <= 2 * cap
    ensures (forall b :: b in batches ==> |b| <= cap) ==> IsSuffix(AfterAppends(batches, cap), AllOf(batches))
    decreases |batches|
  {
    if batches != [] {
      var front, last := batches[..|batches| - 1], batches[|batches| - 1];
      BufferHoldsTheNewest(front, cap);
      AppendKeepsNewest(AllOf(front), AfterAppends(front, cap), last, cap);
      if forall b :: b in batches ==> |b| <= cap {
        assert forall b :: b in front ==> b in batches;
        assert last in batches;
        AppendKeepsSuffix(AllOf(front), AfterAppends(front, cap), last, cap);
      }
    }
  }

  /** StreamBuffer: one element stands for the (time, acceleration, rotation) row that the
      three parallel arrays hold at an index. */
  class StreamBuffer<T(0)> {
    const cap: nat
    var rows: array<T>
    var len: nat

    ghost predicate Valid()
      reads this
    {
      cap > 0 && rows.Length == 2 * cap && len <= rows.Length
    }

    ghost function Content(): seq<T>
      reads this, rows
      requires Valid()
    {
      rows[..len]
    }

    constructor (cap: nat, blank: T)
      requires cap > 0
      ensures Valid() && Content() == [] && this.cap == cap
    {
      this.cap := cap;
      rows := new T[2 * cap](_ => blank);
      len := 0;
    }

    method Clear()
      requires Valid()
      modifies `len
      ensures Valid() && Content() == []
    {
      len := 0;
    }

    /** Moves the newest `cap` rows to the front. */
    method Compact()
      requires Valid() && len > cap
      modifies `len, rows
      ensures Valid() && len == cap && Content() == old(Newest(Content(), cap))
    {
      ghost var before := rows[..];
      var from := len - cap;
      for i := 0 to cap
        invariant forall k :: 0 <= k < i ==> rows[k] == before[from + k]
        invariant forall k :: i <= k < rows.Length ==> rows[k] == before[k]
      {
        rows[i] := rows[from + i];
      }
      len := cap;
      assert rows[..len] == before[from..from + cap];
    }

    method Append(xs: seq<T>)
      requires Valid()
      modifies `len, rows
      ensures Valid() && Content() == old(Appended(Content(), xs, cap))
    {
      var add := if |xs| >= cap then xs[|xs| - cap..] else xs;
      assert add == Newest(xs, cap);
      if len + |add| > 2 * cap {
        Compact();
      }
      Store(add);
    }

    /** Copies rows behind the present content. */
    method Store(add: seq<T>)
      requires Valid() && len + |add| <= 2 * cap
      modifies `len, rows
      ensures Valid() && Content() == old(Content()) + add
    {
      ghost var base := Content();
      for i := 0 to |add|
        invariant len == |base| && len + |add| <= rows.Length && Valid()
        invariant rows[..len] == base
        invariant forall k :: len <= k < len + i ==> rows[k] == add[k - len]
      {
        rows[len + i] := add[i];
      }
      len := len + |add|;
      assert rows[..len] == base + add;
    }
  }

  // ---- seq16 unwrapping ----------------------------------------------------------------

  const SEQ16: int := CrossCore.SEQ16

  /** Absolute numbers the host assigns to the received 16-bit ones. */
  function Unwrap(last: int, abs: int, seq16: seq<int>): (out: seq<int>)
    ensures |out| == |seq16|
    decreases |seq16|
  {
    if seq16 == [] then []
    else
      var now := abs + (seq16[0] - last) % SEQ16;
      [now] + Unwrap(seq16[0], now, seq16[1..])
  }

  function Low16(numbers: seq<int>): (low: seq<int>)
    ensures |low| == |numbers|
  {
    seq(|numbers|, i requires 0 <= i < |numbers| => numbers[i] % SEQ16)
  }

  /** True sample numbers of the received samples; each gap is positive. */
  predicate Increasing(prev: int, numbers: seq<int>)
    decreases |numbers|
  {
    numbers == [] || (prev <= numbers[0] && Increasing(numbers[0], numbers[1..]))
  }

  predicate GapsBelowWrap(prev: int, numbers: seq<int>)
    decreases |numbers|
  {
    numbers == [] || (numbers[0] - prev < SEQ16 && GapsBelowWrap(numbers[0], numbers[1..]))
  }

  lemma Difference16(a: int, b: int)
    ensures (b % SEQ16 - a % SEQ16) % SEQ16 == (b - a) % SEQ16
  {
    assert b % SEQ16 - a % SEQ16 == (b - a) - SEQ16 * (b / SEQ16 - a / SEQ16);
    Shift16(b - a, -(b / SEQ16 - a / SEQ16));
  }

  lemma Shift16(x: int, k: int)
    ensures (x + SEQ16 * k) % SEQ16 == x % SEQ16
  {
  }

  /** The unwrapped times equal the true sample counts, up to the starting constant, exactly
      when every gap is below 65536 samples. */
  lemma {:induction false} UnwrapIsTrueIffGapsBelowWrap(prev: int, abs: int, numbers: seq<int>)
    requires Increasing(prev, numbers)
    ensures GapsBelowWrap(prev, numbers) <==>
      forall i :: 0 <= i < |numbers| ==> Unwrap(prev % SEQ16, abs, Low16(numbers))[i] == abs + (numbers[i] - prev)
    decreases |numbers|
  {
    if numbers != [] {
      var out := Unwrap(prev % SEQ16, abs, Low16(numbers));
      var now := abs + (numbers[0] - prev) % SEQ16;
      Difference16(prev, numbers[0]);
      assert Low16(numbers)[1..] == Low16(numbers[1..]);
      assert out == [now] + Unwrap(numbers[0] % SEQ16, now, Low16(numbers[1..]));
      UnwrapIsTrueIffGapsBelowWrap(numbers[0], now, numbers[1..]);
      if numbers[0] - prev < SEQ16 {
        assert now == abs + (numbers[0] - prev);
        assert forall i :: 0 < i < |numbers| ==> out[i] == out[1..][i - 1] && numbers[i] == numbers[1..][i - 1];
        assert forall i :: 0 <= i < |numbers| - 1 ==> out[1..][i] == out[i + 1] && numbers[1..][i] == numbers[i + 1];
      } else {
        assert out[0] != abs + (numbers[0] - prev);
      }
    }
  }

  class SeqUnwrapper {
    var seqLast: Option<int>
    var seqAbs: int

    constructor ()
      ensures seqLast == None && seqAbs == 0
    {
      seqLast, seqAbs := None, 0;
    }

    /** The unwrapping part of on_stream_pkt: state carries over between packets, and the
        first packet ever defines the origin. */
    method OnPacket(seq16: seq<int>) returns (out: seq<int>)
      modifies this
      ensures seq16 == [] ==> out == [] && seqLast == old(seqLast) && seqAbs == old(seqAbs)
      ensures seq16 != [] ==>
        && out == Unwrap(if old(seqLast).Some? then old(seqLast).value else seq16[0], old(seqAbs), seq16)
        && seqLast == Some(seq16[|seq16| - 1]) && seqAbs == out[|out| - 1]
    {
      out := [];
      if seq16 == [] {
        return;                       // empty packets are ignored
      }
      if seqLast.None? {
        seqLast := Some(seq16[0]);
      }
      var last, abs := seqLast.value, seqAbs;
      ghost var all := Unwrap(last, abs, seq16);
      for i := 0 to |seq16|
        invariant |out| == i
        invariant all == out + Unwrap(last, abs, seq16[i..])
        invariant i > 0 ==> last == seq16[i - 1] && abs == out[i - 1]
      {
        assert seq16[i..][1..] == seq16[i + 1..];
        abs := abs + (seq16[i] - last) % SEQ16;
        last := seq16[i];
        ghost var rest := Unwrap(last, abs, seq16[i + 1..]);
        assert out + ([abs] + rest) == (out + [abs]) + rest;
        out := out + [abs];
      }
      assert all == out;
      seqLast, seqAbs := Some(last), abs;
    }
  }

  lemma ConsAppend(x: int, a: seq<int>, b: seq<int>)
    ensures ([x] + a) + b == [x] + (a + b)
  {
  }

  lemma UnwrapCons(last: int, abs: int, a: seq<int>)
    requires a != []
    ensures var now := abs + (a[0] - last) % SEQ16;
      && Unwrap(last, abs, a) == [now] + Unwrap(a[0], now, a[1..])
      && Unwrap(last, abs, a)[|a| - 1] == if |a| == 1 then now else Unwrap(a[0], now, a[1..])[|a| - 2]
  {
  }

  /** Two packets unwrap like the one they make up. */
  lemma {:induction false} UnwrapAcrossPackets(last: int, abs: int, a: seq<int>, b: seq<int>)
    requires a != []
    ensures Unwrap(last, abs, a + b) == Unwrap(last, abs, a) + Unwrap(a[|a| - 1], Unwrap(last, abs, a)[|a| - 1], b)
    decreases |a|
  {
    var now := abs + (a[0] - last) % SEQ16;
    assert (a + b)[1..] == a[1..] + b;
    UnwrapCons(last, abs, a);
    UnwrapCons(last, abs, a + b);
    if |a| == 1 {
      assert a[1..] + b == b;
    } else {
      UnwrapAcrossPackets(a[0], now, a[1..], b);
      ConsAppend(now, Unwrap(a[0], now, a[1..]), Unwrap(a[|a| - 1], Unwrap(last, abs, a)[|a| - 1], b));
    }
  }
}
