/** The staging ring between the pump and the flash writer, as the queue it stands for. */
module Staging {
  import opened Words
  import opened Rings
  import opened LogSpec

  /** The staging ring holds exactly the records of q, oldest first. */
  ghost predicate Staged(r: Ram, q: seq<Rec>) {
    |r.stage| == STAGE_N && Holds(r.stage, r.head, r.tail, q)
  }

  /** Records of a chunk that still fit behind q staged ones. */
  function Fitting(q: nat, n: nat): (k: nat)
    requires q <= STAGE_N
    ensures k <= n && q + k <= STAGE_N
  {
    Min(n, STAGE_N - q)
  }

  /** None of the pushes of a chunk of n records meets the clash of the 1536-slot ring. */
  ghost predicate NoHazard(head: u32, tail: u32, q: nat, n: nat)
    requires q <= STAGE_N
  {
    forall i :: 0 <= i < Fitting(q, n) ==> !StagingWrapHazard(Nth(head, i), tail)
  }

  /** Chunks that meet no hazard: while the head counter stays short of its wrap, and across
      the wrap while at most 1024 records are outstanding. */
  lemma EarlyOrShortIsSafe(head: u32, tail: u32, n: nat)
    requires Sub(head, tail) <= STAGE_N && (tail + STAGE_N <= TWO32 || Sub(head, tail) + n <= 1024)
    ensures NoHazard(head, tail, Sub(head, tail), n)
  {
    var q := Sub(head, tail);
    forall i | 0 <= i < Fitting(q, n)
      ensures !StagingWrapHazard(Nth(head, i), tail)
    {
      Further(head, tail, i);
      if tail + STAGE_N <= TWO32 {
        NotYetWrapped(Nth(head, i), tail);
      }
    }
  }

  lemma Further(head: u32, tail: u32, i: nat)
    requires Sub(head, tail) + i < TWO32
    ensures Sub(Nth(head, i), tail) == Sub(head, tail) + i
  {
  }

  lemma NotYetWrapped(head: u32, tail: u32)
    requires Sub(head, tail) < STAGE_N && tail + STAGE_N <= TWO32
    ensures tail <= head
  {
  }

  lemma PushStages(r: Ram, q: seq<Rec>, rec: Rec)
    requires Staged(r, q) && |q| < STAGE_N && !StagingWrapHazard(r.head, r.tail)
    ensures Staged(AppendOne(r, rec), q + [rec])
    ensures AppendOne(r, rec).tail == r.tail && AppendOne(r, rec).dropped == r.dropped
    ensures AppendOne(r, rec).head == Wrap(r.head + 1)
  {
    StagingClashesIffHazard(r.head, r.tail);
    PushAppends(r.stage, r.head, r.tail, q, rec);
  }

  lemma FullDrops(r: Ram, q: seq<Rec>, rec: Rec)
    requires Staged(r, q) && |q| == STAGE_N
    ensures AppendOne(r, rec) == r.(dropped := Wrap(r.dropped + 1))
  {
  }

  lemma PrefixGrows(q: seq<Rec>, recs: seq<Rec>, n: nat)
    requires n < |recs|
    ensures (q + recs[..n]) + [recs[n]] == q + recs[..n + 1]
  {
  }

  /** Ring a is ring r after the first n records of a chunk: it holds the ones that fitted
      behind q, in order, and has counted the others. */
  ghost predicate StagedFirst(r: Ram, a: Ram, q: seq<Rec>, recs: seq<Rec>, n: nat)
    requires |q| <= STAGE_N && n <= |recs|
  {
    var k := Fitting(|q|, n);
    && Staged(a, q + recs[..k])
    && a.tail == r.tail && a.head == Nth(r.head, k)
    && a.dropped == Wrap(r.dropped + (n - k))
  }

  lemma NextFits(r: Ram, a: Ram, q: seq<Rec>, recs: seq<Rec>, n: nat)
    requires n < |recs| && |q| + n < STAGE_N && StagedFirst(r, a, q, recs, n)
    requires !StagingWrapHazard(Nth(r.head, n), r.tail)
    ensures StagedFirst(r, AppendOne(a, recs[n]), q, recs, n + 1)
  {
    PushStages(a, q + recs[..n], recs[n]);
    PrefixGrows(q, recs, n);
    WrapAdd(r.head + n, 1);
  }

  lemma NextIsDropped(r: Ram, a: Ram, q: seq<Rec>, recs: seq<Rec>, n: nat)
    requires n < |recs| && |q| <= STAGE_N <= |q| + n && StagedFirst(r, a, q, recs, n)
    ensures StagedFirst(r, AppendOne(a, recs[n]), q, recs, n + 1)
  {
    var k := Fitting(|q|, n);
    FullDrops(a, q + recs[..k], recs[n]);
    WrapAdd(r.dropped + (n - k), 1);
  }

  lemma {:induction false} AppendStages(r: Ram, q: seq<Rec>, recs: seq<Rec>, n: nat)
    requires Staged(r, q) && n <= |recs| && NoHazard(r.head, r.tail, |q|, n)
    ensures StagedFirst(r, AppendAll(r, recs[..n]), q, recs, n)
    decreases n
  {
    if n == 0 {
      assert q + recs[..0] == q;
    } else {
      AppendStages(r, q, recs, n - 1);
      assert recs[..n][..n - 1] == recs[..n - 1];
      if |q| + (n - 1) < STAGE_N {
        NextFits(r, AppendAll(r, recs[..n - 1]), q, recs, n - 1);
      } else {
        NextIsDropped(r, AppendAll(r, recs[..n - 1]), q, recs, n - 1);
      }
    }
  }

  /** imu_log_append stages the prefix of the chunk that fits and counts the rest. */
  lemma AppendStagesPrefix(r: Ram, q: seq<Rec>, recs: seq<Rec>)
    requires Staged(r, q) && NoHazard(r.head, r.tail, |q|, |recs|)
    ensures StagedFirst(r, AppendAll(r, recs), q, recs, |recs|)
  {
    assert recs[..|recs|] == recs;
    AppendStages(r, q, recs, |recs|);
  }

  /** A drain takes the oldest staged records, in order, and leaves the rest. */
  lemma DrainTakesOldest(s: Log, q: seq<Rec>)
    requires Shaped(s) && Staged(s.ram, q)
    ensures var n := DrainCount(s.ram);
      && n <= |q| && Batch(s) == q[..n]
      && Staged(WroteBatch(s).ram, q[n..])
  {
    PopRemoves(s.ram.stage, s.ram.head, s.ram.tail, q, DrainCount(s.ram));
  }

  /** The exact condition for one more record: every staged record survives the push of any
      other record exactly when the wrap hazard is absent. */
  lemma PushIsExactIff(r: Ram, q: seq<Rec>, rec: Rec)
    requires Staged(r, q) && |q| < STAGE_N && rec !in q
    ensures Staged(AppendOne(r, rec), q + [rec]) <==> !StagingWrapHazard(r.head, r.tail)
  {
    StagingClashesIffHazard(r.head, r.tail);
    if StagingWrapHazard(r.head, r.tail) {
      var i: nat :| ClashAt(r.tail, |q|, STAGE_N, i);
      ClashingPushCorrupts(r.stage, r.head, r.tail, q, rec, i);
    } else {
      PushAppends(r.stage, r.head, r.tail, q, rec);
    }
  }
}
