/** How a write is cut into R2T ranges (request/cmd.c:78-122). */
module R2tPlan {
  import opened Bytes
  import opened Pdus
  import opened Negotiation
  import opened Model
  import opened ReadPath

  /** The i-th of k ranges, k at most the full count: never empty, never longer than max, inside the transfer. */
  lemma RangeBounds(k: nat, start: nat, max: nat, total: nat, i: nat)
    requires max > 0 && start < total && k <= DivideRoundUp(total - start, max) && i < k
    ensures start + i * max < total
    ensures start + (i + 1) * max == start + i * max + max
    ensures start + (i + 1) * max >= total ==> i + 1 == DivideRoundUp(total - start, max)
  {
    var full := DivideRoundUp(total - start, max);
    DivideRoundUpIsCeiling(total - start, max);
    MulMonotone(i, full - 1, max);
    if i + 1 <= full - 1 {
      MulMonotone(i + 1, full - 1, max);
    }
    assert (i + 1) * max == i * max + max;
  }

  predicate Inside(r: Range, x: int)
  {
    r.offset <= x < r.offset + r.length
  }

  /** Where k ranges end. */
  function PlanEnd(k: nat, start: nat, max: nat, total: nat): int
  {
    Min(total, start + k * max)
  }

  /** Numbered 0, 1, 2, ..., each of 1 to max bytes, each starting where the one before it ends. */
  lemma PlanIsContiguous(k: nat, start: nat, max: nat, total: nat)
    requires max > 0 && start < total && k <= DivideRoundUp(total - start, max)
    ensures var rs := Plan(k, start, max, total);
            && (k > 0 ==> rs[0].offset == start)
            && (forall i :: 0 <= i < k ==> rs[i].sn == i && 1 <= rs[i].length <= max)
            && (forall i :: 0 <= i < k - 1 ==> rs[i + 1].offset == rs[i].offset + rs[i].length)
            && (k > 0 ==> rs[k - 1].offset + rs[k - 1].length == PlanEnd(k, start, max, total))
  {
    var rs := Plan(k, start, max, total);
    forall i | 0 <= i < k
      ensures rs[i].sn == i && 1 <= rs[i].length <= max
      ensures i < k - 1 ==> rs[i + 1].offset == rs[i].offset + rs[i].length
      ensures i == k - 1 ==> rs[i].offset + rs[i].length == PlanEnd(k, start, max, total)
    {
      RangeBounds(k, start, max, total, i);
      if i < k - 1 {
        RangeBounds(k, start, max, total, i + 1);
      }
    }
    assert 0 * max == 0;
  }

  lemma {:induction false} ByteHasARange(k: nat, start: nat, max: nat, total: nat, x: int) returns (i: nat)
    requires max > 0 && start < total && k <= DivideRoundUp(total - start, max)
    requires start <= x < PlanEnd(k, start, max, total)
    ensures i < k && Inside(Plan(k, start, max, total)[i], x)
  {
    var j := k - 1;
    RangeBounds(k, start, max, total, j);
    if x >= start + j * max {
      i := j;
    } else {
      i := ByteHasARange(j, start, max, total, x);
    }
  }

  lemma RangesDisjoint(k: nat, start: nat, max: nat, total: nat, i: nat, j: nat, x: int)
    requires max > 0 && start < total && k <= DivideRoundUp(total - start, max)
    requires i < k && j < k && Inside(Plan(k, start, max, total)[i], x) && Inside(Plan(k, start, max, total)[j], x)
    ensures i == j
  {
    if i < j {
      MulMonotone(i + 1, j, max);
      RangeBounds(k, start, max, total, i);
    } else if j < i {
      MulMonotone(j + 1, i, max);
      RangeBounds(k, start, max, total, j);
    }
  }

  predicate Asked(rs: seq<Range>, x: int)
  {
    exists i :: 0 <= i < |rs| && Inside(rs[i], x)
  }

  predicate AskedOnce(rs: seq<Range>, x: int)
  {
    forall i, j :: 0 <= i < |rs| && 0 <= j < |rs| && Inside(rs[i], x) && Inside(rs[j], x) ==> i == j
  }

  lemma AskedAtMostOnce(k: nat, start: nat, max: nat, total: nat, x: int)
    requires max > 0 && start < total && k <= DivideRoundUp(total - start, max)
    ensures AskedOnce(Plan(k, start, max, total), x)
  {
    var rs := Plan(k, start, max, total);
    forall i, j | 0 <= i < k && 0 <= j < k && Inside(rs[i], x) && Inside(rs[j], x) ensures i == j {
      RangesDisjoint(k, start, max, total, i, j, x);
    }
  }

  lemma RangeInPlan(k: nat, start: nat, max: nat, total: nat, i: nat, x: int)
    requires max > 0 && start < total && k <= DivideRoundUp(total - start, max) && i < k
    requires Inside(Plan(k, start, max, total)[i], x)
    ensures start <= x < PlanEnd(k, start, max, total)
  {
    RangeBounds(k, start, max, total, i);
    MulMonotone(i + 1, k, max);
  }

  /** A byte is asked for exactly when it lies between the start and the end of the plan, and then once. */
  lemma PlanCovers(k: nat, start: nat, max: nat, total: nat, x: int)
    requires max > 0 && start < total && k <= DivideRoundUp(total - start, max)
    ensures Asked(Plan(k, start, max, total), x) <==> start <= x < PlanEnd(k, start, max, total)
    ensures AskedOnce(Plan(k, start, max, total), x)
  {
    AskedAtMostOnce(k, start, max, total, x);
    var rs := Plan(k, start, max, total);
    if start <= x < PlanEnd(k, start, max, total) {
      var i := ByteHasARange(k, start, max, total, x);
    }
    if Asked(rs, x) {
      var i :| 0 <= i < |rs| && Inside(rs[i], x);
      RangeInPlan(k, start, max, total, i, x);
    }
  }

  lemma PlanEndIsTotal(k: nat, start: nat, max: nat, total: nat)
    requires max > 0 && start < total && k <= DivideRoundUp(total - start, max)
    ensures PlanEnd(k, start, max, total) == total <==> k == DivideRoundUp(total - start, max)
  {
    DivideRoundUpIsCeiling(total - start, max);
    if k < DivideRoundUp(total - start, max) {
      MulMonotone(k, DivideRoundUp(total - start, max) - 1, max);
    }
  }

  /** The number of R2Ts a write would need. */
  function FullCount(p: Params, req: Header): int
    requires p.maxReceive >= 1
  {
    DivideRoundUp(ExpectedLength(req) - DataLength(req), p.maxReceive)
  }

  /**
   * Every write that starts in full-feature phase asks for exactly the bytes from its immediate data to
   * min(total, dsl + k * max), each once, with k = min(MaxOutstandingR2T, ceil((total - dsl) / max)) R2Ts; for the
   * whole rest exactly when MaxOutstandingR2T is at least that ceiling.
   */
  lemma WriteAsksOnce(p: Params, req: Header, x: int)
    requires WithinLimits(p) && p.maxReceive >= 1 && NeedsR2t(req)
    ensures var rs := PlanOf(p, req);
            && |rs| == Max(0, Min(p.maxOutstandingR2t, FullCount(p, req)))
            && AskedOnce(rs, x)
            && (Asked(rs, x)
                <==> DataLength(req) <= x < PlanEnd(|rs|, DataLength(req), p.maxReceive, ExpectedLength(req)))
            && (PlanEnd(|rs|, DataLength(req), p.maxReceive, ExpectedLength(req)) == ExpectedLength(req)
                <==> p.maxOutstandingR2t >= FullCount(p, req))
  {
    var dsl, total, max := DataLength(req), ExpectedLength(req), p.maxReceive;
    DivideRoundUpIsCeiling(total - dsl, max);
    assert FullCount(p, req) > 0;
    var k := R2tCount(p, req);
    PlanCovers(k, dsl, max, total, x);
    PlanEndIsTotal(k, dsl, max, total);
  }

  /** With InitialR2T off the plan starts where the unsolicited first burst ends. */
  lemma PlanAfterFirstBurst(p: Params, req: Header)
    requires p.maxReceive >= 1 && !p.initialR2t
    ensures var rs, start, max := PlanOf(p, req), Min(p.firstBurst, ExpectedLength(req)), p.maxReceive;
            && |rs| == Max(0, Min(p.maxOutstandingR2t, DivideRoundUp(ExpectedLength(req) - start, max)))
            && forall i :: 0 <= i < |rs| ==>
                 && rs[i].sn == i && rs[i].offset == start + i * max
                 && rs[i].length == Min(max, ExpectedLength(req) - (start + i * max))
  {
  }
}
