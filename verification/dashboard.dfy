/** The dashboard: the five most recent requests, the pending counter and the balance totals. */
module Dashboard {
  import opened Collections
  import opened MockData

  /** A request as the dashboard lists it. */
  datatype RequestSummary = RequestSummary(id: string, status: string, totalDays: int)

  /** The recent-requests card: the first five requests (none for a missing list), or all of them when fewer. */
  function RecentRequests(requests: seq<RequestSummary>): (r: seq<RequestSummary>)
    ensures |r| <= 5 && |r| <= |requests|
    ensures |r| == (if |requests| < 5 then |requests| else 5)
    ensures r == requests[..|r|]
  {
    if |requests| < 5 then requests else requests[..5]
  }

  predicate IsPending(r: RequestSummary) {
    r.status == "PENDING"
  }

  /** `getPendingCount`: the pending requests among the recent ones only, so never more than five. */
  function PendingCount(recent: seq<RequestSummary>): (n: nat)
    ensures n <= |recent|
    ensures n == Count(recent, IsPending)
  {
    Count(recent, IsPending)
  }

  /** A pending request beyond the fifth is not counted. */
  lemma PendingCountAtMostFive(requests: seq<RequestSummary>)
    ensures PendingCount(RecentRequests(requests)) <= 5
  {
  }

  function TotalOf(b: BalanceEntry): int { b.total }
  function UsedOfEntry(b: BalanceEntry): int { b.used }
  function RemainingOf(b: BalanceEntry): int { b.remaining }

  datatype Totals = Totals(total: int, used: int, remaining: int)

  /** `getTotalStats`: the sums of the three columns over the balance lines. */
  function TotalStats(balance: seq<BalanceEntry>): (t: Totals)
    ensures t.total == SumOf(balance, TotalOf)
    ensures t.used == SumOf(balance, UsedOfEntry)
    ensures t.remaining == SumOf(balance, RemainingOf)
  {
    Totals(SumOf(balance, TotalOf), SumOf(balance, UsedOfEntry), SumOf(balance, RemainingOf))
  }

  /** When every line keeps remaining = total − used, so do the sums. */
  lemma {:induction false} RemainingSumsUp(balance: seq<BalanceEntry>)
    requires forall k :: 0 <= k < |balance| ==> balance[k].remaining == balance[k].total - balance[k].used
    ensures SumOf(balance, RemainingOf) == SumOf(balance, TotalOf) - SumOf(balance, UsedOfEntry)
  {
    if balance != [] {
      RemainingSumsUp(balance[..|balance| - 1]);
    }
  }

  /** For the balance the in-memory server computes, the remaining total is the total minus the used total. */
  lemma ServerBalanceTotalsAgree(requests: seq<MockRequest>, types: seq<MockLeaveType>)
    ensures var t := TotalStats(LeaveBalance(requests, types)); t.remaining == t.total - t.used
  {
    RemainingSumsUp(LeaveBalance(requests, types));
  }
}
