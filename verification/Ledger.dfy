/** The credit ledger: an append-only list of deltas, each row carrying the running balance of
    its organization.  Amounts are exact reals. */
module Ledger {
  import opened Tables

  /** A credit_ledger row; a charge names its workload, a grant or a top-up has none. */
  datatype Entry = Entry(org: OrgId, delta: real, balance: real, workload: Option<WorkloadId>, at: Time)

  datatype Summary = Summary(balance: real, granted: real, spent: real, monthSpent: real)

  /** The balance on the organization's latest row. */
  function Latest(ledger: seq<Entry>, org: OrgId): real {
    if ledger == [] then 0.0
    else
      var last := ledger[|ledger| - 1];
      if last.org == org then last.balance else Latest(ledger[..|ledger| - 1], org)
  }

  function Post(ledger: seq<Entry>, org: OrgId, delta: real, w: Option<WorkloadId>, at: Time): seq<Entry> {
    ledger + [Entry(org, delta, Latest(ledger, org) + delta, w, at)]
  }

  /** The organization's share of one row under a filter. */
  function Part(e: Entry, org: OrgId, keep: Entry -> bool): real {
    if e.org == org && keep(e) then e.delta else 0.0
  }

  function SumIf(ledger: seq<Entry>, org: OrgId, keep: Entry -> bool): real {
    if ledger == [] then 0.0
    else SumIf(ledger[..|ledger| - 1], org, keep) + Part(ledger[|ledger| - 1], org, keep)
  }

  const Any: Entry -> bool := (e: Entry) => true
  const Positive: Entry -> bool := (e: Entry) => e.delta > 0.0
  const Negative: Entry -> bool := (e: Entry) => e.delta < 0.0
  function NegativeSince(since: Time): Entry -> bool { (e: Entry) => e.delta < 0.0 && e.at >= since }

  function Deltas(ledger: seq<Entry>, org: OrgId): real { SumIf(ledger, org, Any) }
  function Granted(ledger: seq<Entry>, org: OrgId): real { SumIf(ledger, org, Positive) }
  function Spent(ledger: seq<Entry>, org: OrgId): real { -SumIf(ledger, org, Negative) }
  function SpentSince(ledger: seq<Entry>, org: OrgId, since: Time): real { -SumIf(ledger, org, NegativeSince(since)) }

  /** Every row's balance is the sum of its organization's deltas up to and including it. */
  ghost predicate Balanced(ledger: seq<Entry>) {
    forall i | 0 <= i < |ledger| :: BalancedAt(ledger, i)
  }

  ghost predicate BalancedAt(ledger: seq<Entry>, i: nat)
    requires i < |ledger|
  {
    ledger[i].balance == Deltas(ledger[..i + 1], ledger[i].org)
  }

  /** In a balanced ledger the latest balance is the sum of all deltas. */
  lemma {:induction false} LatestIsSum(ledger: seq<Entry>, org: OrgId)
    requires Balanced(ledger)
    ensures Latest(ledger, org) == Deltas(ledger, org)
  {
    if ledger != [] {
      var n := |ledger| - 1;
      assert BalancedAt(ledger, n) && ledger[..n + 1] == ledger;
      BalancedPrefix(ledger, n);
      LatestIsSum(ledger[..n], org);
    }
  }

  lemma BalancedPrefix(ledger: seq<Entry>, n: nat)
    requires Balanced(ledger) && n <= |ledger|
    ensures Balanced(ledger[..n])
  {
    forall i | 0 <= i < n ensures BalancedAt(ledger[..n], i) {
      assert BalancedAt(ledger, i) && ledger[..n][..i + 1] == ledger[..i + 1];
    }
  }

  /** Posting keeps the ledger balanced, adds the delta to that organization and to no other. */
  lemma PostBalanced(ledger: seq<Entry>, org: OrgId, delta: real, w: Option<WorkloadId>, at: Time)
    requires Balanced(ledger)
    ensures Balanced(Post(ledger, org, delta, w, at))
    ensures forall o ::
            Deltas(Post(ledger, org, delta, w, at), o) == Deltas(ledger, o) + (if o == org then delta else 0.0)
    ensures forall o :: Granted(Post(ledger, org, delta, w, at), o) ==
                        Granted(ledger, o) + (if o == org && delta > 0.0 then delta else 0.0)
    ensures forall o :: Spent(Post(ledger, org, delta, w, at), o) ==
                        Spent(ledger, o) - (if o == org && delta < 0.0 then delta else 0.0)
  {
    var p, n := Post(ledger, org, delta, w, at), |ledger|;
    assert p[..n] == ledger;
    LatestIsSum(ledger, org);
    forall i | 0 <= i < |p| ensures BalancedAt(p, i) {
      if i < n {
        assert BalancedAt(ledger, i) && p[..i + 1] == ledger[..i + 1];
      } else {
        assert p[..i + 1] == p;
      }
    }
  }

  /** Conservation: what an organization has is what it was granted less what it spent. */
  lemma {:induction false} GrantedLessSpent(ledger: seq<Entry>, org: OrgId)
    ensures Deltas(ledger, org) == Granted(ledger, org) - Spent(ledger, org)
  {
    if ledger != [] { GrantedLessSpent(ledger[..|ledger| - 1], org); }
  }

  lemma BalanceIsGrantedLessSpent(ledger: seq<Entry>, org: OrgId)
    requires Balanced(ledger)
    ensures Latest(ledger, org) == Granted(ledger, org) - Spent(ledger, org)
  {
    LatestIsSum(ledger, org);
    GrantedLessSpent(ledger, org);
  }

  /** Rows before the month's start add nothing to it, and every later charge counts in full. */
  lemma {:induction false} MonthStartsFresh(past: seq<Entry>, recent: seq<Entry>, org: OrgId, since: Time)
    requires (forall e | e in past :: e.at < since) && (forall e | e in recent :: e.at >= since)
    ensures SpentSince(past + recent, org, since) == Spent(recent, org)
    decreases |past| + |recent|
  {
    if recent != [] {
      var n := |recent| - 1;
      assert (past + recent)[..|past| + n] == past + recent[..n];
      assert recent[n] in recent && forall e | e in recent[..n] :: e in recent;
      MonthStartsFresh(past, recent[..n], org, since);
    } else if past != [] {
      var n := |past| - 1;
      assert past + recent == past;
      assert past[n] in past && forall e | e in past[..n] :: e in past;
      MonthStartsFresh(past[..n], [], org, since);
      assert past[..n] + [] == past[..n];
    }
  }

  /** A later month's start counts less: between none and all of what was spent, and all of it when
      nothing is older. */
  lemma {:induction false} MonthIsPart(ledger: seq<Entry>, org: OrgId, since: Time, later: Time)
    requires since <= later
    ensures 0.0 <= SpentSince(ledger, org, later) <= SpentSince(ledger, org, since) <= Spent(ledger, org)
    ensures (forall e | e in ledger :: e.at >= since) ==> SpentSince(ledger, org, since) == Spent(ledger, org)
  {
    if ledger != [] {
      var front := ledger[..|ledger| - 1];
      MonthIsPart(front, org, since, later);
      assert ledger[|ledger| - 1] in ledger && forall e | e in front :: e in ledger;
    }
  }
}
