/** The allocation table and the reduction of one fund's rows to a drift
    `mu` and a volatility `sigma` (website/montecarlo.py, lines 13-22).

    Weights and 10-year figures are stored as percentages, so each weighted
    sum is divided by 100 twice: once per weight, once per figure. */
module FundStats {

  /** One row of fund_allocation.csv. */
  datatype AllocationRow = AllocationRow(
    fundId: int,
    fundName: string,
    assetClass: string,
    percentOfFund: real,
    avgReturn10y: real,
    stdDev10y: real)

  datatype FundStatistics = FundStatistics(fundName: string, mu: real, sigma: real)

  /** The rows of `fundId`, in table order (`df[df["FUND_ID"] == fund_id]`). */
  function Group(table: seq<AllocationRow>, fundId: int): (g: seq<AllocationRow>)
    ensures forall k :: 0 <= k < |g| ==> g[k] in table && g[k].fundId == fundId
    ensures forall row :: row in table && row.fundId == fundId ==> row in g
    ensures forall row :: multiset(g)[row] == if row.fundId == fundId then multiset(table)[row] else 0
  {
    assert table != [] ==> table == [table[0]] + table[1..];
    if table == [] then []
    else if table[0].fundId == fundId then [table[0]] + Group(table[1..], fundId)
    else Group(table[1..], fundId)
  }

  function SumBy(rows: seq<AllocationRow>, f: AllocationRow -> real): real {
    if rows == [] then 0.0 else f(rows[0]) + SumBy(rows[1..], f)
  }

  function WeightedReturn(row: AllocationRow): real {
    row.percentOfFund / 100.0 * row.avgReturn10y
  }

  function WeightedStdDev(row: AllocationRow): real {
    row.percentOfFund / 100.0 * row.stdDev10y
  }

  function Mu(group: seq<AllocationRow>): real {
    SumBy(group, WeightedReturn) / 100.0
  }

  function Sigma(group: seq<AllocationRow>): real {
    SumBy(group, WeightedStdDev) / 100.0
  }

  datatype StatsError = FundNotFound

  datatype StatsResult = Found(stats: FundStatistics) | NotFound(error: StatsError)

  /** Lines 14-22: fail when no row has the fund id; otherwise the name of the
      first matching row and the two weighted averages. */
  function FundStatisticsOf(table: seq<AllocationRow>, fundId: int): (r: StatsResult)
    ensures r.NotFound? <==> forall k :: 0 <= k < |table| ==> table[k].fundId != fundId
    ensures r.Found? ==> exists i :: (0 <= i < |table| && table[i].fundId == fundId
      && r.stats.fundName == table[i].fundName
      && forall k :: 0 <= k < i ==> table[k].fundId != fundId)
  {
    var g := Group(table, fundId);
    if g == [] then
      assert forall k :: 0 <= k < |table| ==> table[k].fundId != fundId by {
        forall k | 0 <= k < |table| ensures table[k].fundId != fundId {
          assert table[k] in table;
        }
      }
      NotFound(FundNotFound)
    else
      FirstMatchIsGroupHead(table, fundId);
      Found(FundStatistics(g[0].fundName, Mu(g), Sigma(g)))
  }

  /** The head of the group is the first row of the table with the fund id. */
  lemma {:induction false} FirstMatchIsGroupHead(table: seq<AllocationRow>, fundId: int)
    requires Group(table, fundId) != []
    ensures exists i :: (0 <= i < |table| && table[i].fundId == fundId
      && table[i] == Group(table, fundId)[0]
      && forall k :: 0 <= k < i ==> table[k].fundId != fundId)
  {
    if table[0].fundId == fundId {
      assert table[0] == Group(table, fundId)[0];
    } else {
      FirstMatchIsGroupHead(table[1..], fundId);
      var i :| 0 <= i < |table[1..]| && table[1..][i].fundId == fundId
        && table[1..][i] == Group(table[1..], fundId)[0]
        && forall k :: 0 <= k < i ==> table[1..][k].fundId != fundId;
      assert forall k :: 0 <= k < i + 1 ==> table[k].fundId != fundId by {
        forall k | 1 <= k < i + 1 ensures table[k].fundId != fundId {
          assert table[k] == table[1..][k - 1];
        }
      }
      assert table[i + 1] == table[1..][i];
    }
  }

  /** A sum over a concatenation is the sum of the sums. */
  lemma {:induction false} SumByAppend(a: seq<AllocationRow>, b: seq<AllocationRow>, f: AllocationRow -> real)
    ensures SumBy(a + b, f) == SumBy(a, f) + SumBy(b, f)
  {
    if a == [] {
      assert a + b == b;
    } else {
      assert (a + b)[1..] == a[1..] + b;
      SumByAppend(a[1..], b, f);
    }
  }

  /** Removing one row takes exactly its term out of the sum. */
  lemma SumByRemove(s: seq<AllocationRow>, i: nat, f: AllocationRow -> real)
    requires i < |s|
    ensures SumBy(s, f) == f(s[i]) + SumBy(s[..i] + s[i + 1..], f)
  {
    var before, after := s[..i], s[i + 1..];
    var rest := [s[i]] + after;
    assert s == before + rest;
    assert rest[1..] == after;
    assert SumBy(rest, f) == f(s[i]) + SumBy(after, f);
    SumByAppend(before, rest, f);
    SumByAppend(before, after, f);
  }

  /** Taking the same row out of two permutations of each other leaves two
      permutations of each other. */
  lemma PermutationWithout(a: seq<AllocationRow>, b: seq<AllocationRow>, i: nat)
    requires multiset(a) == multiset(b) && a != [] && i < |b| && b[i] == a[0]
    ensures multiset(a[1..]) == multiset(b[..i] + b[i + 1..])
  {
    assert a == [a[0]] + a[1..];
    assert b == b[..i] + [b[i]] + b[i + 1..];
    assert multiset(a[1..]) == multiset(a) - multiset{a[0]};
    assert multiset(b) == multiset(b[..i] + b[i + 1..]) + multiset{b[i]};
  }

  /** A sum over rows does not depend on their order. */
  lemma {:induction false} SumByPermutation(a: seq<AllocationRow>, b: seq<AllocationRow>, f: AllocationRow -> real)
    requires multiset(a) == multiset(b)
    ensures SumBy(a, f) == SumBy(b, f)
  {
    if a == [] {
      assert |b| == |multiset(b)| == 0;
    } else {
      assert a[0] in multiset(b);
      var i :| 0 <= i < |b| && b[i] == a[0];
      PermutationWithout(a, b, i);
      SumByPermutation(a[1..], b[..i] + b[i + 1..], f);
      SumByRemove(b, i, f);
    }
  }

  /** mu and sigma are unchanged by reordering a fund's rows. */
  lemma StatsOrderIndependent(g1: seq<AllocationRow>, g2: seq<AllocationRow>)
    requires multiset(g1) == multiset(g2)
    ensures Mu(g1) == Mu(g2) && Sigma(g1) == Sigma(g2)
  {
    SumByPermutation(g1, g2, WeightedReturn);
    SumByPermutation(g1, g2, WeightedStdDev);
  }

  /** mu and sigma are additive over a split of the rows: the weights are
      used as they are and are never normalised to sum to 100. */
  lemma StatsAdditive(g1: seq<AllocationRow>, g2: seq<AllocationRow>)
    ensures Mu(g1 + g2) == Mu(g1) + Mu(g2)
    ensures Sigma(g1 + g2) == Sigma(g1) + Sigma(g2)
  {
    SumByAppend(g1, g2, WeightedReturn);
    SumByAppend(g1, g2, WeightedStdDev);
  }

  /** Reordering the rows of the table changes neither whether the fund is
      found nor its mu and sigma; only the name may come from another row. */
  lemma TableOrderIndependent(t1: seq<AllocationRow>, t2: seq<AllocationRow>, fundId: int)
    requires multiset(t1) == multiset(t2)
    ensures FundStatisticsOf(t1, fundId).Found? <==> FundStatisticsOf(t2, fundId).Found?
    ensures FundStatisticsOf(t1, fundId).Found? ==>
      && FundStatisticsOf(t1, fundId).stats.mu == FundStatisticsOf(t2, fundId).stats.mu
      && FundStatisticsOf(t1, fundId).stats.sigma == FundStatisticsOf(t2, fundId).stats.sigma
  {
    var g1, g2 := Group(t1, fundId), Group(t2, fundId);
    assert multiset(g1) == multiset(g2) by {
      forall row ensures multiset(g1)[row] == multiset(g2)[row] {
      }
    }
    assert g1 == [] <==> g2 == [] by {
      assert |g1| == |multiset(g1)| == |multiset(g2)| == |g2|;
    }
    StatsOrderIndependent(g1, g2);
  }

  /** A single row contributes (weight / 100) * (figure / 100). */
  lemma StatsOfOneRow(row: AllocationRow)
    ensures Mu([row]) == (row.percentOfFund / 100.0) * (row.avgReturn10y / 100.0)
    ensures Sigma([row]) == (row.percentOfFund / 100.0) * (row.stdDev10y / 100.0)
  {
    assert [row][1..] == [];
    assert SumBy([row], WeightedReturn) == WeightedReturn(row);
    assert SumBy([row], WeightedStdDev) == WeightedStdDev(row);
  }
}
