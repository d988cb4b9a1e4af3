/** `useAgentDistribution`: how many of the period's turns each agent
    served, and which share of all turns that is. */
module AgentDistribution {
  import opened Common
  import opened Turns
  import opened OrderedMap
  import opened StableSort
  import opened Grouping

  /** `{ agent, count, percentage }` */
  datatype Share = Share(agent: string, count: nat, percentage: real)

  /** `percentage: total > 0 ? (count / total) * 100 : 0` */
  function MkShare(total: nat): ((string, nat)) -> Share {
    (e: (string, nat)) => Share(e.0, e.1, if total > 0 then Percent(e.1 as real, total as real) else 0.0)
  }

  function ShareAgent(s: Share): string { s.agent }
  function ShareCount(s: Share): real { s.count as real }
  function SharePercentage(s: Share): real { s.percentage }

  /** The distribution over the fetched rows, ordered by count, highest
      first. */
  function Distribution(rows: seq<Turn>): seq<Share> {
    Grouped(rows, AgentKey, CountStep, MkShare(|rows|), ShareCount)
  }

  /** The counting loop, with its running `total`, then the map and the
      sort. */
  method RunDistribution(rows: seq<Turn>) returns (out: seq<Share>)
    ensures out == Distribution(rows)
  {
    var counts: OMap<string, nat> := [];
    var total := 0;
    for i := 0 to |rows|
      invariant counts == Tally(rows[..i], AgentKey, CountStep)
      invariant total == i
    {
      TallyExtend(rows, i, AgentKey, CountStep);
      var agent := AgentKey(rows[i]);
      assert CountStep(Get(counts, agent), rows[i]) == Get(counts, agent).GetOr(0) + 1;
      counts := Set(counts, agent, Get(counts, agent).GetOr(0) + 1);
      total := total + 1;
    }
    assert rows[..|rows|] == rows;
    out := SortDesc(MapSeq(counts, MkShare(total)), ShareCount);
  }

  /** One entry per agent that has turns, and no other. */
  lemma DistributionKeys(rows: seq<Turn>)
    ensures Distinct(MapSeq(Distribution(rows), ShareAgent))
    ensures forall a :: a in MapSeq(Distribution(rows), ShareAgent)
                    <==> exists j :: 0 <= j < |rows| && AgentKey(rows[j]) == a
  {
    GroupedKeys(rows, AgentKey, CountStep, MkShare(|rows|), ShareCount, ShareAgent);
  }

  /** Each agent's count is its number of turns, and its percentage that
      count's share of all turns. */
  lemma DistributionEntry(rows: seq<Turn>, i: nat)
    requires i < |Distribution(rows)|
    ensures var e := Distribution(rows)[i];
      && e.count == Count(rows, HasKey(AgentKey, e.agent)) >= 1
      && e.percentage == Percent(e.count as real, |rows| as real)
  {
    var e := Distribution(rows)[i];
    GroupedEntry(rows, AgentKey, CountStep, MkShare(|rows|), ShareCount, ShareAgent, i);
    FoldCount(rows, AgentKey, e.agent);
  }

  lemma DistributionStepAddsOne()
    ensures forall total, k, o, r ::
      ShareCount(MkShare(total)((k, CountStep(o, r))))
      == (if o.Some? then ShareCount(MkShare(total)((k, o.value))) else 0.0) + One(r)
  {
  }

  /** Ordered by count, highest first; the counts add up to the number of
      turns. */
  lemma DistributionSums(rows: seq<Turn>)
    ensures SortedDesc(Distribution(rows), ShareCount)
    ensures SumOf(Distribution(rows), ShareCount) == |rows| as real
  {
    DistributionStepAddsOne();
    GroupedSum(rows, AgentKey, CountStep, MkShare(|rows|), ShareCount, ShareCount, One);
    SumOfOne(rows);
  }

  /** With any turns at all the percentages add up to 100. */
  lemma DistributionShares(rows: seq<Turn>)
    requires |rows| > 0
    ensures SumOf(Distribution(rows), SharePercentage) == 100.0
  {
    var out := Distribution(rows);
    var total := |rows| as real;
    forall i | 0 <= i < |out| ensures SharePercentage(out[i]) == Percent(ShareCount(out[i]), total) {
      DistributionEntry(rows, i);
    }
    SumOfPercent(out, ShareCount, SharePercentage, total);
    DistributionSums(rows);
    PercentWhole(total);
  }

  /** Agents with equal counts keep the order in which they first appear
      among the rows. */
  lemma DistributionTies(rows: seq<Turn>, v: real)
    ensures WithKey(Distribution(rows), ShareCount, v)
         == WithKey(MapSeq(Tally(rows, AgentKey, CountStep), MkShare(|rows|)), ShareCount, v)
    ensures Keys(Tally(rows, AgentKey, CountStep)) == Dedup(MapSeq(rows, AgentKey))
  {
    GroupedStable(rows, AgentKey, CountStep, MkShare(|rows|), ShareCount, v);
  }
}
