/** How often an agent's stated confidence came true: recency-weighted buckets, shrunken success rates
    and the offset taken from later confidences. Numbers are exact. Source: server/brain/calibration.ts. */
module Calibration {
  import opened Collections

  const BIN_COUNT: nat := 5
  const PRIOR_STRENGTH: real := 5.0

  /** An outcome row with its recency weight. */
  datatype Row = Row(agentRaw: Option<string>, stated: real, improved: bool, weight: real)

  datatype Bin = Bin(weightedSuccess: real, weight: real, n: nat)

  datatype Bucket = Bucket(weightedStated: real, weightedOutcome: real, weight: real, n: nat,
                           falsePositives: nat, falseNegatives: nat, bins: seq<Bin>)

  datatype BinRate = BinRate(n: nat, raw: Option<real>, shrunk: real)

  datatype Trend = Stable | Improving | Declining

  datatype CalibrationResult = CalibrationResult(avgStated: real, avgOutcome: real, error: real, score: real, offset: real,
                                     trend: Trend, n: nat, falsePositives: nat, falseNegatives: nat,
                                     factor: real, bins: seq<BinRate>)

  /** Recency weights are powers of one half with a non-negative exponent. */
  predicate Weighted(rows: seq<Row>) {
    forall i :: 0 <= i < |rows| ==> 0.0 < rows[i].weight <= 1.0
  }

  predicate StatedWithin(rows: seq<Row>, low: real, high: real) {
    forall i :: 0 <= i < |rows| ==> low <= rows[i].stated <= high
  }

  // ----- sums over rows -----

  function Weight(rows: seq<Row>): real {
    if rows == [] then 0.0 else Weight(rows[..|rows| - 1]) + rows[|rows| - 1].weight
  }

  function Stated(rows: seq<Row>): real {
    if rows == [] then 0.0 else Stated(rows[..|rows| - 1]) + rows[|rows| - 1].stated * rows[|rows| - 1].weight
  }

  function Success(rows: seq<Row>): real {
    if rows == [] then 0.0
    else Success(rows[..|rows| - 1]) + (if rows[|rows| - 1].improved then rows[|rows| - 1].weight else 0.0)
  }

  function FalsePositives(rows: seq<Row>): nat {
    if rows == [] then 0
    else FalsePositives(rows[..|rows| - 1]) + (if rows[|rows| - 1].stated >= 0.7 && !rows[|rows| - 1].improved then 1 else 0)
  }

  function FalseNegatives(rows: seq<Row>): nat {
    if rows == [] then 0
    else FalseNegatives(rows[..|rows| - 1]) + (if rows[|rows| - 1].stated < 0.5 && rows[|rows| - 1].improved then 1 else 0)
  }

  // ----- selecting rows -----

  function StripPrefix(raw: string): string {
    if "agent:" <= raw then raw[6..] else if "bap:" <= raw then raw[4..] else raw
  }

  function AgentOf(row: Row): Option<string> {
    if row.agentRaw.None? || row.agentRaw.value == "" then None else Some(StripPrefix(row.agentRaw.value))
  }

  /** A row counts for an agent if it names it, behind one of the two prefixes or, where the name has neither,
      as it is. Of two prefixes only the first is taken off. */
  lemma AgentIs(row: Row, agent: string)
    ensures AgentOf(row) == Some(agent) <==>
      && row.agentRaw.Some? && row.agentRaw.value != ""
      && (|| row.agentRaw.value == "agent:" + agent
          || row.agentRaw.value == "bap:" + agent
          || (row.agentRaw.value == agent && !("agent:" <= agent) && !("bap:" <= agent)))
  {
    if row.agentRaw.Some? {
      var raw := row.agentRaw.value;
      if "agent:" <= raw {
        assert raw == "agent:" + raw[6..] && !("bap:" <= raw) by {
          assert raw[0] == 'a';
        }
      } else if "bap:" <= raw {
        assert raw == "bap:" + raw[4..];
      }
      assert ("agent:" + agent)[6..] == agent && ("bap:" + agent)[4..] == agent;
    }
  }

  /** The rows proposed by one agent. */
  function RowsOf(rows: seq<Row>, agent: string): seq<Row> {
    if rows == [] then []
    else
      var n := |rows| - 1;
      RowsOf(rows[..n], agent) + (if AgentOf(rows[n]) == Some(agent) then [rows[n]] else [])
  }

  /** They are the rows that name it, as often as they occur. */
  lemma RowsOfAre(rows: seq<Row>, agent: string)
    ensures |RowsOf(rows, agent)| == |set i | 0 <= i < |rows| && AgentOf(rows[i]) == Some(agent)|
    ensures forall row :: row in RowsOf(rows, agent) <==> row in rows && AgentOf(row) == Some(agent)
  {
    var mine := (i: int) => 0 <= i < |rows| && AgentOf(rows[i]) == Some(agent);
    RowsOfUpTo(rows, agent, |rows|, mine);
    RowsOfMembers(rows, agent);
    assert rows[..|rows|] == rows;
    assert (set i | 0 <= i < |rows| && mine(i)) == (set i | 0 <= i < |rows| && AgentOf(rows[i]) == Some(agent));
  }

  lemma {:induction false} RowsOfUpTo(rows: seq<Row>, agent: string, n: nat, mine: int -> bool)
    requires n <= |rows| && forall i :: 0 <= i < |rows| ==> (mine(i) <==> AgentOf(rows[i]) == Some(agent))
    ensures |RowsOf(rows[..n], agent)| == |set i | 0 <= i < n && mine(i)|
  {
    if n > 0 {
      RowsOfUpTo(rows, agent, n - 1, mine);
      OneMoreHit(mine, n - 1);
      assert rows[..n][..n - 1] == rows[..n - 1];
    } else {
      assert (set i | 0 <= i < n && mine(i)) == {};
    }
  }

  lemma {:induction false} RowsOfMembers(rows: seq<Row>, agent: string)
    ensures forall row :: row in RowsOf(rows, agent) <==> row in rows && AgentOf(row) == Some(agent)
  {
    if rows != [] {
      RowsOfMembers(rows[..|rows| - 1], agent);
      SplitLast(rows);
      MembersOfOneMore(rows[..|rows| - 1], rows[|rows| - 1]);
    }
  }

  function Agents(rows: seq<Row>): set<string> {
    set i | 0 <= i < |rows| && AgentOf(rows[i]).Some? :: AgentOf(rows[i]).value
  }

  /** `Math.min(4, Math.max(0, Math.floor(confidence * 5)))`: the fifth of [0, 1] a confidence lies in. */
  function BinIndex(confidence: real): (k: nat)
    ensures k < BIN_COUNT
    ensures 0.0 <= confidence < 1.0 ==> k as real <= confidence * 5.0 < k as real + 1.0
    ensures confidence >= 1.0 ==> k == BIN_COUNT - 1
    ensures confidence < 0.0 ==> k == 0
  {
    var f := (confidence * 5.0).Floor;
    if f < 0 then 0 else if f > BIN_COUNT - 1 then BIN_COUNT - 1 else f
  }

  function InBin(rows: seq<Row>, k: nat): seq<Row> {
    if rows == [] then []
    else
      var n := |rows| - 1;
      InBin(rows[..n], k) + (if BinIndex(rows[n].stated) == k then [rows[n]] else [])
  }

  // ----- buckets -----

  /** The bin of one fifth, as sums over the rows in it. */
  function BinOf(mine: seq<Row>, k: nat): Bin {
    Bin(Success(InBin(mine, k)), Weight(InBin(mine, k)), |InBin(mine, k)|)
  }

  function BinsOf(mine: seq<Row>): (bins: seq<Bin>)
    ensures |bins| == BIN_COUNT && forall k :: 0 <= k < BIN_COUNT ==> bins[k] == BinOf(mine, k)
  {
    seq(BIN_COUNT, k requires 0 <= k < BIN_COUNT => BinOf(mine, k))
  }

  /** The bucket of an agent, as sums over its rows. */
  function BucketOf(mine: seq<Row>): Bucket {
    Bucket(Stated(mine), Success(mine), Weight(mine), |mine|, FalsePositives(mine), FalseNegatives(mine), BinsOf(mine))
  }

  const EMPTY_BIN: Bin := Bin(0.0, 0.0, 0)
  const EMPTY_BUCKET: Bucket := Bucket(0.0, 0.0, 0.0, 0, 0, 0, [EMPTY_BIN, EMPTY_BIN, EMPTY_BIN, EMPTY_BIN, EMPTY_BIN])

  function AddToBin(bin: Bin, row: Row): Bin {
    Bin(bin.weightedSuccess + (if row.improved then row.weight else 0.0), bin.weight + row.weight, bin.n + 1)
  }

  /** The updates made for one row. */
  function AddTo(b: Bucket, row: Row): Bucket
    requires |b.bins| == BIN_COUNT
  {
    var k := BinIndex(row.stated);
    Bucket(b.weightedStated + row.stated * row.weight,
           b.weightedOutcome + (if row.improved then row.weight else 0.0),
           b.weight + row.weight,
           b.n + 1,
           b.falsePositives + (if row.stated >= 0.7 && !row.improved then 1 else 0),
           b.falseNegatives + (if row.stated < 0.5 && row.improved then 1 else 0),
           b.bins[k := AddToBin(b.bins[k], row)])
  }

  lemma SumsOfOneMore(rows: seq<Row>, row: Row)
    ensures Weight(rows + [row]) == Weight(rows) + row.weight
    ensures Stated(rows + [row]) == Stated(rows) + row.stated * row.weight
    ensures Success(rows + [row]) == Success(rows) + (if row.improved then row.weight else 0.0)
    ensures FalsePositives(rows + [row]) == FalsePositives(rows) + (if row.stated >= 0.7 && !row.improved then 1 else 0)
    ensures FalseNegatives(rows + [row]) == FalseNegatives(rows) + (if row.stated < 0.5 && row.improved then 1 else 0)
  {
    assert (rows + [row])[..|rows|] == rows;
  }

  lemma BinOfOneMore(mine: seq<Row>, row: Row, k: nat)
    ensures BinOf(mine + [row], k) == if k == BinIndex(row.stated) then AddToBin(BinOf(mine, k), row) else BinOf(mine, k)
  {
    assert (mine + [row])[..|mine|] == mine;
    if k == BinIndex(row.stated) {
      assert InBin(mine + [row], k) == InBin(mine, k) + [row];
      SumsOfOneMore(InBin(mine, k), row);
    } else {
      assert InBin(mine + [row], k) == InBin(mine, k);
    }
  }

  lemma BinsOfOneMore(mine: seq<Row>, row: Row)
    ensures var k := BinIndex(row.stated);
            BinsOf(mine)[k := AddToBin(BinOf(mine, k), row)] == BinsOf(mine + [row])
  {
    forall k | 0 <= k < BIN_COUNT
      ensures BinsOf(mine + [row])[k] == if k == BinIndex(row.stated) then AddToBin(BinOf(mine, k), row) else BinOf(mine, k)
    {
      BinOfOneMore(mine, row, k);
    }
  }

  /** Updating the bucket for a row gives the sums with that row. */
  lemma BucketOfOneMore(mine: seq<Row>, row: Row)
    ensures AddTo(BucketOf(mine), row) == BucketOf(mine + [row])
  {
    SumsOfOneMore(mine, row);
    BinsOfOneMore(mine, row);
  }

  /** One bucket per agent, each holding the sums over that agent's rows. */
  ghost predicate Tallied(buckets: map<string, Bucket>, rows: seq<Row>) {
    && buckets.Keys == Agents(rows)
    && forall agent :: agent in buckets ==> buckets[agent] == BucketOf(RowsOf(rows, agent))
  }

  /** The accumulation loop. The buckets are kept in a plain object: for a name that such an object inherits,
      like `constructor`, the loop finds what is inherited instead of a bucket, and throws. */
  method Accumulate(rows: seq<Row>, inherited: set<string>) returns (buckets: Option<map<string, Bucket>>)
    ensures buckets.None? <==> Agents(rows) * inherited != {}
    ensures buckets.Some? ==> Tallied(buckets.value, rows)
  {
    var known: map<string, Bucket> := map[];
    for i := 0 to |rows|
      invariant Tallied(known, rows[..i]) && Agents(rows[..i]) * inherited == {}
    {
      PrefixOfOneMore(rows, i);
      AgentsOfOneMore(rows[..i], rows[i]);
      var agent := AgentOf(rows[i]);
      if agent.Some? && agent.value in inherited {
        assert agent.value in Agents(rows) * inherited;
        return None;
      }
      known := AccumulateRow(known, rows[..i], rows[i]);
    }
    assert rows[..|rows|] == rows;
    return Some(known);
  }

  method AccumulateRow(buckets: map<string, Bucket>, ghost before: seq<Row>, row: Row) returns (r: map<string, Bucket>)
    requires Tallied(buckets, before)
    ensures Tallied(r, before + [row])
  {
    r := buckets;
    var agent := AgentOf(row);
    if agent.Some? {
      BucketSoFar(buckets, before, agent.value);
      BucketOfOneMore(RowsOf(before, agent.value), row);
      if agent.value !in r {
        r := r[agent.value := EMPTY_BUCKET];
      }
      r := r[agent.value := AddTo(r[agent.value], row)];
    }
    TalliedOneMore(buckets, r, before, row);
  }

  lemma BucketSoFar(buckets: map<string, Bucket>, rows: seq<Row>, agent: string)
    requires Tallied(buckets, rows)
    ensures (if agent in buckets then buckets[agent] else EMPTY_BUCKET) == BucketOf(RowsOf(rows, agent))
  {
    if agent !in buckets {
      NoRowsYet(rows, agent);
      assert forall k :: 0 <= k < BIN_COUNT ==> BinOf([], k) == EMPTY_BIN;
      assert BinsOf([]) == EMPTY_BUCKET.bins;
    }
  }

  lemma TalliedOneMore(buckets: map<string, Bucket>, after: map<string, Bucket>, rows: seq<Row>, row: Row)
    requires Tallied(buckets, rows)
    requires match AgentOf(row)
             case None => after == buckets
             case Some(agent) => after == buckets[agent := BucketOf(RowsOf(rows, agent) + [row])]
    ensures Tallied(after, rows + [row])
  {
    AgentsOfOneMore(rows, row);
    RowsOfOneMore(rows, row);
  }

  lemma RowsOfOneMore(rows: seq<Row>, row: Row)
    ensures forall agent :: RowsOf(rows + [row], agent)
                         == if AgentOf(row) == Some(agent) then RowsOf(rows, agent) + [row] else RowsOf(rows, agent)
  {
    assert (rows + [row])[..|rows|] == rows;
    forall agent
      ensures RowsOf(rows + [row], agent)
           == if AgentOf(row) == Some(agent) then RowsOf(rows, agent) + [row] else RowsOf(rows, agent)
    {
      assert RowsOf(rows, agent) + [] == RowsOf(rows, agent);
    }
  }

  lemma AgentsOfOneMore(rows: seq<Row>, row: Row)
    ensures Agents(rows + [row]) == Agents(rows) + (if AgentOf(row).Some? then {AgentOf(row).value} else {})
  {
    var more := rows + [row];
    forall x | x in Agents(rows) ensures x in Agents(more) {
      var j :| 0 <= j < |rows| && AgentOf(rows[j]) == Some(x);
      assert more[j] == rows[j];
    }
    assert more[|rows|] == row;
  }

  lemma {:induction false} NoRowsYet(rows: seq<Row>, agent: string)
    requires agent !in Agents(rows)
    ensures RowsOf(rows, agent) == []
  {
    if rows != [] {
      var n := |rows| - 1;
      assert rows == rows[..n] + [rows[n]];
      AgentsOfOneMore(rows[..n], rows[n]);
      NoRowsYet(rows[..n], agent);
    }
  }

  // ----- conservation -----

  function BinWeights(bins: seq<Bin>): real
    requires |bins| == BIN_COUNT
  {
    bins[0].weight + bins[1].weight + bins[2].weight + bins[3].weight + bins[4].weight
  }

  function BinSuccesses(bins: seq<Bin>): real
    requires |bins| == BIN_COUNT
  {
    bins[0].weightedSuccess + bins[1].weightedSuccess + bins[2].weightedSuccess + bins[3].weightedSuccess
    + bins[4].weightedSuccess
  }

  function BinCounts(bins: seq<Bin>): nat
    requires |bins| == BIN_COUNT
  {
    bins[0].n + bins[1].n + bins[2].n + bins[3].n + bins[4].n
  }

  /** Weights, successes and counts of the five bins add up to those of the agent. */
  lemma {:induction false} BinsAddUp(mine: seq<Row>)
    ensures BinWeights(BinsOf(mine)) == Weight(mine)
    ensures BinSuccesses(BinsOf(mine)) == Success(mine)
    ensures BinCounts(BinsOf(mine)) == |mine|
  {
    if mine != [] {
      var n := |mine| - 1;
      BinsAddUp(mine[..n]);
      BinsOfOneMore(mine[..n], mine[n]);
      assert mine[..n] + [mine[n]] == mine;
    }
  }

  // ----- bounds -----

  lemma {:induction false} Bounds(rows: seq<Row>, low: real, high: real)
    requires Weighted(rows) && StatedWithin(rows, low, high)
    ensures low * Weight(rows) <= Stated(rows) <= high * Weight(rows)
  {
    if rows == [] {
      assert Weight(rows) == 0.0 == Stated(rows);
    } else {
      var n := |rows| - 1;
      var w, mass, s, weight := Weight(rows[..n]), Stated(rows[..n]), rows[n].stated, rows[n].weight;
      Bounds(rows[..n], low, high);
      assert Weight(rows) == w + weight && Stated(rows) == mass + s * weight;
      MeanOfOneMore(low, high, w, mass, s, weight);
    }
  }

  lemma MeanOfOneMore(low: real, high: real, w: real, mass: real, stated: real, weight: real)
    requires low * w <= mass <= high * w && low <= stated <= high && weight >= 0.0
    ensures low * (w + weight) <= mass + stated * weight <= high * (w + weight)
  {
    Scale(low, stated, weight);
    Scale(stated, high, weight);
    assert low * (w + weight) == low * w + low * weight;
    assert high * (w + weight) == high * w + high * weight;
  }

  lemma Scale(x: real, y: real, w: real)
    requires x <= y && w >= 0.0
    ensures x * w <= y * w
  {
  }

  lemma {:induction false} AllImproved(rows: seq<Row>)
    requires Weighted(rows)
    ensures Success(rows) == Weight(rows) <==> forall i :: 0 <= i < |rows| ==> rows[i].improved
    ensures 0.0 <= Success(rows) <= Weight(rows)
  {
    if rows != [] {
      AllImproved(rows[..|rows| - 1]);
    }
  }

  lemma {:induction false} RowsOfAreWeighted(rows: seq<Row>, agent: string)
    requires Weighted(rows)
    ensures Weighted(RowsOf(rows, agent))
  {
    if rows != [] {
      RowsOfAreWeighted(rows[..|rows| - 1], agent);
    }
  }

  lemma {:induction false} RowsOfAreWithin(rows: seq<Row>, agent: string, low: real, high: real)
    requires StatedWithin(rows, low, high)
    ensures StatedWithin(RowsOf(rows, agent), low, high)
  {
    if rows != [] {
      RowsOfAreWithin(rows[..|rows| - 1], agent, low, high);
    }
  }

  lemma {:induction false} InBinAre(mine: seq<Row>, k: nat)
    requires Weighted(mine) && StatedWithin(mine, 0.0, 1.0) && k < BIN_COUNT
    ensures Weighted(InBin(mine, k)) && StatedWithin(InBin(mine, k), k as real / 5.0, (k + 1) as real / 5.0)
  {
    if mine != [] {
      InBinAre(mine[..|mine| - 1], k);
    }
  }

  /** The average confidence stated in a bin lies in that bin's fifth. */
  lemma BinsHoldTheirRange(mine: seq<Row>, k: nat)
    requires Weighted(mine) && StatedWithin(mine, 0.0, 1.0) && k < BIN_COUNT && InBin(mine, k) != []
    ensures Weight(InBin(mine, k)) > 0.0
    ensures k as real / 5.0 <= Stated(InBin(mine, k)) / Weight(InBin(mine, k)) <= (k + 1) as real / 5.0
  {
    InBinAre(mine, k);
    PositiveWeight(InBin(mine, k));
    MeanWithin(InBin(mine, k), k as real / 5.0, (k + 1) as real / 5.0);
  }

  lemma MeanWithin(rows: seq<Row>, low: real, high: real)
    requires Weighted(rows) && StatedWithin(rows, low, high) && Weight(rows) > 0.0
    ensures low <= Stated(rows) / Weight(rows) <= high
  {
    Bounds(rows, low, high);
    QuotientWithin(Stated(rows), Weight(rows), low, high);
  }

  lemma QuotientWithin(x: real, w: real, low: real, high: real)
    requires w > 0.0 && low * w <= x <= high * w
    ensures low <= x / w <= high
  {
  }

  // ----- shrinkage -----

  function RawRate(bin: Bin): Option<real> {
    if bin.weight > 0.0 then Some(bin.weightedSuccess / bin.weight) else None
  }

  function ShrunkRate(bin: Bin, avgOutcome: real): real
    requires bin.weight >= 0.0
  {
    (bin.weightedSuccess + avgOutcome * PRIOR_STRENGTH) / (bin.weight + PRIOR_STRENGTH)
  }

  lemma TimesQuotient(x: real, w: real)
    requires w > 0.0
    ensures x / w * w == x
  {
  }

  /** Shrinking pulls a rate towards the agent's overall one: the distances to the raw and to the overall
      rate are as five to the weight of the bin. */
  lemma ShrunkDivides(bin: Bin, avg: real)
    requires bin.weight > 0.0
    ensures var raw, shrunk := RawRate(bin).value, ShrunkRate(bin, avg);
            && (shrunk - raw) * (bin.weight + PRIOR_STRENGTH) == PRIOR_STRENGTH * (avg - raw)
            && (shrunk - avg) * (bin.weight + PRIOR_STRENGTH) == bin.weight * (raw - avg)
  {
    var raw, shrunk := RawRate(bin).value, ShrunkRate(bin, avg);
    TimesQuotient(bin.weightedSuccess, bin.weight);
    TimesQuotient(bin.weightedSuccess + avg * PRIOR_STRENGTH, bin.weight + PRIOR_STRENGTH);
    assert shrunk * bin.weight + shrunk * PRIOR_STRENGTH == raw * bin.weight + avg * PRIOR_STRENGTH;
  }

  /** A weighted mean lies strictly between two different numbers. */
  lemma Between(raw: real, avg: real, shrunk: real, w: real, p: real)
    requires w > 0.0 && p > 0.0 && shrunk * (w + p) == raw * w + avg * p
    ensures raw < avg ==> raw < shrunk < avg
    ensures raw > avg ==> raw > shrunk > avg
    ensures raw == avg ==> shrunk == avg
  {
  }

  /** A shrunken rate lies between the raw rate and the overall one, strictly when they differ; with an
      empty bin it is the overall one. */
  lemma ShrunkIsBetween(bin: Bin, avg: real)
    requires bin.weight >= 0.0 && (bin.weight == 0.0 ==> bin.weightedSuccess == 0.0)
    ensures bin.weight == 0.0 ==> RawRate(bin).None? && ShrunkRate(bin, avg) == avg
    ensures bin.weight > 0.0 ==>
              var raw, shrunk := RawRate(bin).value, ShrunkRate(bin, avg);
              (raw < avg ==> raw < shrunk < avg) && (raw > avg ==> raw > shrunk > avg) && (raw == avg ==> shrunk == avg)
  {
    if bin.weight > 0.0 {
      TimesQuotient(bin.weightedSuccess, bin.weight);
      TimesQuotient(bin.weightedSuccess + avg * PRIOR_STRENGTH, bin.weight + PRIOR_STRENGTH);
      Between(RawRate(bin).value, avg, ShrunkRate(bin, avg), bin.weight, PRIOR_STRENGTH);
    } else {
      TimesQuotient(avg * PRIOR_STRENGTH, PRIOR_STRENGTH);
    }
  }

  /** A shrunken rate times its bin's weight, the prior's included. */
  function ShrunkMass(bin: Bin, avg: real): real
    requires bin.weight >= 0.0
  {
    (bin.weight + PRIOR_STRENGTH) * ShrunkRate(bin, avg)
  }

  lemma ShrunkMassIs(bin: Bin, avg: real)
    requires bin.weight >= 0.0
    ensures ShrunkMass(bin, avg) == bin.weightedSuccess + avg * PRIOR_STRENGTH
  {
    TimesQuotient(bin.weightedSuccess + avg * PRIOR_STRENGTH, bin.weight + PRIOR_STRENGTH);
  }

  lemma BinsAreSound(mine: seq<Row>, k: nat)
    requires Weighted(mine) && k < BIN_COUNT
    ensures var bin := BinsOf(mine)[k];
            0.0 <= bin.weightedSuccess <= bin.weight && (bin.n == 0 <==> bin.weight == 0.0)
  {
    InBinWeighted(mine, k);
    AllImproved(InBin(mine, k));
    PositiveWeight(InBin(mine, k));
  }

  lemma {:induction false} InBinWeighted(mine: seq<Row>, k: nat)
    requires Weighted(mine)
    ensures Weighted(InBin(mine, k))
  {
    if mine != [] {
      InBinWeighted(mine[..|mine| - 1], k);
    }
  }

  lemma {:induction false} PositiveWeight(rows: seq<Row>)
    requires Weighted(rows)
    ensures Weight(rows) >= 0.0 && (Weight(rows) == 0.0 <==> rows == [])
  {
    if rows != [] {
      PositiveWeight(rows[..|rows| - 1]);
    }
  }

  /** Shrinking moves success between the bins and loses none of it. */
  lemma ShrinkageConserves(mine: seq<Row>)
    requires Weighted(mine) && mine != []
    ensures Weight(mine) > 0.0
    ensures forall k :: 0 <= k < BIN_COUNT ==> BinsOf(mine)[k].weight >= 0.0
    ensures var bins, avg := BinsOf(mine), Success(mine) / Weight(mine);
            ShrunkMass(bins[0], avg) + ShrunkMass(bins[1], avg) + ShrunkMass(bins[2], avg) + ShrunkMass(bins[3], avg)
            + ShrunkMass(bins[4], avg) == (Weight(mine) + 25.0) * avg
  {
    var bins, avg := BinsOf(mine), Success(mine) / Weight(mine);
    PositiveWeight(mine);
    forall k | 0 <= k < BIN_COUNT
      ensures bins[k].weight >= 0.0 && ShrunkMass(bins[k], avg) == bins[k].weightedSuccess + avg * PRIOR_STRENGTH
    {
      BinsAreSound(mine, k);
      ShrunkMassIs(bins[k], avg);
    }
    BinsAddUp(mine);
    TimesQuotient(Success(mine), Weight(mine));
  }

  // ----- the calibration of one period -----

  function Abs(x: real): real {
    if x < 0.0 then -x else x
  }

  /** `[err, ...prior].filter((e) => e > 0.05).length` */
  function OverconfidentCount(errors: seq<real>): nat {
    if errors == [] then 0 else OverconfidentCount(errors[1..]) + (if errors[0] > 0.05 then 1 else 0)
  }

  function Factor(error: real, prior: seq<real>): real {
    if OverconfidentCount([error] + prior) >= 2 then 1.5 else 1.0
  }

  function TrendOf(error: real, prior: seq<real>): Trend {
    if prior == [] then Stable
    else
      var diff := Abs(error) - Abs(prior[0]);
      if diff < -0.03 then Improving else if diff > 0.03 then Declining else Stable
  }

  function RateOf(bin: Bin, avgOutcome: real): BinRate
    requires bin.weight >= 0.0
  {
    BinRate(bin.n, RawRate(bin), ShrunkRate(bin, avgOutcome))
  }

  /** `prior` holds the errors of the last two periods, newest first. */
  function Calibrated(b: Bucket, prior: seq<real>): CalibrationResult
    requires b.weight > 0.0 && forall k :: 0 <= k < |b.bins| ==> b.bins[k].weight >= 0.0
  {
    var avgStated, avgOutcome := b.weightedStated / b.weight, b.weightedOutcome / b.weight;
    var error := avgStated - avgOutcome;
    var score := if 1.0 - Abs(error) > 0.0 then 1.0 - Abs(error) else 0.0;
    var factor := Factor(error, prior);
    CalibrationResult(avgStated, avgOutcome, error, score, error * factor, TrendOf(error, prior),
                b.n, b.falsePositives, b.falseNegatives, factor,
                seq(|b.bins|, k requires 0 <= k < |b.bins| => RateOf(b.bins[k], avgOutcome)))
  }

  lemma CountsAre(mine: seq<Row>)
    ensures FalsePositives(mine) == |set i | 0 <= i < |mine| && mine[i].stated >= 0.7 && !mine[i].improved|
    ensures FalseNegatives(mine) == |set i | 0 <= i < |mine| && mine[i].stated < 0.5 && mine[i].improved|
  {
    var surprise := (i: int) => 0 <= i < |mine| && mine[i].stated >= 0.7 && !mine[i].improved;
    var doubt := (i: int) => 0 <= i < |mine| && mine[i].stated < 0.5 && mine[i].improved;
    CountsUpTo(mine, |mine|, surprise, doubt);
    assert mine[..|mine|] == mine;
    assert (set i | 0 <= i < |mine| && surprise(i)) == (set i | 0 <= i < |mine| && mine[i].stated >= 0.7 && !mine[i].improved);
    assert (set i | 0 <= i < |mine| && doubt(i)) == (set i | 0 <= i < |mine| && mine[i].stated < 0.5 && mine[i].improved);
  }

  lemma {:induction false} CountsUpTo(mine: seq<Row>, n: nat, surprise: int -> bool, doubt: int -> bool)
    requires n <= |mine|
    requires forall i :: 0 <= i < |mine| ==> (surprise(i) <==> mine[i].stated >= 0.7 && !mine[i].improved)
    requires forall i :: 0 <= i < |mine| ==> (doubt(i) <==> mine[i].stated < 0.5 && mine[i].improved)
    ensures FalsePositives(mine[..n]) == |set i | 0 <= i < n && surprise(i)|
    ensures FalseNegatives(mine[..n]) == |set i | 0 <= i < n && doubt(i)|
  {
    if n > 0 {
      CountsUpTo(mine, n - 1, surprise, doubt);
      OneMoreHit(surprise, n - 1);
      OneMoreHit(doubt, n - 1);
      assert mine[..n][..n - 1] == mine[..n - 1];
    } else {
      assert (set i | 0 <= i < n && surprise(i)) == {} && (set i | 0 <= i < n && doubt(i)) == {};
    }
  }

  /** What a stored calibration says of the agent's rows: the two averages, their difference and its distance
      from one, and the counts. */
  lemma CalibratedSays(mine: seq<Row>, prior: seq<real>)
    requires Weighted(mine) && mine != []
    ensures BucketOf(mine).weight > 0.0 && forall k :: 0 <= k < BIN_COUNT ==> BucketOf(mine).bins[k].weight >= 0.0
    ensures
      var c := Calibrated(BucketOf(mine), prior);
      && c.avgStated == Stated(mine) / Weight(mine) && c.avgOutcome == Success(mine) / Weight(mine)
      && c.error == c.avgStated - c.avgOutcome
      && (-1.0 <= c.error <= 0.0 ==> c.score == 1.0 + c.error) && (0.0 <= c.error <= 1.0 ==> c.score == 1.0 - c.error)
      && (c.error < -1.0 || c.error > 1.0 ==> c.score == 0.0)
      && c.n == |mine|
      && c.falsePositives == |set i | 0 <= i < |mine| && mine[i].stated >= 0.7 && !mine[i].improved|
      && c.falseNegatives == |set i | 0 <= i < |mine| && mine[i].stated < 0.5 && mine[i].improved|
      && |c.bins| == 5
  {
    CalibratedIsDefined(mine);
    CountsAre(mine);
  }

  /** Of each bin its rows, its raw rate if it has any, and the rate with five observations of the overall
      rate added. */
  lemma BinsSay(mine: seq<Row>, prior: seq<real>, k: nat)
    requires Weighted(mine) && mine != [] && k < 5
    ensures BucketOf(mine).weight > 0.0 && forall j :: 0 <= j < BIN_COUNT ==> BucketOf(mine).bins[j].weight >= 0.0
    ensures
      var c, bin := Calibrated(BucketOf(mine), prior), InBin(mine, k);
      && |c.bins| == 5 && c.bins[k].n == |bin|
      && (bin == [] ==> c.bins[k].raw == None)
      && (bin != [] ==> Weight(bin) > 0.0 && c.bins[k].raw == Some(Success(bin) / Weight(bin)))
      && Weight(bin) + 5.0 > 0.0 && c.bins[k].shrunk == (Success(bin) + c.avgOutcome * 5.0) / (Weight(bin) + 5.0)
  {
    CalibratedIsDefined(mine);
    BinsAreSound(mine, k);
    PositiveBin(mine, k);
  }

  lemma PositiveBin(mine: seq<Row>, k: nat)
    requires Weighted(mine)
    ensures Weight(InBin(mine, k)) >= 0.0 && (Weight(InBin(mine, k)) == 0.0 <==> InBin(mine, k) == [])
  {
    InBinWeighted(mine, k);
    PositiveWeight(InBin(mine, k));
  }

  /** The trend compares the sizes of this error and the latest one before it, with a margin of three per cent;
      the offset is the error, half as much again if two of the at most three errors exceed five per cent. */
  lemma TrendAndOffsetSay(mine: seq<Row>, prior: seq<real>)
    requires Weighted(mine) && mine != [] && |prior| <= 2
    ensures BucketOf(mine).weight > 0.0 && forall k :: 0 <= k < BIN_COUNT ==> BucketOf(mine).bins[k].weight >= 0.0
    ensures
      var c := Calibrated(BucketOf(mine), prior);
      var all := [c.error] + prior;
      && (c.factor == 1.5 <==> exists i, j :: 0 <= i < j < |all| && all[i] > 0.05 && all[j] > 0.05)
      && c.factor in {1.0, 1.5} && c.offset == c.error * c.factor
    ensures
      var c := Calibrated(BucketOf(mine), prior);
      var size := if c.error < 0.0 then -c.error else c.error;
      && (prior == [] ==> c.trend == Stable)
      && (prior != [] ==>
            var last := if prior[0] < 0.0 then -prior[0] else prior[0];
            && (c.trend == Improving <==> size < last - 0.03)
            && (c.trend == Declining <==> size > last + 0.03))
  {
    CalibratedIsDefined(mine);
    ScaledIff(Calibrated(BucketOf(mine), prior).error, prior);
  }

  /** A calibration of confidences that were probabilities. */
  predicate Sensible(c: CalibrationResult) {
    && 0.0 <= c.avgStated <= 1.0 && 0.0 <= c.avgOutcome <= 1.0
    && c.error == c.avgStated - c.avgOutcome
    && c.score == 1.0 - Abs(c.error)
    && c.factor in {1.0, 1.5} && c.offset == c.error * c.factor
    && |c.bins| == BIN_COUNT && c.n >= 3
    && forall k :: 0 <= k < BIN_COUNT ==> 0.0 <= c.bins[k].shrunk <= 1.0
  }

  lemma ShrunkIsRate(bin: Bin, avg: real)
    requires 0.0 <= bin.weightedSuccess <= bin.weight && 0.0 <= avg <= 1.0
    ensures 0.0 <= ShrunkRate(bin, avg) <= 1.0
  {
    QuotientWithin(bin.weightedSuccess + avg * PRIOR_STRENGTH, bin.weight + PRIOR_STRENGTH, 0.0, 1.0);
  }

  lemma BucketIsSound(mine: seq<Row>)
    requires Weighted(mine) && StatedWithin(mine, 0.0, 1.0) && mine != []
    ensures Weight(mine) > 0.0
    ensures 0.0 <= Stated(mine) / Weight(mine) <= 1.0 && 0.0 <= Success(mine) / Weight(mine) <= 1.0
    ensures forall k :: 0 <= k < BIN_COUNT ==> 0.0 <= BinsOf(mine)[k].weightedSuccess <= BinsOf(mine)[k].weight
  {
    PositiveWeight(mine);
    MeanWithin(mine, 0.0, 1.0);
    AllImproved(mine);
    QuotientWithin(Success(mine), Weight(mine), 0.0, 1.0);
    forall k | 0 <= k < BIN_COUNT
      ensures 0.0 <= BinsOf(mine)[k].weightedSuccess <= BinsOf(mine)[k].weight
    {
      BinsAreSound(mine, k);
    }
  }

  lemma CalibratedIsDefined(mine: seq<Row>)
    requires Weighted(mine) && mine != []
    ensures BucketOf(mine).weight > 0.0 && forall k :: 0 <= k < BIN_COUNT ==> BucketOf(mine).bins[k].weight >= 0.0
  {
    PositiveWeight(mine);
    forall k | 0 <= k < BIN_COUNT ensures BinsOf(mine)[k].weight >= 0.0 {
      BinsAreSound(mine, k);
    }
  }

  /** Confidences between zero and one give averages, a score and rates between zero and one, and then the
      score needs no clamping. */
  lemma CalibratedIsSensible(mine: seq<Row>, prior: seq<real>)
    requires Weighted(mine) && StatedWithin(mine, 0.0, 1.0) && |mine| >= 3
    ensures BucketOf(mine).weight > 0.0 && forall k :: 0 <= k < BIN_COUNT ==> BucketOf(mine).bins[k].weight >= 0.0
    ensures Sensible(Calibrated(BucketOf(mine), prior))
  {
    BucketIsSound(mine);
    SoundIsSensible(BucketOf(mine), prior);
  }

  lemma SoundIsSensible(b: Bucket, prior: seq<real>)
    requires b.weight > 0.0 && b.n >= 3 && |b.bins| == BIN_COUNT
    requires 0.0 <= b.weightedStated / b.weight <= 1.0 && 0.0 <= b.weightedOutcome / b.weight <= 1.0
    requires forall k :: 0 <= k < BIN_COUNT ==> 0.0 <= b.bins[k].weightedSuccess <= b.bins[k].weight
    ensures Sensible(Calibrated(b, prior))
  {
    forall k | 0 <= k < BIN_COUNT ensures 0.0 <= ShrunkRate(b.bins[k], b.weightedOutcome / b.weight) <= 1.0 {
      ShrunkIsRate(b.bins[k], b.weightedOutcome / b.weight);
    }
  }

  /** The averages are means: a bound on every stated confidence bounds the average, and the outcome
      average is one exactly if every outcome improved. */
  lemma AveragesAreMeans(mine: seq<Row>, low: real, high: real)
    requires Weighted(mine) && mine != [] && StatedWithin(mine, low, high)
    ensures Weight(mine) > 0.0
    ensures low <= Stated(mine) / Weight(mine) <= high
    ensures Success(mine) / Weight(mine) == 1.0 <==> forall i :: 0 <= i < |mine| ==> mine[i].improved
  {
    PositiveWeight(mine);
    MeanWithin(mine, low, high);
    AllImproved(mine);
    OneIff(Success(mine), Weight(mine));
  }

  lemma OneIff(x: real, w: real)
    requires w > 0.0
    ensures x / w == 1.0 <==> x == w
  {
    TimesQuotient(x, w);
  }

  lemma {:induction false} LoweredMass(rows: seq<Row>, amount: real)
    ensures Stated(Lowered(rows, amount)) == Stated(rows) - amount * Weight(rows)
  {
    if rows == [] {
      assert Weight(rows) == 0.0;
    } else {
      var n := |rows| - 1;
      LoweredMass(rows[..n], amount);
      assert Lowered(rows, amount)[..n] == Lowered(rows[..n], amount);
      Distribute(amount, Weight(rows[..n]), rows[n].stated, rows[n].weight);
    }
  }

  lemma Distribute(x: real, w: real, stated: real, weight: real)
    ensures x * (w + weight) == x * w + x * weight
    ensures (stated - x) * weight == stated * weight - x * weight
  {
  }

  /** Taking the unscaled error from every stated confidence makes the weighted confidences equal the
      weighted successes, and no other amount does. */
  lemma OffsetCentres(mine: seq<Row>, amount: real)
    requires Weight(mine) > 0.0
    ensures Stated(Lowered(mine, amount)) == Success(mine)
       <==> amount == Stated(mine) / Weight(mine) - Success(mine) / Weight(mine)
  {
    LoweredMass(mine, amount);
    UniqueOffset(Stated(mine), Success(mine), Weight(mine), amount);
  }

  lemma UniqueOffset(stated: real, success: real, w: real, amount: real)
    requires w > 0.0
    ensures stated - amount * w == success <==> amount == stated / w - success / w
  {
    TimesQuotient(stated, w);
    TimesQuotient(success, w);
    var error := stated / w - success / w;
    assert error * w == stated - success;
  }

  function Lowered(rows: seq<Row>, amount: real): seq<Row> {
    seq(|rows|, i requires 0 <= i < |rows| => rows[i].(stated := rows[i].stated - amount))
  }

  // ----- the conservatism factor -----

  lemma CountUpToThree(e: seq<real>)
    requires 1 <= |e| <= 3
    ensures OverconfidentCount(e) == (if e[0] > 0.05 then 1 else 0) + (if |e| > 1 && e[1] > 0.05 then 1 else 0)
                                     + (if |e| > 2 && e[2] > 0.05 then 1 else 0)
  {
    if |e| > 1 {
      CountUpToThree(e[1..]);
    }
  }

  /** The offset is scaled exactly if two of the at most three errors exceed five per cent. */
  lemma ScaledIff(error: real, prior: seq<real>)
    requires |prior| <= 2
    ensures var all := [error] + prior;
            Factor(error, prior) == 1.5 <==> exists i, j :: 0 <= i < j < |all| && all[i] > 0.05 && all[j] > 0.05
  {
    var all := [error] + prior;
    CountUpToThree(all);
    if OverconfidentCount(all) >= 2 {
      var i := if all[0] > 0.05 then 0 else 1;
      var j := if i == 0 && all[1] > 0.05 then 1 else 2;
      assert all[i] > 0.05 && all[j] > 0.05;
    }
  }

  /** The scaling makes an agent less conservative exactly if the agent is now underconfident after two
      overconfident periods: its confidences are then raised half as much again. */
  lemma ScalingBackfiresIff(error: real, prior: seq<real>)
    requires |prior| <= 2
    ensures error * Factor(error, prior) < error <==> error < 0.0 && |prior| == 2 && prior[0] > 0.05 && prior[1] > 0.05
  {
    ScaledIff(error, prior);
    var all := [error] + prior;
    if error < 0.0 && Factor(error, prior) == 1.5 {
      var i, j :| 0 <= i < j < |all| && all[i] > 0.05 && all[j] > 0.05;
      assert i == 1 && j == 2;
    }
    if error < 0.0 && |prior| == 2 && prior[0] > 0.05 && prior[1] > 0.05 {
      assert all[1] > 0.05 && all[2] > 0.05;
    }
  }

  // ----- applying the offset -----

  /** `adjustedConfidence`; without an offset, or with a zero one, the confidence is returned as it is. */
  function Adjusted(stated: real, offset: Option<real>): real {
    if offset.None? || offset.value == 0.0 then stated
    else
      var adjusted := stated - offset.value;
      var capped := if adjusted < 1.0 then adjusted else 1.0;
      if capped > 0.0 then capped else 0.0
  }

  /** The offset is taken off, and what then lies outside [0, 1] is moved to its nearer end. */
  lemma AdjustedIs(stated: real, offset: Option<real>)
    ensures offset.GetOr(0.0) == 0.0 ==> Adjusted(stated, offset) == stated
    ensures offset.GetOr(0.0) != 0.0 ==>
              var rest := stated - offset.value;
              && (0.0 <= rest <= 1.0 ==> Adjusted(stated, offset) == rest)
              && (rest < 0.0 ==> Adjusted(stated, offset) == 0.0)
              && (rest > 1.0 ==> Adjusted(stated, offset) == 1.0)
  {
  }

  /** The adjusted confidence is a probability, unless no offset applies and the stated one is none. */
  lemma AdjustedIsProbabilityIff(stated: real, offset: Option<real>)
    ensures 0.0 <= Adjusted(stated, offset) <= 1.0 <==> 0.0 <= stated <= 1.0 || offset.GetOr(0.0) != 0.0
  {
  }

  lemma AdjustedIsMonotone(low: real, high: real, offset: Option<real>)
    requires low <= high
    ensures Adjusted(low, offset) <= Adjusted(high, offset)
  {
  }

  /** An overconfident agent is never rated higher than it claims, an underconfident one never lower. */
  lemma AdjustedCorrects(stated: real, c: CalibrationResult)
    requires Sensible(c) && 0.0 <= stated <= 1.0
    ensures c.error >= 0.0 ==> Adjusted(stated, Some(c.offset)) <= stated
    ensures c.error <= 0.0 ==> Adjusted(stated, Some(c.offset)) >= stated
  {
  }

  // ----- the table -----

  /** The calibration rows of one business, oldest first. */
  class CalibrationStore {
    var history: map<string, seq<CalibrationResult>>

    ghost predicate Valid()
      reads this
    {
      forall agent, i :: agent in history && 0 <= i < |history[agent]| ==> Sensible(history[agent][i])
    }

    constructor ()
      ensures Valid() && history == map[]
    {
      history := map[];
    }

    function Of(agent: string): seq<CalibrationResult>
      reads this
    {
      RowsFor(history, agent)
    }

    /** `ORDER BY calculated_at DESC LIMIT 2` */
    function PriorErrors(agent: string): (r: seq<real>)
      reads this
      ensures |r| <= 2
    {
      LastErrors(Of(agent))
    }

    /** One new row for each agent with at least three outcomes; none at all if some agent has a name that
        plain objects inherit. Confidences between zero and one keep every stored row sensible. */
    method Recalculate(rows: seq<Row>, inherited: set<string>) returns (results: Option<map<string, CalibrationResult>>)
      requires Weighted(rows)
      modifies this
      ensures old(Valid()) && StatedWithin(rows, 0.0, 1.0) ==> Valid()
      ensures results.None? <==> Agents(rows) * inherited != {}
      ensures results.None? ==> history == old(history)
      ensures results.Some? ==> Reported(results.value, Agents(rows), rows, old(history))
      ensures results.Some? ==> Appended(old(history), history, results.value)
    {
      var buckets := Accumulate(rows, inherited);
      if buckets.None? {
        return None;
      }
      var reported := RecalculateAll(buckets.value, rows, Valid() && StatedWithin(rows, 0.0, 1.0));
      results := Some(reported);
    }

    method RecalculateAll(buckets: map<string, Bucket>, ghost rows: seq<Row>, ghost good: bool)
      returns (results: map<string, CalibrationResult>)
      requires Weighted(rows) && Tallied(buckets, rows)
      requires good ==> Valid() && StatedWithin(rows, 0.0, 1.0)
      modifies this
      ensures good ==> Valid()
      ensures Reported(results, buckets.Keys, rows, old(history))
      ensures Appended(old(history), history, results)
    {
      var todo := buckets.Keys;
      ghost var done: set<string> := {};
      results := map[];
      while todo != {}
        invariant todo == buckets.Keys - done && done <= buckets.Keys
        invariant good ==> Valid()
        invariant Reported(results, done, rows, old(history))
        invariant Appended(old(history), history, results)
      {
        var agent :| agent in todo;
        assert agent !in done && buckets[agent] == BucketOf(RowsOf(rows, agent));
        results := RecalculateIfEnough(agent, buckets[agent], rows, results, old(history), done, good);
        todo, done := todo - {agent}, done + {agent};
      }
    }

    method RecalculateIfEnough(agent: string, b: Bucket, ghost rows: seq<Row>, results: map<string, CalibrationResult>,
                               ghost start: map<string, seq<CalibrationResult>>, ghost done: set<string>, ghost good: bool)
      returns (r: map<string, CalibrationResult>)
      requires Weighted(rows) && b == BucketOf(RowsOf(rows, agent)) && agent !in done
      requires good ==> Valid() && StatedWithin(rows, 0.0, 1.0)
      requires Reported(results, done, rows, start) && Appended(start, history, results)
      modifies this
      ensures good ==> Valid()
      ensures Reported(r, done + {agent}, rows, start) && Appended(start, history, r)
    {
      if b.n < 3 {
        OneMoreSkipped(start, results, done, rows, agent);
        return results;
      }
      ghost var before := history;
      r := RecalculateAgent(agent, b, rows, results);
      OneMoreReported(start, results, done, rows, agent, r[agent]);
      OneMoreAppended(start, before, results, agent, r[agent]);
    }

    method RecalculateAgent(agent: string, b: Bucket, ghost rows: seq<Row>, results: map<string, CalibrationResult>)
      returns (r: map<string, CalibrationResult>)
      requires Weighted(rows) && b == BucketOf(RowsOf(rows, agent)) && b.n >= 3
      modifies this
      ensures old(Valid()) && StatedWithin(rows, 0.0, 1.0) ==> Valid()
      ensures agent in r && r == results[agent := r[agent]]
      ensures IsCalibration(r[agent], RowsOf(rows, agent), LastErrors(old(Of(agent))))
      ensures history == old(history)[agent := old(Of(agent)) + [r[agent]]]
    {
      RowsOfAreWeighted(rows, agent);
      CalibratedIsDefined(RowsOf(rows, agent));
      if StatedWithin(rows, 0.0, 1.0) {
        RowsOfAreWithin(rows, agent, 0.0, 1.0);
        CalibratedIsSensible(RowsOf(rows, agent), PriorErrors(agent));
      }
      var c := Calibrated(b, PriorErrors(agent));
      history := history[agent := Of(agent) + [c]];
      r := results[agent := c];
    }

    /** The latest row's offset applied to a stated confidence; nothing stated, nothing returned. */
    method AdjustedConfidence(stated: Option<real>, agent: string) returns (r: Option<real>)
      ensures stated.None? <==> r.None?
      ensures stated.Some? && Of(agent) == [] ==> r == stated
      ensures stated.Some? && Of(agent) != [] ==> r == Some(Adjusted(stated.value, Some(Of(agent)[|Of(agent)| - 1].offset)))
    {
      if stated.None? {
        return None;
      }
      var rows := Of(agent);
      if rows == [] {
        return stated;
      }
      return Some(Adjusted(stated.value, Some(rows[|rows| - 1].offset)));
    }
  }

  function RowsFor(history: map<string, seq<CalibrationResult>>, agent: string): seq<CalibrationResult> {
    if agent in history then history[agent] else []
  }

  /** A result for exactly the given agents with three outcomes or more, computed with the errors of their
      last two rows. */
  ghost predicate Reported(results: map<string, CalibrationResult>, agents: set<string>, rows: seq<Row>,
                           history: map<string, seq<CalibrationResult>>) {
    && (forall agent :: agent in results <==> agent in agents && |RowsOf(rows, agent)| >= 3)
    && forall agent :: agent in results ==>
         IsCalibration(results[agent], RowsOf(rows, agent), LastErrors(RowsFor(history, agent)))
  }

  /** Each agent's rows, with the new one behind them if there is one. */
  ghost predicate Appended(before: map<string, seq<CalibrationResult>>, after: map<string, seq<CalibrationResult>>,
                           results: map<string, CalibrationResult>) {
    forall agent :: RowsFor(after, agent)
                 == if agent in results then RowsFor(before, agent) + [results[agent]] else RowsFor(before, agent)
  }

  lemma OneMoreAppended(start: map<string, seq<CalibrationResult>>, now: map<string, seq<CalibrationResult>>,
                        results: map<string, CalibrationResult>, agent: string, c: CalibrationResult)
    requires Appended(start, now, results) && agent !in results
    ensures Appended(start, now[agent := RowsFor(now, agent) + [c]], results[agent := c])
  {
  }

  lemma OneMoreReported(start: map<string, seq<CalibrationResult>>, results: map<string, CalibrationResult>,
                        done: set<string>, rows: seq<Row>, agent: string, c: CalibrationResult)
    requires Reported(results, done, rows, start) && |RowsOf(rows, agent)| >= 3
    requires IsCalibration(c, RowsOf(rows, agent), LastErrors(RowsFor(start, agent)))
    ensures Reported(results[agent := c], done + {agent}, rows, start)
  {
    var more := results[agent := c];
    forall a | a in more ensures IsCalibration(more[a], RowsOf(rows, a), LastErrors(RowsFor(start, a))) {
      if a != agent {
        assert a in results;
      }
    }
  }

  lemma OneMoreSkipped(start: map<string, seq<CalibrationResult>>, results: map<string, CalibrationResult>,
                       done: set<string>, rows: seq<Row>, agent: string)
    requires Reported(results, done, rows, start) && |RowsOf(rows, agent)| < 3
    ensures Reported(results, done + {agent}, rows, start)
  {
  }

  function LastErrors(rows: seq<CalibrationResult>): (r: seq<real>)
    ensures |r| <= 2
  {
    var n := |rows|;
    if n == 0 then [] else if n == 1 then [rows[0].error] else [rows[n - 1].error, rows[n - 2].error]
  }

  /** The errors of the last two rows, the newest first. */
  lemma LastErrorsAre(rows: seq<CalibrationResult>)
    ensures |LastErrors(rows)| == if |rows| < 2 then |rows| else 2
    ensures forall i :: 0 <= i < |LastErrors(rows)| ==> LastErrors(rows)[i] == rows[|rows| - 1 - i].error
  {
  }

  predicate IsCalibration(c: CalibrationResult, mine: seq<Row>, prior: seq<real>) {
    var b := BucketOf(mine);
    && b.weight > 0.0 && (forall k :: 0 <= k < |b.bins| ==> b.bins[k].weight >= 0.0)
    && c == Calibrated(b, prior)
  }
}
