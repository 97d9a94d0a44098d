/** The reward-progress columns of the dashboard: which reward a client is
    working towards, and how many visits remain to the next multiple of five. */
module Rewards {

  /** The five reward labels, in the order a client reaches them. */
  const Tiers: seq<string> := [
    "Postre gratis",
    "Bebida gratis",
    "Gel liso en manos",
    "Gel liso en pies",
    "10% descuento en uñas"
  ]

  /** getNextReward: a chain of thresholds at 5, 10, 15 and 20 visits. */
  function NextReward(visits: int): (r: string)
    ensures r in Tiers
  {
    if visits < 5 then "Postre gratis"
    else if visits < 10 then "Bebida gratis"
    else if visits < 15 then "Gel liso en manos"
    else if visits < 20 then "Gel liso en pies"
    else "10% descuento en uñas"
  }

  /** Reference definition of the band a visit count falls in: one band per
      five visits, counts below five in the first band, twenty and more in
      the last. */
  function Band(visits: int): (b: nat)
    ensures b < |Tiers|
  {
    if visits < 5 then 0 else if visits / 5 < 4 then visits / 5 else 4
  }

  /** Position of a reward label in the tier order. */
  function Rank(reward: string): (k: nat)
    requires reward in Tiers
    ensures k < |Tiers| && Tiers[k] == reward
  {
    if reward == Tiers[0] then 0
    else if reward == Tiers[1] then 1
    else if reward == Tiers[2] then 2
    else if reward == Tiers[3] then 3
    else 4
  }

  /** The threshold chain picks the label of the visit count's band. */
  lemma NextRewardIsBand(visits: int)
    ensures NextReward(visits) == Tiers[Band(visits)]
    ensures Rank(NextReward(visits)) == Band(visits)
  {
  }

  /** The labels are pairwise distinct. */
  lemma TiersDistinct()
    ensures forall i, j :: 0 <= i < j < |Tiers| ==> Tiers[i] != Tiers[j]
  {
    assert Tiers[0][0] == 'P' && Tiers[1][0] == 'B';
    assert Tiers[2][0] == 'G' && Tiers[3][0] == 'G' && Tiers[4][0] == '1';
    assert Tiers[2][12] == 'm' && Tiers[3][12] == 'p';
  }

  /** Two visit counts get the same label exactly when they fall in the
      same band. */
  lemma SameRewardIffSameBand(v: int, w: int)
    ensures NextReward(v) == NextReward(w) <==> Band(v) == Band(w)
  {
    NextRewardIsBand(v);
    NextRewardIsBand(w);
    TiersDistinct();
  }

  /** More visits never lead back to an earlier reward. */
  lemma NextRewardMonotone(v: int, w: int)
    requires v <= w
    ensures Band(v) <= Band(w)
    ensures Rank(NextReward(v)) <= Rank(NextReward(w))
  {
    NextRewardIsBand(v);
    NextRewardIsBand(w);
  }

  /** Every count of twenty or more gets the final label, and no smaller
      count does. */
  lemma FinalReward(v: int)
    ensures NextReward(v) == Tiers[|Tiers| - 1] <==> v >= 20
  {
    NextRewardIsBand(v);
    TiersDistinct();
  }

  /** Math.ceil(visits / 5) for a whole visit count: Dafny's division rounds
      down when the divisor is positive, and adding 4 first turns that into
      rounding up. */
  function CeilDiv5(visits: int): (q: int)
    ensures 5 * q - 5 < visits <= 5 * q
  {
    (visits + 4) / 5
  }

  /** getVisitsUntilNextReward: distance from the visit count up to the
      nearest multiple of five that is not below it. */
  function VisitsUntilNextReward(visits: int): (r: int)
    ensures 0 <= r <= 4
    ensures (visits + r) % 5 == 0
    ensures r == 0 <==> visits % 5 == 0
  {
    CeilDiv5(visits) * 5 - visits
  }

  /** visits + VisitsUntilNextReward(visits) is the least multiple of five
      at or above visits. */
  lemma NextMilestoneIsLeast(visits: int, m: int)
    requires visits <= m && m % 5 == 0
    ensures visits + VisitsUntilNextReward(visits) <= m
  {
  }

  /** The sample values 0 -> 0, 3 -> 2, 5 -> 0 and 6 -> 4. */
  lemma VisitsUntilNextRewardSamples()
    ensures VisitsUntilNextReward(0) == 0
    ensures VisitsUntilNextReward(3) == 2
    ensures VisitsUntilNextReward(5) == 0
    ensures VisitsUntilNextReward(6) == 4
  {
    assert VisitsUntilNextReward(0) == CeilDiv5(0) * 5 - 0 == 0;
    assert VisitsUntilNextReward(3) == CeilDiv5(3) * 5 - 3 == 2;
    assert VisitsUntilNextReward(5) == CeilDiv5(5) * 5 - 5 == 0;
    assert VisitsUntilNextReward(6) == CeilDiv5(6) * 5 - 6 == 4;
  }

  /** Below twenty visits the label names the reward of the count's band,
      which is earned on reaching 5 * (Band + 1). The "Faltan" column reaches
      that same milestone exactly when the count is not a multiple of five;
      on a multiple of five it shows 0 although the labelled reward is still
      five visits away. */
  lemma MilestoneOfLabel(visits: int)
    requires 0 <= visits < 20
    ensures visits + VisitsUntilNextReward(visits) == 5 * (Band(visits) + 1) <==> visits % 5 != 0
  {
    var q := CeilDiv5(visits);
    if visits % 5 == 0 {
      assert visits + VisitsUntilNextReward(visits) == visits;
      assert visits == 5 * Band(visits);
    } else {
      assert visits + VisitsUntilNextReward(visits) == 5 * q;
      assert Band(visits) == visits / 5;
      assert q == visits / 5 + 1;
    }
  }
}
