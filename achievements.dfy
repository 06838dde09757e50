/**
 * Achievement tiers derived from a player's win count (src/App.js,
 * getAchievement). The display labels are not modelled; each label is a tier.
 */
module Achievements {
  /** "Henüz ödül yok", "Bronz Oyuncu", "Gümüş Usta", "Altın Efsane". */
  datatype Tier = NoAward | Bronze | Silver | Gold

  function Rank(t: Tier): nat {
    match t
    case NoAward => 0
    case Bronze => 1
    case Silver => 2
    case Gold => 3
  }

  /** getAchievement: inclusive lower bounds 20, 10 and 5, tested from the highest. */
  function Achievement(wins: int): (t: Tier)
    ensures t == Gold <==> 20 <= wins
    ensures t == Silver <==> 10 <= wins < 20
    ensures t == Bronze <==> 5 <= wins < 10
    ensures t == NoAward <==> wins < 5
  {
    if wins >= 20 then Gold
    else if wins >= 10 then Silver
    else if wins >= 5 then Bronze
    else NoAward
  }

  /** More wins never give a lower tier. */
  lemma AchievementMonotone(fewer: int, more: int)
    requires fewer <= more
    ensures Rank(Achievement(fewer)) <= Rank(Achievement(more))
  {
  }

  /** One more win raises the tier by at most one step. */
  lemma AchievementStep(wins: int)
    ensures Rank(Achievement(wins)) <= Rank(Achievement(wins + 1)) <= Rank(Achievement(wins)) + 1
  {
  }
}
