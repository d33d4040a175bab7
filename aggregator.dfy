/**
 * The aggregation loop: for every champion, in order, and every role of
 * the fixed roles table, in order, fetch the role's statistics and fold
 * them into one record per champion.
 */
module Aggregator {
  import opened Wrappers
  import opened Catalog
  import opened Extractor

  /** The `roles` table in declaration order: short code (record keys), long code (URL path). */
  const Roles: seq<(string, string)> :=
    [("top", "top"), ("jgl", "jungle"), ("mid", "mid"), ("bot", "adc"), ("sup", "support")]

  /** The short codes of the roles table. */
  const RoleCodes: set<string> := {"top", "jgl", "mid", "bot", "sup"}

  /** One record of the snapshot. Percentages are in hundredths. */
  datatype ChampionRecord = ChampionRecord(
    name: string,
    img: string,
    tier: map<string, Option<string>>,
    winrate: map<string, Option<nat>>,
    pickrate: map<string, Option<nat>>,
    banrate: Option<nat>)

  /** The champion's square image for a patch. */
  function ImageUrl(patch: string, id: string): string {
    "https://ddragon.leagueoflegends.com/cdn/" + patch + "/img/champion/" + id + ".png"
  }

  /** The short codes of the roles table, in its order. */
  function Codes(): (codes: seq<string>)
    ensures |codes| == |Roles|
  {
    seq(|Roles|, k requires 0 <= k < |Roles| => Roles[k].0)
  }

  /** What the extractor returns for each role of a champion, in table order. */
  function RoleResults(slug: string, upstream: Upstream): (results: seq<RoleStats>)
    ensures |results| == |Roles|
  {
    seq(|Roles|, k requires 0 <= k < |Roles| => Extract(upstream(StatsUrl(slug, Roles[k].1))))
  }

  /** The per-champion accumulators of the loop: the three maps and the ban rate. */
  datatype Accumulators = Accumulators(
    tier: map<string, Option<string>>,
    winrate: map<string, Option<nat>>,
    pickrate: map<string, Option<nat>>,
    banrate: Option<nat>)

  /**
   * One pass of the inner loop: the role's entry of each map is written,
   * and its ban rate is taken only while the ban rate is still null.
   */
  function Absorb(acc: Accumulators, short: string, stats: RoleStats): Accumulators {
    Accumulators(
      acc.tier[short := stats.tier],
      acc.winrate[short := stats.winRate],
      acc.pickrate[short := stats.pickRate],
      if acc.banrate.None? && stats.banRate.Some? then stats.banRate else acc.banrate)
  }

  /** The accumulators after absorbing each code with its statistics, in order, from empty. */
  function Fold(codes: seq<string>, results: seq<RoleStats>): Accumulators
    requires |codes| == |results|
    decreases |codes|
  {
    if codes == [] then Accumulators(map[], map[], map[], None)
    else Absorb(Fold(codes[..|codes| - 1], results[..|results| - 1]), codes[|codes| - 1], results[|results| - 1])
  }

  /** Folding one more code absorbs it last. */
  lemma {:induction false} FoldStep(codes: seq<string>, results: seq<RoleStats>, k: nat)
    requires |codes| == |results| && k < |codes|
    ensures Fold(codes[..k + 1], results[..k + 1]) == Absorb(Fold(codes[..k], results[..k]), codes[k], results[k])
  {
    assert codes[..k + 1][..k] == codes[..k];
    assert results[..k + 1][..k] == results[..k];
  }

  /** The record pushed for one champion. */
  function RecordOf(champ: Champion, patch: string, upstream: Upstream): ChampionRecord {
    var acc := Fold(Codes(), RoleResults(champ.slug, upstream));
    ChampionRecord(champ.id, ImageUrl(patch, champ.id), acc.tier, acc.winrate, acc.pickrate, acc.banrate)
  }

  /** The records of a champion list, in its order. */
  function Snapshot(champions: seq<Champion>, patch: string, upstream: Upstream): seq<ChampionRecord>
    decreases |champions|
  {
    if champions == [] then []
    else Snapshot(champions[..|champions| - 1], patch, upstream) + [RecordOf(champions[|champions| - 1], patch, upstream)]
  }

  lemma {:induction false} SnapshotStep(champions: seq<Champion>, c: nat, patch: string, upstream: Upstream)
    requires c < |champions|
    ensures Snapshot(champions[..c + 1], patch, upstream)
         == Snapshot(champions[..c], patch, upstream) + [RecordOf(champions[c], patch, upstream)]
  {
    assert champions[..c + 1][..c] == champions[..c];
  }

  /** The main loop, from the champion list to the `result` array written out as the snapshot. */
  method Aggregate(champions: seq<Champion>, patch: string, upstream: Upstream) returns (result: seq<ChampionRecord>)
    ensures result == Snapshot(champions, patch, upstream)
  {
    result := [];
    var c := 0;
    while c < |champions|
      invariant 0 <= c <= |champions|
      invariant result == Snapshot(champions[..c], patch, upstream)
    {
      var champ := champions[c];
      var tier: map<string, Option<string>> := map[];
      var winrate: map<string, Option<nat>> := map[];
      var pickrate: map<string, Option<nat>> := map[];
      var banrate: Option<nat> := None;
      var k := 0;
      while k < |Roles|
        invariant 0 <= k <= |Roles|
        invariant Accumulators(tier, winrate, pickrate, banrate)
               == Fold(Codes()[..k], RoleResults(champ.slug, upstream)[..k])
      {
        var (short, long) := Roles[k];
        var stats := GetStats(champ.slug, long, upstream);
        FoldStep(Codes(), RoleResults(champ.slug, upstream), k);
        winrate := winrate[short := stats.winRate];
        pickrate := pickrate[short := stats.pickRate];
        tier := tier[short := stats.tier];
        if banrate == None && stats.banRate != None {
          banrate := stats.banRate;
        }
        k := k + 1;
      }
      assert Codes()[..k] == Codes();
      assert RoleResults(champ.slug, upstream)[..k] == RoleResults(champ.slug, upstream);
      result := result + [ChampionRecord(champ.id, ImageUrl(patch, champ.id), tier, winrate, pickrate, banrate)];
      SnapshotStep(champions, c, patch, upstream);
      c := c + 1;
    }
    assert champions[..|champions|] == champions;
  }

  // ---------------------------------------------------------------------
  // Properties of the snapshot
  // ---------------------------------------------------------------------

  /** One record per champion. */
  lemma {:induction false} SnapshotLength(champions: seq<Champion>, patch: string, upstream: Upstream)
    ensures |Snapshot(champions, patch, upstream)| == |champions|
    decreases |champions|
  {
    if champions != [] {
      SnapshotLength(champions[..|champions| - 1], patch, upstream);
    }
  }

  /** The i-th record is the i-th champion's: the records follow the champion list's order. */
  lemma {:induction false} SnapshotAt(champions: seq<Champion>, patch: string, upstream: Upstream, i: nat)
    requires i < |champions|
    ensures |Snapshot(champions, patch, upstream)| == |champions|
    ensures Snapshot(champions, patch, upstream)[i] == RecordOf(champions[i], patch, upstream)
    decreases |champions|
  {
    var front := champions[..|champions| - 1];
    SnapshotLength(front, patch, upstream);
    SnapshotLength(champions, patch, upstream);
    if i < |front| {
      SnapshotAt(front, patch, upstream, i);
      assert front[i] == champions[i];
    }
  }

  /** The i-th record is named by the i-th champion's id and shows that champion's image for the patch. */
  lemma {:induction false} SnapshotNames(champions: seq<Champion>, patch: string, upstream: Upstream, i: nat)
    requires i < |champions|
    ensures |Snapshot(champions, patch, upstream)| == |champions|
    ensures Snapshot(champions, patch, upstream)[i].name == champions[i].id
    ensures Snapshot(champions, patch, upstream)[i].img == ImageUrl(patch, champions[i].id)
  {
    SnapshotAt(champions, patch, upstream, i);
  }

  /** Codes that are pairwise distinct: no code's entry is overwritten by another's. */
  predicate Distinct(codes: seq<string>) {
    forall i, j :: 0 <= i < j < |codes| ==> codes[i] != codes[j]
  }

  /** After a fold, the three maps are keyed by exactly the codes absorbed. */
  lemma {:induction false} FoldKeys(codes: seq<string>, results: seq<RoleStats>)
    requires |codes| == |results|
    ensures Fold(codes, results).tier.Keys == set c | c in codes
    ensures Fold(codes, results).winrate.Keys == set c | c in codes
    ensures Fold(codes, results).pickrate.Keys == set c | c in codes
    decreases |codes|
  {
    if codes != [] {
      var front := codes[..|codes| - 1];
      FoldKeys(front, results[..|results| - 1]);
      assert codes == front + [codes[|codes| - 1]];
      assert (set c | c in codes) == (set c | c in front) + {codes[|codes| - 1]};
    }
  }

  /** After a fold over distinct codes, each code holds the statistics it was absorbed with. */
  lemma {:induction false} FoldValues(codes: seq<string>, results: seq<RoleStats>)
    requires |codes| == |results| && Distinct(codes)
    ensures forall j :: 0 <= j < |codes| ==>
      && codes[j] in Fold(codes, results).tier
      && codes[j] in Fold(codes, results).winrate
      && codes[j] in Fold(codes, results).pickrate
      && Fold(codes, results).tier[codes[j]] == results[j].tier
      && Fold(codes, results).winrate[codes[j]] == results[j].winRate
      && Fold(codes, results).pickrate[codes[j]] == results[j].pickRate
    decreases |codes|
  {
    if codes != [] {
      var n := |codes| - 1;
      var front := codes[..n];
      assert Distinct(front);
      FoldValues(front, results[..n]);
      assert forall j :: 0 <= j < n ==> front[j] == codes[j] && results[..n][j] == results[j];
    }
  }

  /**
   * The ban rate after a fold is the ban rate of the first statistics whose
   * ban rate is not null, and null when all of theirs are.
   */
  lemma {:induction false} FoldBanRate(codes: seq<string>, results: seq<RoleStats>)
    requires |codes| == |results|
    ensures Fold(codes, results).banrate.None? <==>
      forall j :: 0 <= j < |results| ==> results[j].banRate.None?
    ensures Fold(codes, results).banrate.Some? ==>
      exists j :: 0 <= j < |results| && Fold(codes, results).banrate == results[j].banRate
        && forall i :: 0 <= i < j ==> results[i].banRate.None?
    decreases |codes|
  {
    if codes != [] {
      var n := |codes| - 1;
      FoldBanRate(codes[..n], results[..n]);
      assert forall j :: 0 <= j < n ==> results[..n][j] == results[j];
    }
  }

  /** The codes of the roles table are distinct and are exactly the five short codes. */
  lemma {:induction false} CodesAreRoleCodes()
    ensures Distinct(Codes())
    ensures (set c | c in Codes()) == RoleCodes
  {
    assert Codes() == ["top", "jgl", "mid", "bot", "sup"];
  }

  /** Each record's three maps are keyed by exactly the five short codes. */
  lemma {:induction false} RecordKeys(champ: Champion, patch: string, upstream: Upstream)
    ensures RecordOf(champ, patch, upstream).tier.Keys == RoleCodes
    ensures RecordOf(champ, patch, upstream).winrate.Keys == RoleCodes
    ensures RecordOf(champ, patch, upstream).pickrate.Keys == RoleCodes
  {
    CodesAreRoleCodes();
    FoldKeys(Codes(), RoleResults(champ.slug, upstream));
  }

  /** Under the k-th role's short code, a record's three maps hold that role's statistics. */
  lemma {:induction false} RecordValues(champ: Champion, patch: string, upstream: Upstream, k: nat)
    requires k < |Roles|
    ensures Roles[k].0 in RecordOf(champ, patch, upstream).tier
    ensures Roles[k].0 in RecordOf(champ, patch, upstream).winrate
    ensures Roles[k].0 in RecordOf(champ, patch, upstream).pickrate
    ensures RecordOf(champ, patch, upstream).tier[Roles[k].0] == RoleResults(champ.slug, upstream)[k].tier
    ensures RecordOf(champ, patch, upstream).winrate[Roles[k].0] == RoleResults(champ.slug, upstream)[k].winRate
    ensures RecordOf(champ, patch, upstream).pickrate[Roles[k].0] == RoleResults(champ.slug, upstream)[k].pickRate
  {
    CodesAreRoleCodes();
    FoldValues(Codes(), RoleResults(champ.slug, upstream));
    assert Codes()[k] == Roles[k].0;
  }

  /**
   * A record's ban rate is that of the first role, in table order, whose
   * ban rate is not null, and null when no role has one.
   */
  lemma {:induction false} RecordBanRate(champ: Champion, patch: string, upstream: Upstream)
    ensures RecordOf(champ, patch, upstream).banrate.None? <==>
      forall k :: 0 <= k < |Roles| ==> RoleResults(champ.slug, upstream)[k].banRate.None?
    ensures RecordOf(champ, patch, upstream).banrate.Some? ==>
      exists k :: 0 <= k < |Roles| && RecordOf(champ, patch, upstream).banrate == RoleResults(champ.slug, upstream)[k].banRate
        && forall j :: 0 <= j < k ==> RoleResults(champ.slug, upstream)[j].banRate.None?
  {
    FoldBanRate(Codes(), RoleResults(champ.slug, upstream));
  }

  /** A role whose page could not be fetched is null in all three maps. */
  lemma {:induction false} FailedRoleIsNull(champ: Champion, patch: string, upstream: Upstream, k: nat)
    requires k < |Roles| && upstream(StatsUrl(champ.slug, Roles[k].1)).Failed?
    ensures Roles[k].0 in RecordOf(champ, patch, upstream).tier && RecordOf(champ, patch, upstream).tier[Roles[k].0] == None
    ensures Roles[k].0 in RecordOf(champ, patch, upstream).winrate && RecordOf(champ, patch, upstream).winrate[Roles[k].0] == None
    ensures Roles[k].0 in RecordOf(champ, patch, upstream).pickrate && RecordOf(champ, patch, upstream).pickrate[Roles[k].0] == None
  {
    RecordValues(champ, patch, upstream, k);
  }

  /** Every value of a record lies in its domain: null, a grade, or a percentage of at most 99.99. */
  lemma {:induction false} RecordInDomain(champ: Champion, patch: string, upstream: Upstream)
    ensures forall code :: code in RecordOf(champ, patch, upstream).tier && RecordOf(champ, patch, upstream).tier[code].Some? ==>
      Tokens.IsGrade(RecordOf(champ, patch, upstream).tier[code].value)
    ensures forall code :: code in RecordOf(champ, patch, upstream).winrate && RecordOf(champ, patch, upstream).winrate[code].Some? ==>
      RecordOf(champ, patch, upstream).winrate[code].value <= 9999
    ensures forall code :: code in RecordOf(champ, patch, upstream).pickrate && RecordOf(champ, patch, upstream).pickrate[code].Some? ==>
      RecordOf(champ, patch, upstream).pickrate[code].value <= 9999
    ensures RecordOf(champ, patch, upstream).banrate.Some? ==> RecordOf(champ, patch, upstream).banrate.value <= 9999
  {
    var results := RoleResults(champ.slug, upstream);
    forall k | 0 <= k < |results|
      ensures InDomain(results[k])
    {
      ExtractInDomain(upstream(StatsUrl(champ.slug, Roles[k].1)));
    }
    FoldInDomain(Codes(), results);
  }

  /** A fold of statistics that all lie in the domain keeps every value in the domain. */
  lemma {:induction false} FoldInDomain(codes: seq<string>, results: seq<RoleStats>)
    requires |codes| == |results| && forall k :: 0 <= k < |results| ==> InDomain(results[k])
    ensures InDomainAcc(Fold(codes, results))
    decreases |codes|
  {
    if codes != [] {
      var n := |codes| - 1;
      assert forall k :: 0 <= k < n ==> results[..n][k] == results[k];
      FoldInDomain(codes[..n], results[..n]);
    }
  }

  /** Every value held by the accumulators lies in its domain. */
  predicate InDomainAcc(acc: Accumulators) {
    && (forall code :: code in acc.tier && acc.tier[code].Some? ==> Tokens.IsGrade(acc.tier[code].value))
    && (forall code :: code in acc.winrate && acc.winrate[code].Some? ==> acc.winrate[code].value <= 9999)
    && (forall code :: code in acc.pickrate && acc.pickrate[code].Some? ==> acc.pickrate[code].value <= 9999)
    && (acc.banrate.Some? ==> acc.banrate.value <= 9999)
  }

  /** Different champions of one patch get different image URLs. */
  lemma {:induction false} ImageUrlInjective(patch: string, a: string, b: string)
    requires ImageUrl(patch, a) == ImageUrl(patch, b)
    ensures a == b
  {
    var prefix := "https://ddragon.leagueoflegends.com/cdn/" + patch + "/img/champion/";
    assert ImageUrl(patch, a) == prefix + a + ".png";
    assert ImageUrl(patch, b) == prefix + b + ".png";
    assert a == ImageUrl(patch, a)[|prefix|..|prefix| + |a|];
    assert b == ImageUrl(patch, b)[|prefix|..|prefix| + |b|];
  }
}
