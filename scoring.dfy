/** Placement derivation: the label each rank position receives, the loop that fills the pending
    placement map from a ranking, and what that map means for the producer's BTM2 gate.
    The score itself (mean of the episode's stats plus random noise) is not modelled: the ranking,
    best first, comes in as a sequence of contestant ids. */
module Scoring {
  import opened SeasonTypes
  import opened Roster

  /** The label of rank `idx` among `count` active contestants. Rank 0 wins; the last two ranks are BTM2
      whatever else applies; a HIGH band of one or two ranks below the winner depends on the count; with
      more than five contestants the rank just above the bottom two is LOW; everything else is SAFE. */
  function Label(idx: nat, count: nat): (p: Placement)
    ensures p.IsPendingChoice()
    ensures p == BTM2 <==> idx + 2 >= count
    ensures p == WIN <==> idx == 0 && count >= 3
    ensures p == HIGH <==> (count > 6 && 1 <= idx <= 2) || (4 <= count <= 6 && idx == 1)
    ensures p == LOW <==> count > 5 && idx + 3 == count
  {
    var p :=
      if idx == 0 then WIN
      else if count > 6 && idx <= 2 then HIGH
      else if count <= 6 && count > 4 && idx == 1 then HIGH
      else if count == 4 && idx == 1 then HIGH
      else SAFE;
    if idx >= count - 2 then BTM2
    else if count > 5 && idx == count - 3 then LOW
    else p
  }

  /** The labels in rank order, as the loop hands them out. */
  function LabelSequence(count: nat): seq<Placement> {
    seq(count, i requires 0 <= i < count => Label(i, count))
  }

  /** With three or more contestants there is one WIN and there are two BTM2; with exactly two both are
      BTM2 and nobody wins. */
  lemma Tally(count: nat)
    ensures count >= 3 ==> multiset(LabelSequence(count))[WIN] == 1 && multiset(LabelSequence(count))[BTM2] == 2
    ensures count == 2 ==> multiset(LabelSequence(count))[WIN] == 0 && multiset(LabelSequence(count))[BTM2] == 2
  {
    var s := LabelSequence(count);
    if count >= 3 {
      var middle := s[1..count - 2];
      assert s == [WIN] + middle + [BTM2, BTM2];
      forall k | 0 <= k < |middle| ensures middle[k] != WIN && middle[k] != BTM2 {
        assert middle[k] == s[k + 1];
        assert s[k + 1] == Label(k + 1, count);
      }
      assert WIN !in middle && BTM2 !in middle;
      assert multiset(s) == multiset([WIN]) + multiset(middle) + multiset([BTM2, BTM2]);
    } else if count == 2 {
      assert s == [BTM2, BTM2];
    }
  }

  /** A full cast of fourteen: one WIN, two HIGH, eight SAFE, one LOW, two BTM2, in that rank order. */
  lemma FourteenQueens()
    ensures LabelSequence(14) == [WIN, HIGH, HIGH, SAFE, SAFE, SAFE, SAFE, SAFE, SAFE, SAFE, SAFE, LOW, BTM2, BTM2]
  {
    var s := LabelSequence(14);
    var expected := [WIN, HIGH, HIGH, SAFE, SAFE, SAFE, SAFE, SAFE, SAFE, SAFE, SAFE, LOW, BTM2, BTM2];
    forall i | 0 <= i < 14 ensures s[i] == expected[i] {
      assert s[i] == Label(i, 14);
    }
  }

  /** `ranking` lists the id of every active contestant exactly once. */
  predicate IsRanking(ranking: seq<string>, active: seq<Queen>) {
    |ranking| == |active| && Distinct(ranking) && multiset(ranking) == multiset(Ids(active))
  }

  /** Every ranked id belongs to an active contestant. */
  lemma RankedIsActive(ranking: seq<string>, active: seq<Queen>, k: nat)
    requires IsRanking(ranking, active) && k < |ranking|
    ensures exists j :: 0 <= j < |active| && active[j].id == ranking[k]
  {
    assert ranking[k] in multiset(ranking);
    assert ranking[k] in Ids(active);
    var j :| 0 <= j < |Ids(active)| && Ids(active)[j] == ranking[k];
    assert active[j].id == ranking[k];
  }

  /** Every active contestant is ranked. */
  lemma ActiveIsRanked(ranking: seq<string>, active: seq<Queen>, j: nat)
    requires IsRanking(ranking, active) && j < |active|
    ensures active[j].id in ranking
  {
    assert Ids(active)[j] == active[j].id;
    assert active[j].id in multiset(Ids(active));
  }

  /** The placement map the label loop builds: each ranked id maps to the label of its rank, a later
      rank overwriting an earlier one for a repeated id. */
  function RankPlacements(ranking: seq<string>, count: nat): map<string, Placement>
    decreases |ranking|
  {
    if ranking == [] then map[]
    else RankPlacements(ranking[..|ranking| - 1], count)[ranking[|ranking| - 1] := Label(|ranking| - 1, count)]
  }

  /** For a ranking without repeated ids, the map holds exactly the ranked ids, each with the label of its
      own rank. */
  lemma {:induction false} RankPlacementsSpec(ranking: seq<string>, count: nat)
    requires Distinct(ranking)
    ensures forall id :: id in RankPlacements(ranking, count) <==> id in ranking
    ensures forall i :: 0 <= i < |ranking| ==> RankPlacements(ranking, count)[ranking[i]] == Label(i, count)
  {
    if ranking != [] {
      var n := |ranking|;
      var init := ranking[..n - 1];
      assert Distinct(init);
      RankPlacementsSpec(init, count);
      assert ranking == init + [ranking[n - 1]];
      forall i | 0 <= i < n - 1 ensures ranking[i] != ranking[n - 1] && init[i] == ranking[i] {
      }
    }
  }

  /** The label loop: walks the ranking and records each id's label in a fresh map. */
  method DerivePlacements(ranking: seq<string>, count: nat) returns (placements: map<string, Placement>)
    ensures placements == RankPlacements(ranking, count)
  {
    placements := map[];
    var idx := 0;
    while idx < |ranking|
      invariant 0 <= idx <= |ranking|
      invariant placements == RankPlacements(ranking[..idx], count)
    {
      assert ranking[..idx + 1][..idx] == ranking[..idx];
      placements := placements[ranking[idx] := Label(idx, count)];
      idx := idx + 1;
    }
    assert ranking[..idx] == ranking;
  }

  /** The set of ids of a list of contestants. */
  function IdSet(s: seq<Queen>): set<string> {
    if s == [] then {} else {s[0].id} + IdSet(s[1..])
  }

  /** An id is in the set exactly when some contestant of the list carries it. */
  lemma {:induction false} IdSetMembers(s: seq<Queen>)
    ensures forall x :: x in IdSet(s) <==> exists k :: 0 <= k < |s| && s[k].id == x
  {
    if s != [] {
      IdSetMembers(s[1..]);
      forall x | x in IdSet(s[1..]) ensures exists k :: 0 <= k < |s| && s[k].id == x {
        var k :| 0 <= k < |s[1..]| && s[1..][k].id == x;
        assert s[k + 1].id == x;
      }
      forall x | (exists k :: 0 <= k < |s| && s[k].id == x) ensures x in IdSet(s) {
        var k :| 0 <= k < |s| && s[k].id == x;
        if k > 0 {
          assert s[1..][k - 1].id == x;
        }
      }
    }
  }

  /** With distinct ids there are as many ids as contestants. */
  lemma {:induction false} IdSetSize(s: seq<Queen>)
    requires DistinctIds(s)
    ensures |IdSet(s)| == |s|
  {
    if s != [] {
      var rest := s[1..];
      assert DistinctIds(rest);
      IdSetSize(rest);
      IdSetMembers(rest);
      assert s[0].id !in IdSet(rest) by {
        forall k | 0 <= k < |rest| ensures rest[k].id != s[0].id {
          assert s[k + 1] == rest[k];
        }
      }
    }
  }

  /** The ids ranked in the last two positions (all of them when fewer than two are ranked). */
  function LastTwo(ranking: seq<string>): set<string> {
    var n := |ranking|;
    if n >= 2 then {ranking[n - 2], ranking[n - 1]} else if n == 1 then {ranking[0]} else {}
  }

  /** The rank positions whose ids are the last two ranked are the last two positions. */
  lemma LastTwoPositions(ranking: seq<string>, k: nat)
    requires Distinct(ranking) && k < |ranking|
    ensures ranking[k] in LastTwo(ranking) <==> k + 2 >= |ranking|
  {
  }

  /** The last two ranked ids are two different ids once at least two are ranked. */
  lemma LastTwoSize(ranking: seq<string>)
    requires Distinct(ranking)
    ensures |LastTwo(ranking)| == if |ranking| >= 2 then 2 else |ranking|
  {
  }

  /** An active contestant is BTM2 in a map derived from the ranking exactly when it is ranked last or
      second to last. */
  lemma BottomIffLastTwo(active: seq<Queen>, ranking: seq<string>, m: map<string, Placement>, q: Queen)
    requires IsRanking(ranking, active)
    requires forall i :: 0 <= i < |ranking| ==> ranking[i] in m && m[ranking[i]] == Label(i, |ranking|)
    requires q in active
    ensures Pending(m, q.id) == BTM2 <==> q.id in LastTwo(ranking)
  {
    var j :| 0 <= j < |active| && active[j] == q;
    ActiveIsRanked(ranking, active, j);
    var k :| 0 <= k < |ranking| && ranking[k] == q.id;
    assert Pending(m, q.id) == Label(k, |ranking|);
    LastTwoPositions(ranking, k);
  }

  /** The id of a contestant of the list is in the list's id set. */
  lemma IdSetHas(s: seq<Queen>, q: Queen)
    requires q in s
    ensures q.id in IdSet(s)
  {
    IdSetMembers(s);
    var k :| 0 <= k < |s| && s[k] == q;
    assert s[k].id == q.id;
  }

  /** An id of the list's id set is carried by some contestant of the list. */
  lemma IdSetWitness(s: seq<Queen>, x: string) returns (q: Queen)
    requires x in IdSet(s)
    ensures q in s && q.id == x
  {
    IdSetMembers(s);
    var k :| 0 <= k < |s| && s[k].id == x;
    q := s[k];
  }

  /** Every id of the bottom two is ranked last or second to last. */
  lemma BottomIdsRankedLast(active: seq<Queen>, ranking: seq<string>, m: map<string, Placement>)
    requires IsRanking(ranking, active)
    requires forall i :: 0 <= i < |ranking| ==> ranking[i] in m && m[ranking[i]] == Label(i, |ranking|)
    ensures IdSet(BottomTwo(active, m)) <= LastTwo(ranking)
  {
    var b := BottomTwo(active, m);
    forall x | x in IdSet(b) ensures x in LastTwo(ranking) {
      var q := IdSetWitness(b, x);
      BottomTwoSpec(active, m);
      BottomIffLastTwo(active, ranking, m, q);
    }
  }

  /** The ids ranked last and second to last are ids of the bottom two. */
  lemma LastRankedInBottom(active: seq<Queen>, ranking: seq<string>, m: map<string, Placement>)
    requires IsRanking(ranking, active)
    requires forall i :: 0 <= i < |ranking| ==> ranking[i] in m && m[ranking[i]] == Label(i, |ranking|)
    ensures LastTwo(ranking) <= IdSet(BottomTwo(active, m))
  {
    var b := BottomTwo(active, m);
    forall x | x in LastTwo(ranking) ensures x in IdSet(b) {
      var k :| 0 <= k < |ranking| && ranking[k] == x;
      RankedIsActive(ranking, active, k);
      var j :| 0 <= j < |active| && active[j].id == x;
      LastTwoPositions(ranking, k);
      assert Label(k, |ranking|) == BTM2;
      assert Pending(m, active[j].id) == BTM2;
      BottomTwoHas(active, m, j);
      IdSetHas(b, active[j]);
    }
  }

  /** The ids of the bottom two are exactly the ids ranked last and second to last. */
  lemma BottomIdsAreLastTwo(active: seq<Queen>, ranking: seq<string>, m: map<string, Placement>)
    requires IsRanking(ranking, active)
    requires forall i :: 0 <= i < |ranking| ==> ranking[i] in m && m[ranking[i]] == Label(i, |ranking|)
    ensures IdSet(BottomTwo(active, m)) == LastTwo(ranking)
  {
    BottomIdsRankedLast(active, ranking, m);
    LastRankedInBottom(active, ranking, m);
  }

  /** Once two or more are ranked, the bottom two are the active contestants ranked last and second to last. */
  lemma BottomMembers(active: seq<Queen>, ranking: seq<string>, m: map<string, Placement>)
    requires IsRanking(ranking, active) && |ranking| >= 2
    requires forall i :: 0 <= i < |ranking| ==> ranking[i] in m && m[ranking[i]] == Label(i, |ranking|)
    ensures forall q :: q in BottomTwo(active, m) <==>
      q in active && (q.id == ranking[|ranking| - 2] || q.id == ranking[|ranking| - 1])
  {
    var n := |ranking|;
    BottomTwoSpec(active, m);
    forall q | q in active ensures Pending(m, q.id) == BTM2 <==> (q.id == ranking[n - 2] || q.id == ranking[n - 1]) {
      BottomIffLastTwo(active, ranking, m, q);
    }
  }

  /** After placements are derived from a ranking of the active contestants, the bottom two are exactly
      the last two ranked, so the producer's gate sees two BTM2 contestants whenever two or more are
      active (and every one of them when fewer are). */
  lemma GateAfterRanking(active: seq<Queen>, ranking: seq<string>, m: map<string, Placement>)
    requires DistinctIds(active) && IsRanking(ranking, active)
    requires forall i :: 0 <= i < |ranking| ==> ranking[i] in m && m[ranking[i]] == Label(i, |ranking|)
    ensures |BottomTwo(active, m)| == if |active| >= 2 then 2 else |active|
    ensures |active| >= 2 ==> forall q :: q in BottomTwo(active, m) <==>
      q in active && (q.id == ranking[|active| - 2] || q.id == ranking[|active| - 1])
  {
    var n := |active|;
    var b := BottomTwo(active, m);
    BottomIdsAreLastTwo(active, ranking, m);
    BottomTwoSpec(active, m);
    IdSetSize(b);
    LastTwoSize(ranking);
    if n >= 2 {
      BottomMembers(active, ranking, m);
    }
  }
}
