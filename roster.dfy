/** The roster: which contestants are active, who sits in the bottom two, and the three resolvers that
    append one track-record entry per active contestant (lipsync decision, non-elimination, crowning). */
module Roster {
  import opened SeasonTypes

  /** A contestant's pending placement; a contestant missing from the map counts as SAFE. */
  function Pending(m: map<string, Placement>, id: string): Placement {
    if id in m then m[id] else SAFE
  }

  /** The ids of a list of contestants, in order; they repeat no id exactly when the contestants' ids
      are distinct. */
  function Ids(c: seq<Queen>): (r: seq<string>)
    ensures Distinct(r) <==> DistinctIds(c)
  {
    var r := seq(|c|, i requires 0 <= i < |c| => c[i].id);
    assert forall i :: 0 <= i < |c| ==> r[i] == c[i].id;
    r
  }

  /** Some active contestant carries the id `x`. */
  predicate IsActiveId(c: seq<Queen>, x: string) {
    exists i :: 0 <= i < |c| && c[i].id == x && c[i].status == Active
  }

  /** The number of contestants with status `s`. */
  function CountStatus(c: seq<Queen>, s: Status): nat {
    if c == [] then 0 else (if c[0].status == s then 1 else 0) + CountStatus(c[1..], s)
  }

  /** The number of active contestants whose id is `x`. */
  function CountActiveId(c: seq<Queen>, x: string): nat {
    if c == [] then 0 else (if c[0].status == Active && c[0].id == x then 1 else 0) + CountActiveId(c[1..], x)
  }

  /** The active contestants, in roster order. */
  function ActiveQueens(c: seq<Queen>): seq<Queen> {
    if c == [] then [] else (if c[0].status == Active then [c[0]] else []) + ActiveQueens(c[1..])
  }

  /** The active contestants are the contestants whose status is active, as many as the count says, with
      distinct ids when the roster has them. */
  lemma {:induction false} ActiveQueensSpec(c: seq<Queen>)
    ensures forall q :: q in ActiveQueens(c) <==> q in c && q.status == Active
    ensures |ActiveQueens(c)| == CountStatus(c, Active)
    ensures DistinctIds(c) ==> DistinctIds(ActiveQueens(c))
  {
    if c != [] {
      var rest := ActiveQueens(c[1..]);
      ActiveQueensSpec(c[1..]);
      assert c == [c[0]] + c[1..];
      if DistinctIds(c) {
        forall q | q in rest ensures q.id != c[0].id {
          var k :| 0 <= k < |c[1..]| && c[1..][k] == q;
          assert c[k + 1] == q;
        }
        assert DistinctIds(c[1..]);
      }
    }
  }

  /** The active contestants whose pending placement is BTM2, in roster order. */
  function BottomTwo(active: seq<Queen>, m: map<string, Placement>): seq<Queen> {
    if active == [] then []
    else (if Pending(m, active[0].id) == BTM2 then [active[0]] else []) + BottomTwo(active[1..], m)
  }

  /** The bottom two are the contestants whose pending placement is BTM2, with distinct ids when the
      contestants have them. */
  lemma {:induction false} BottomTwoSpec(active: seq<Queen>, m: map<string, Placement>)
    ensures forall q :: q in BottomTwo(active, m) <==> q in active && Pending(m, q.id) == BTM2
    ensures DistinctIds(active) ==> DistinctIds(BottomTwo(active, m))
  {
    if active != [] {
      var rest := BottomTwo(active[1..], m);
      BottomTwoSpec(active[1..], m);
      assert active == [active[0]] + active[1..];
      if DistinctIds(active) {
        forall q | q in rest ensures q.id != active[0].id {
          var k :| 0 <= k < |active[1..]| && active[1..][k] == q;
          assert active[k + 1] == q;
        }
        assert DistinctIds(active[1..]);
      }
    }
  }

  /** An active contestant whose pending placement is BTM2 is one of the bottom two. */
  lemma BottomTwoHas(active: seq<Queen>, m: map<string, Placement>, j: nat)
    requires j < |active| && Pending(m, active[j].id) == BTM2
    ensures active[j] in BottomTwo(active, m)
  {
    BottomTwoSpec(active, m);
    assert active[j] in active;
  }

  /** Every contestant in the bottom two of a roster's active contestants is an active contestant of the
      roster, and the bottom two have distinct ids when the roster has. */
  lemma BottomTwoActive(c: seq<Queen>, m: map<string, Placement>)
    requires DistinctIds(c)
    ensures var b := BottomTwo(ActiveQueens(c), m);
      DistinctIds(b) && forall k :: 0 <= k < |b| ==> IsActiveId(c, b[k].id)
  {
    var b := BottomTwo(ActiveQueens(c), m);
    ActiveQueensSpec(c);
    BottomTwoSpec(ActiveQueens(c), m);
    forall k | 0 <= k < |b| ensures IsActiveId(c, b[k].id) {
      assert b[k] in b;
      var i :| 0 <= i < |c| && c[i] == b[k];
    }
  }

  /** `r` is `q` one resolution later: untouched when `q` was not active, otherwise the same contestant
      with exactly one entry appended to the track record. */
  predicate OneStep(q: Queen, r: Queen) {
    if q.status != Active then r == q
    else
      r.id == q.id && r.name == q.name && r.stats == q.stats
      && |r.trackRecord| == |q.trackRecord| + 1 && r.trackRecord[..|q.trackRecord|] == q.trackRecord
  }

  /** Every contestant of `after` is its counterpart in `before` one resolution later. */
  predicate RosterStep(before: seq<Queen>, after: seq<Queen>) {
    |after| == |before| && forall i :: 0 <= i < |before| ==> OneStep(before[i], after[i])
  }

  /** The last entry of a non-empty track record. */
  function LastEntry(q: Queen): Placement
    requires |q.trackRecord| > 0
  {
    q.trackRecord[|q.trackRecord| - 1]
  }

  /** The contestant that a lipsync decision eliminates: active, named by the decision, and not rescued
      by a double shantay. */
  predicate Eliminates(q: Queen, m: map<string, Placement>, eliminatedId: Option<string>, doubleShantay: bool) {
    q.status == Active && !(doubleShantay && Pending(m, q.id) == BTM2) && eliminatedId == Some(q.id)
  }

  /** One contestant after a lipsync decision. */
  function AfterLipsync(q: Queen, m: map<string, Placement>, eliminatedId: Option<string>, doubleShantay: bool,
                        episodeNumber: Option<int>): Queen
  {
    if q.status != Active then q
    else if doubleShantay && Pending(m, q.id) == BTM2 then q.(trackRecord := q.trackRecord + [DOUBLE_SHANTAY])
    else if eliminatedId == Some(q.id) then
      q.(status := Eliminated, trackRecord := q.trackRecord + [ELIM], eliminatedEpisode := episodeNumber)
    else q.(trackRecord := q.trackRecord + [Pending(m, q.id)])
  }

  /** The roster after a lipsync decision, contestant by contestant. */
  function LipsyncRoster(c: seq<Queen>, m: map<string, Placement>, eliminatedId: Option<string>, doubleShantay: bool,
                         episodeNumber: Option<int>): seq<Queen>
  {
    seq(|c|, i requires 0 <= i < |c| => AfterLipsync(c[i], m, eliminatedId, doubleShantay, episodeNumber))
  }

  /** A lipsync decision appends one entry per active contestant; the only status change is the
      eliminated contestant's, from active to eliminated, with ELIM last and the episode recorded. */
  lemma LipsyncRosterSpec(c: seq<Queen>, m: map<string, Placement>, eliminatedId: Option<string>, doubleShantay: bool,
                          episodeNumber: Option<int>)
    ensures var r := LipsyncRoster(c, m, eliminatedId, doubleShantay, episodeNumber);
      && RosterStep(c, r)
      && forall i :: 0 <= i < |c| ==>
        (r[i].status != c[i].status <==> Eliminates(c[i], m, eliminatedId, doubleShantay))
        && (Eliminates(c[i], m, eliminatedId, doubleShantay) ==>
              r[i].status == Eliminated && LastEntry(r[i]) == ELIM && r[i].eliminatedEpisode == episodeNumber)
  {
  }

  /** The contestant (as it was before the decision) that a lipsync decision eliminates, if any; when
      several would match, the last one in roster order. */
  function EliminatedBy(c: seq<Queen>, m: map<string, Placement>, eliminatedId: Option<string>, doubleShantay: bool)
    : Option<Queen>
  {
    if c == [] then None
    else if Eliminates(c[|c| - 1], m, eliminatedId, doubleShantay) then Some(c[|c| - 1])
    else EliminatedBy(c[..|c| - 1], m, eliminatedId, doubleShantay)
  }

  /** The contestant reported eliminated is one of the roster that the decision eliminates, and none is
      reported exactly when the decision eliminates nobody. */
  lemma {:induction false} EliminatedBySpec(c: seq<Queen>, m: map<string, Placement>, eliminatedId: Option<string>,
                                           doubleShantay: bool)
    ensures var r := EliminatedBy(c, m, eliminatedId, doubleShantay);
      && (r.Some? ==> r.value in c && Eliminates(r.value, m, eliminatedId, doubleShantay))
      && (r.None? <==> forall q :: q in c ==> !Eliminates(q, m, eliminatedId, doubleShantay))
  {
    if c != [] && !Eliminates(c[|c| - 1], m, eliminatedId, doubleShantay) {
      EliminatedBySpec(c[..|c| - 1], m, eliminatedId, doubleShantay);
      assert c == c[..|c| - 1] + [c[|c| - 1]];
    }
  }

  /** One contestant after a non-elimination. */
  function AfterNonElimination(q: Queen, m: map<string, Placement>): Queen {
    if q.status == Active then q.(trackRecord := q.trackRecord + [Pending(m, q.id)]) else q
  }

  /** The roster after a non-elimination, contestant by contestant. */
  function NonEliminationRoster(c: seq<Queen>, m: map<string, Placement>): seq<Queen> {
    seq(|c|, i requires 0 <= i < |c| => AfterNonElimination(c[i], m))
  }

  /** A non-elimination keeps every status and has each active contestant record its pending placement. */
  lemma NonEliminationRosterSpec(c: seq<Queen>, m: map<string, Placement>)
    ensures var r := NonEliminationRoster(c, m);
      && RosterStep(c, r)
      && (forall i :: 0 <= i < |c| ==> r[i].status == c[i].status)
      && (forall i :: 0 <= i < |c| && c[i].status == Active ==> LastEntry(r[i]) == Pending(m, c[i].id))
  {
  }

  /** One contestant after the crowning. */
  function AfterCrowning(q: Queen, winnerId: string): Queen {
    if q.status != Active then q
    else if q.id == winnerId then q.(status := Winner, trackRecord := q.trackRecord + [WINNER])
    else q.(status := RunnerUp, trackRecord := q.trackRecord + [RUNNER_UP])
  }

  /** The roster after the crowning, contestant by contestant. */
  function CrownRoster(c: seq<Queen>, winnerId: string): seq<Queen> {
    seq(|c|, i requires 0 <= i < |c| => AfterCrowning(c[i], winnerId))
  }

  /** The crowning leaves no active contestant: the one named becomes the winner and every other active
      contestant a runner-up; the others are untouched. */
  lemma CrownRosterSpec(c: seq<Queen>, winnerId: string)
    ensures var r := CrownRoster(c, winnerId);
      && RosterStep(c, r)
      && (forall i :: 0 <= i < |c| && c[i].status != Active ==> r[i] == c[i])
      && (forall i :: 0 <= i < |c| && c[i].status == Active ==>
            if c[i].id == winnerId then r[i].status == Winner && LastEntry(r[i]) == WINNER
            else r[i].status == RunnerUp && LastEntry(r[i]) == RUNNER_UP)
  {
  }

  // ---- counting ----

  /** No active contestant has the id `x`, so none is counted. */
  lemma {:induction false} CountActiveIdZero(c: seq<Queen>, x: string)
    requires !IsActiveId(c, x)
    ensures CountActiveId(c, x) == 0
  {
    if c != [] {
      forall k | 0 <= k < |c[1..]| ensures c[1..][k] == c[k + 1] {}
      CountActiveIdZero(c[1..], x);
    }
  }

  /** With distinct ids, an id held by an active contestant is held by exactly one. */
  lemma {:induction false} ActiveIdOnce(c: seq<Queen>, x: string)
    requires DistinctIds(c) && IsActiveId(c, x)
    ensures CountActiveId(c, x) == 1
  {
    var i :| 0 <= i < |c| && c[i].id == x && c[i].status == Active;
    if i == 0 {
      forall k | 0 <= k < |c[1..]| ensures c[1..][k].id != x {
        assert c[1..][k] == c[k + 1];
      }
      CountActiveIdZero(c[1..], x);
    } else {
      assert c[1..][i - 1] == c[i];
      assert DistinctIds(c[1..]);
      ActiveIdOnce(c[1..], x);
    }
  }

  /** Status counts after a single-elimination decision (no double shantay): each active contestant
      named `x` leaves the active count and joins the eliminated count; winners and runners-up stay. */
  lemma {:induction false} LipsyncCounts(c: seq<Queen>, m: map<string, Placement>, x: string, episodeNumber: Option<int>)
    ensures var r := LipsyncRoster(c, m, Some(x), false, episodeNumber);
      && CountStatus(r, Active) + CountActiveId(c, x) == CountStatus(c, Active)
      && CountStatus(r, Eliminated) == CountStatus(c, Eliminated) + CountActiveId(c, x)
      && CountStatus(r, Winner) == CountStatus(c, Winner)
      && CountStatus(r, RunnerUp) == CountStatus(c, RunnerUp)
  {
    if c != [] {
      var r := LipsyncRoster(c, m, Some(x), false, episodeNumber);
      assert r[1..] == LipsyncRoster(c[1..], m, Some(x), false, episodeNumber);
      LipsyncCounts(c[1..], m, x, episodeNumber);
    }
  }

  /** A double shantay with no contestant named changes no status, so no status count moves. */
  lemma {:induction false} DoubleShantayCounts(c: seq<Queen>, m: map<string, Placement>, episodeNumber: Option<int>, s: Status)
    ensures CountStatus(LipsyncRoster(c, m, None, true, episodeNumber), s) == CountStatus(c, s)
  {
    if c != [] {
      var r := LipsyncRoster(c, m, None, true, episodeNumber);
      assert r[1..] == LipsyncRoster(c[1..], m, None, true, episodeNumber);
      DoubleShantayCounts(c[1..], m, episodeNumber, s);
    }
  }

  /** Status counts after the crowning: no active contestant remains, each active contestant named
      `w` is a winner and the other active contestants are runners-up. */
  lemma {:induction false} CrownCounts(c: seq<Queen>, w: string)
    ensures var r := CrownRoster(c, w);
      && CountStatus(r, Active) == 0
      && CountStatus(r, Winner) == CountStatus(c, Winner) + CountActiveId(c, w)
      && CountStatus(r, RunnerUp) + CountActiveId(c, w) == CountStatus(c, RunnerUp) + CountStatus(c, Active)
      && CountStatus(r, Eliminated) == CountStatus(c, Eliminated)
  {
    if c != [] {
      var r := CrownRoster(c, w);
      assert r[1..] == CrownRoster(c[1..], w);
      CrownCounts(c[1..], w);
    }
  }

  // ---- the resolution properties ----

  /** A double shantay (no contestant named): no status changes, every active BTM2 contestant records
      DOUBLE SHANTAY and every other active contestant its pending placement. */
  lemma DoubleShantayOutcome(c: seq<Queen>, m: map<string, Placement>, episodeNumber: Option<int>)
    ensures var r := LipsyncRoster(c, m, None, true, episodeNumber);
      && (forall s :: CountStatus(r, s) == CountStatus(c, s))
      && (forall i :: 0 <= i < |c| ==> r[i].status == c[i].status)
      && (forall i :: 0 <= i < |c| && c[i].status == Active ==>
            LastEntry(r[i]) == (if Pending(m, c[i].id) == BTM2 then DOUBLE_SHANTAY else Pending(m, c[i].id)))
  {
    forall s ensures CountStatus(LipsyncRoster(c, m, None, true, episodeNumber), s) == CountStatus(c, s) {
      DoubleShantayCounts(c, m, episodeNumber, s);
    }
  }

  /** Eliminating `x` changes the status of the active contestant `x` only, which records ELIM and the
      episode number; every other active contestant records its pending placement. */
  lemma EliminationEntries(c: seq<Queen>, m: map<string, Placement>, x: string, episodeNumber: Option<int>)
    requires DistinctIds(c) && IsActiveId(c, x)
    ensures var r := LipsyncRoster(c, m, Some(x), false, episodeNumber);
      && (forall i :: 0 <= i < |c| && c[i].id == x ==>
            c[i].status == Active && r[i].status == Eliminated
            && r[i].trackRecord == c[i].trackRecord + [ELIM] && r[i].eliminatedEpisode == episodeNumber)
      && (forall i :: 0 <= i < |c| && c[i].id != x ==> r[i].status == c[i].status)
      && (forall i :: 0 <= i < |c| && c[i].id != x && c[i].status == Active ==>
            r[i].trackRecord == c[i].trackRecord + [Pending(m, c[i].id)])
  {
    var w :| 0 <= w < |c| && c[w].id == x && c[w].status == Active;
    forall i | 0 <= i < |c| && c[i].id == x ensures i == w {
    }
  }

  /** Eliminating the active contestant `x`: exactly that contestant goes from active to eliminated,
      records ELIM and the episode number; every other active contestant keeps its status and records
      its pending placement; one fewer contestant is active. */
  lemma SingleElimination(c: seq<Queen>, m: map<string, Placement>, x: string, episodeNumber: Option<int>)
    requires DistinctIds(c) && IsActiveId(c, x)
    ensures var r := LipsyncRoster(c, m, Some(x), false, episodeNumber);
      && CountStatus(r, Active) == CountStatus(c, Active) - 1
      && CountStatus(r, Eliminated) == CountStatus(c, Eliminated) + 1
      && (forall i :: 0 <= i < |c| && c[i].id == x ==>
            c[i].status == Active && r[i].status == Eliminated
            && r[i].trackRecord == c[i].trackRecord + [ELIM] && r[i].eliminatedEpisode == episodeNumber)
      && (forall i :: 0 <= i < |c| && c[i].id != x ==> r[i].status == c[i].status)
      && (forall i :: 0 <= i < |c| && c[i].id != x && c[i].status == Active ==>
            r[i].trackRecord == c[i].trackRecord + [Pending(m, c[i].id)])
  {
    LipsyncCounts(c, m, x, episodeNumber);
    ActiveIdOnce(c, x);
    EliminationEntries(c, m, x, episodeNumber);
  }

  /** Crowning an active contestant: exactly one more winner, no active contestant left, every other
      active contestant a runner-up, and the eliminated contestants untouched. */
  lemma CrowningOutcome(c: seq<Queen>, w: string)
    requires DistinctIds(c) && IsActiveId(c, w)
    ensures var r := CrownRoster(c, w);
      && CountStatus(r, Winner) == CountStatus(c, Winner) + 1
      && CountStatus(r, Active) == 0
      && CountStatus(r, RunnerUp) == CountStatus(c, RunnerUp) + CountStatus(c, Active) - 1
      && CountStatus(r, Eliminated) == CountStatus(c, Eliminated)
  {
    CrownCounts(c, w);
    ActiveIdOnce(c, w);
  }
}
