/** The season engine: the state the simulator keeps (phase, episode index, cast, lounge drama, pending
    placements, bottom two, last eliminated contestant, double-shantay flag) and the commands that move
    it forward. The two timers become explicit steps: FinishPerforming for the end of the performance and
    DoubleSashay for the chained pair of eliminations. */
module SeasonEngine {
  import opened SeasonTypes
  import opened Catalog
  import opened Roster
  import opened Scoring
  import opened Drama

  // ---- the history invariant ----

  /** One contestant's history after `resolved` decided episodes: an active contestant has one entry per
      decided episode; an eliminated one stopped at the episode it was eliminated in, with ELIM last; a
      winner or runner-up exists only at the finale and has one entry more. */
  predicate Consistent(q: Queen, resolved: int, finished: bool) {
    match q.status
    case Active => |q.trackRecord| == resolved && q.eliminatedEpisode == None
    case Eliminated =>
      && 1 <= |q.trackRecord| <= resolved && q.trackRecord[|q.trackRecord| - 1] == ELIM
      && q.eliminatedEpisode == Some(|q.trackRecord|)
    case Winner => finished && |q.trackRecord| == resolved
    case RunnerUp => finished && |q.trackRecord| == resolved
  }

  /** Every contestant of the roster is consistent. */
  predicate AllConsistent(c: seq<Queen>, resolved: int, finished: bool) {
    forall i :: 0 <= i < |c| ==> Consistent(c[i], resolved, finished)
  }

  /** The starting cast has no history yet. */
  lemma InitialHistory()
    ensures AllConsistent(INITIAL_CAST, 0, false)
  {
    InitialCast();
  }

  /** A lipsync decision in episode `resolved + 1` keeps every history consistent, one episode later. */
  lemma LipsyncKeepsHistory(c: seq<Queen>, m: map<string, Placement>, eliminatedId: Option<string>,
                            doubleShantay: bool, resolved: nat)
    requires AllConsistent(c, resolved, false)
    ensures AllConsistent(LipsyncRoster(c, m, eliminatedId, doubleShantay, Some(resolved + 1)), resolved + 1, false)
  {
    var r := LipsyncRoster(c, m, eliminatedId, doubleShantay, Some(resolved + 1));
    forall i | 0 <= i < |c| ensures Consistent(r[i], resolved + 1, false) {
      assert r[i] == AfterLipsync(c[i], m, eliminatedId, doubleShantay, Some(resolved + 1));
      assert Consistent(c[i], resolved, false);
    }
  }

  /** A non-elimination keeps every history consistent, one episode later. */
  lemma NonEliminationKeepsHistory(c: seq<Queen>, m: map<string, Placement>, resolved: nat)
    requires AllConsistent(c, resolved, false)
    ensures AllConsistent(NonEliminationRoster(c, m), resolved + 1, false)
  {
    var r := NonEliminationRoster(c, m);
    forall i | 0 <= i < |c| ensures Consistent(r[i], resolved + 1, false) {
      assert r[i] == AfterNonElimination(c[i], m);
      assert Consistent(c[i], resolved, false);
    }
  }

  /** The crowning closes the season: every history is consistent with the finale decided too. */
  lemma CrownKeepsHistory(c: seq<Queen>, winnerId: string, resolved: nat)
    requires AllConsistent(c, resolved, false)
    ensures AllConsistent(CrownRoster(c, winnerId), resolved + 1, true)
  {
    var r := CrownRoster(c, winnerId);
    forall i | 0 <= i < |c| ensures Consistent(r[i], resolved + 1, true) {
      assert r[i] == AfterCrowning(c[i], winnerId);
      assert Consistent(c[i], resolved, false);
    }
  }

  /** Before the finale nobody is a winner or a runner-up. */
  lemma {:induction false} NoWinnerBeforeFinale(c: seq<Queen>, resolved: int)
    requires AllConsistent(c, resolved, false)
    ensures CountStatus(c, Winner) == 0 && CountStatus(c, RunnerUp) == 0
  {
    if c != [] {
      assert Consistent(c[0], resolved, false);
      assert AllConsistent(c[1..], resolved, false) by {
        forall i | 0 <= i < |c[1..]| ensures Consistent(c[1..][i], resolved, false) {
          assert c[1..][i] == c[i + 1];
        }
      }
      NoWinnerBeforeFinale(c[1..], resolved);
    }
  }

  /** A resolution changes no id, so the ids of the cast stay those of the starting cast. */
  lemma RosterStepKeepsIds(before: seq<Queen>, after: seq<Queen>)
    requires RosterStep(before, after)
    ensures Ids(after) == Ids(before)
    ensures DistinctIds(before) ==> DistinctIds(after)
  {
    forall i | 0 <= i < |before| ensures after[i].id == before[i].id {
      assert OneStep(before[i], after[i]);
    }
  }

  /** The double sashay as the simulator runs it: two single eliminations in a row with the same pending
      placements. Both contestants are eliminated. */
  lemma DoubleSashayCounts(c: seq<Queen>, m: map<string, Placement>, x: string, y: string, episodeNumber: Option<int>)
    requires DistinctIds(c) && IsActiveId(c, x) && IsActiveId(c, y) && x != y
    ensures var r := LipsyncRoster(LipsyncRoster(c, m, Some(x), false, episodeNumber), m, Some(y), false, episodeNumber);
      && CountStatus(r, Active) == CountStatus(c, Active) - 2
      && CountStatus(r, Eliminated) == CountStatus(c, Eliminated) + 2
  {
    var first := LipsyncRoster(c, m, Some(x), false, episodeNumber);
    LipsyncCounts(c, m, x, episodeNumber);
    ActiveIdOnce(c, x);
    LipsyncRosterSpec(c, m, Some(x), false, episodeNumber);
    RosterStepKeepsIds(c, first);
    var j :| 0 <= j < |c| && c[j].id == y && c[j].status == Active;
    assert first[j] == AfterLipsync(c[j], m, Some(x), false, episodeNumber);
    assert IsActiveId(first, y);
    LipsyncCounts(first, m, y, episodeNumber);
    ActiveIdOnce(first, y);
  }

  /** In the double sashay every other active contestant records its pending placement twice for the
      one episode. */
  lemma DoubleSashaySurvivors(c: seq<Queen>, m: map<string, Placement>, x: string, y: string, episodeNumber: Option<int>)
    ensures var r := LipsyncRoster(LipsyncRoster(c, m, Some(x), false, episodeNumber), m, Some(y), false, episodeNumber);
      forall i :: 0 <= i < |c| && c[i].status == Active && c[i].id != x && c[i].id != y ==>
        r[i].status == Active && r[i].trackRecord == c[i].trackRecord + [Pending(m, c[i].id), Pending(m, c[i].id)]
  {
    var first := LipsyncRoster(c, m, Some(x), false, episodeNumber);
    var r := LipsyncRoster(first, m, Some(y), false, episodeNumber);
    forall i | 0 <= i < |c| && c[i].status == Active && c[i].id != x && c[i].id != y
      ensures r[i].status == Active && r[i].trackRecord == c[i].trackRecord + [Pending(m, c[i].id), Pending(m, c[i].id)]
    {
      var p := Pending(m, c[i].id);
      assert first[i] == c[i].(trackRecord := c[i].trackRecord + [p]);
      assert r[i] == first[i].(trackRecord := first[i].trackRecord + [p]);
      assert c[i].trackRecord + [p] + [p] == c[i].trackRecord + [p, p];
    }
  }

  // ---- the state ----

  /** The whole state of the simulator at one moment. */
  datatype Snapshot = Snapshot(
    phase: Phase,
    episodeIdx: int,
    cast: seq<Queen>,
    untuckedDrama: seq<UntuckedEvent>,
    placements: map<string, Placement>,
    lipsyncers: seq<Queen>,
    eliminatedQueen: Option<Queen>,
    doubleShantayOccurred: bool)

  /** The contestants' ids stay distinct, the episode index stays inside the catalog (or just before it,
      during the promo, and only then), and the lipsync screen faces two different active contestants. */
  ghost predicate StateValid(s: Snapshot) {
    && DistinctIds(s.cast)
    && -1 <= s.episodeIdx < EPISODE_COUNT
    && (s.phase == PROMO <==> s.episodeIdx == -1)
    && (s.phase == LIPSYNC ==>
          && |s.lipsyncers| == 2 && s.lipsyncers[0].id != s.lipsyncers[1].id
          && IsActiveId(s.cast, s.lipsyncers[0].id) && IsActiveId(s.cast, s.lipsyncers[1].id))
  }

  /** The number of episodes decided so far, as the phase tells it. */
  function Resolved(s: Snapshot): int {
    match s.phase
    case PROMO => 0
    case RESULTS => s.episodeIdx + 1
    case CROWNING => s.episodeIdx + 1
    case SEASON_END => s.episodeIdx + 2
    case _ => s.episodeIdx
  }

  /** Every contestant's track record matches the decided episodes. */
  ghost predicate HistoryOk(s: Snapshot) {
    AllConsistent(s.cast, Resolved(s), s.phase == SEASON_END)
  }

  /** The episode at index `idx`; none before the first and past the catalog. */
  function EpisodeAt(idx: int): (e: Option<Episode>)
    ensures e.Some? <==> 0 <= idx < EPISODE_COUNT
    ensures e.Some? ==> e.value.number == idx + 1 && |e.value.challengeType| >= 1
  {
    EpisodeCatalog();
    if 0 <= idx < EPISODE_COUNT then Some(EPISODES[idx]) else None
  }

  /** The number of the episode at index `idx`, if there is one. */
  function EpisodeNumberAt(idx: int): (n: Option<int>)
    ensures n.Some? <==> 0 <= idx < EPISODE_COUNT
    ensures n.Some? ==> n.value == idx + 1
  {
    match EpisodeAt(idx)
    case None => None
    case Some(e) => Some(e.number)
  }

  /** The producer's lock-in button is enabled: exactly two or exactly no active contestants hold BTM2. */
  predicate GateOpen(s: Snapshot) {
    var n := |BottomTwo(ActiveQueens(s.cast), s.placements)|;
    n == 2 || n == 0
  }

  // ---- the transitions ----

  /** The state after the performance timer: pending placements from `ranking` when an episode is being
      played, the lounge drama drawn from the quote catalog `templates` when two or more contestants are
      active, and UNTUCKED. */
  function Performed(s: Snapshot, templates: seq<string>, ranking: seq<string>, draws: seq<DramaDraw>): Snapshot
    requires DrawsFit(ActiveQueens(s.cast), templates, draws)
  {
    var active := ActiveQueens(s.cast);
    s.(phase := UNTUCKED,
       placements := if EpisodeAt(s.episodeIdx).Some? then RankPlacements(ranking, |active|) else s.placements,
       untuckedDrama := if |active| >= 2 then DramaFor(active, templates, draws) else s.untuckedDrama)
  }

  /** The state after the non-elimination path. */
  function NonEliminationDecided(s: Snapshot): Snapshot {
    s.(cast := NonEliminationRoster(s.cast, s.placements), eliminatedQueen := None, doubleShantayOccurred := true,
       phase := RESULTS)
  }

  /** The state after advancing one phase. */
  function Advance(s: Snapshot): Snapshot {
    match s.phase
    case PROMO => s.(episodeIdx := 0, phase := EPISODE_INTRO)
    case EPISODE_INTRO => s.(phase := PERFORMING)
    case UNTUCKED => s.(phase := PRODUCER_HUB)
    case PRODUCER_HUB =>
      var bottom := BottomTwo(ActiveQueens(s.cast), s.placements);
      var t := s.(lipsyncers := bottom);
      if |bottom| == 2 then t.(phase := LIPSYNC)
      else if |bottom| == 0 then NonEliminationDecided(t)
      else t
    case RESULTS =>
      if |ActiveQueens(s.cast)| <= 3 then s.(phase := CROWNING)
      else if s.episodeIdx < EPISODE_COUNT - 1 then s.(episodeIdx := s.episodeIdx + 1, phase := EPISODE_INTRO)
      else s.(phase := CROWNING)
    case CROWNING => s.(phase := SEASON_END)
    case PERFORMING => s
    case LIPSYNC => s
    case SEASON_END => s
  }

  /** The state after a lipsync decision. */
  function LipsyncDecided(s: Snapshot, eliminatedId: Option<string>, doubleShantay: bool): Snapshot {
    s.(cast := LipsyncRoster(s.cast, s.placements, eliminatedId, doubleShantay, EpisodeNumberAt(s.episodeIdx)),
       eliminatedQueen := EliminatedBy(s.cast, s.placements, eliminatedId, doubleShantay),
       doubleShantayOccurred := doubleShantay,
       phase := RESULTS)
  }

  /** The state after the crowning. */
  function Crowned(s: Snapshot, winnerId: string): Snapshot {
    s.(cast := CrownRoster(s.cast, winnerId), phase := SEASON_END)
  }

  // ---- what the transitions keep and establish ----

  /** The season opens valid and with no history. */
  lemma OpeningState()
    ensures var s := Snapshot(PROMO, -1, INITIAL_CAST, [], map[], [], None, false);
      StateValid(s) && HistoryOk(s)
  {
    InitialCast();
    InitialHistory();
  }

  /** The end of the performance keeps the state valid and the history consistent (no entry is written). */
  lemma PerformedKeeps(s: Snapshot, templates: seq<string>, ranking: seq<string>, draws: seq<DramaDraw>)
    requires DrawsFit(ActiveQueens(s.cast), templates, draws)
    requires StateValid(s) && s.phase == PERFORMING
    ensures StateValid(Performed(s, templates, ranking, draws))
    ensures HistoryOk(s) ==> HistoryOk(Performed(s, templates, ranking, draws))
  {
  }

  /** After the performance every active contestant ranked has the label of its rank and nobody else has
      a pending placement. */
  lemma PerformedPlacements(s: Snapshot, templates: seq<string>, ranking: seq<string>, draws: seq<DramaDraw>)
    requires DrawsFit(ActiveQueens(s.cast), templates, draws)
    requires StateValid(s) && s.phase == PERFORMING && IsRanking(ranking, ActiveQueens(s.cast))
    ensures var m := Performed(s, templates, ranking, draws).placements;
      && (forall id :: id in m <==> id in ranking)
      && (forall i :: 0 <= i < |ranking| ==> m[ranking[i]] == Label(i, |ranking|))
  {
    RankPlacementsSpec(ranking, |ActiveQueens(s.cast)|);
  }

  /** After the performance the lounge drama is left alone with fewer than two active contestants and
      otherwise holds EventCount events, one per draw. */
  lemma PerformedDrama(s: Snapshot, templates: seq<string>, ranking: seq<string>, draws: seq<DramaDraw>)
    requires DrawsFit(ActiveQueens(s.cast), templates, draws)
    ensures var active := ActiveQueens(s.cast);
      var d := Performed(s, templates, ranking, draws).untuckedDrama;
      && (|active| < 2 ==> d == s.untuckedDrama)
      && (|active| >= 2 ==> |d| == EventCount(|active|) && forall j :: 0 <= j < |d| ==> d[j] == EventFor(active, templates, draws[j]))
  {
    var active := ActiveQueens(s.cast);
    if |active| >= 2 {
      forall j | 0 <= j < |draws| ensures DramaFor(active, templates, draws)[j] == EventFor(active, templates, draws[j]) {
        DramaForAt(active, templates, draws, j);
      }
    }
  }

  /** Placements judged from a ranking of the active contestants put exactly the last two ranked in the
      bottom two, once two or more contestants are active. */
  lemma RankedBottom(cast: seq<Queen>, ranking: seq<string>)
    requires DistinctIds(cast) && IsRanking(ranking, ActiveQueens(cast)) && |ActiveQueens(cast)| >= 2
    ensures var active := ActiveQueens(cast);
      var bottom := BottomTwo(active, RankPlacements(ranking, |active|));
      && |bottom| == 2
      && forall q :: q in bottom <==> q in active && (q.id == ranking[|ranking| - 2] || q.id == ranking[|ranking| - 1])
  {
    var active := ActiveQueens(cast);
    var m := RankPlacements(ranking, |active|);
    assert forall i :: 0 <= i < |ranking| ==> ranking[i] in m && m[ranking[i]] == Label(i, |ranking|) by {
      RankPlacementsSpec(ranking, |active|);
    }
    assert DistinctIds(active) by {
      ActiveQueensSpec(cast);
    }
    GateAfterRanking(active, ranking, m);
  }

  /** Right after the performance, with two or more active contestants, the producer's gate is open and
      the bottom two are the last two ranked. */
  lemma PerformedGate(s: Snapshot, templates: seq<string>, ranking: seq<string>, draws: seq<DramaDraw>)
    requires DrawsFit(ActiveQueens(s.cast), templates, draws)
    requires StateValid(s) && s.phase == PERFORMING && IsRanking(ranking, ActiveQueens(s.cast))
    requires |ActiveQueens(s.cast)| >= 2
    ensures var t := Performed(s, templates, ranking, draws);
      && GateOpen(t)
      && forall q :: q in BottomTwo(ActiveQueens(t.cast), t.placements) <==>
           q in ActiveQueens(s.cast) && (q.id == ranking[|ranking| - 2] || q.id == ranking[|ranking| - 1])
  {
    assert EpisodeAt(s.episodeIdx).Some?;
    RankedBottom(s.cast, ranking);
  }

  /** The non-elimination path keeps the state valid and, taken from the producer's hub, the history
      consistent. */
  lemma NonEliminationKeeps(s: Snapshot)
    requires StateValid(s) && s.phase != PROMO
    ensures StateValid(NonEliminationDecided(s))
    ensures s.phase == PRODUCER_HUB && HistoryOk(s) ==> HistoryOk(NonEliminationDecided(s))
  {
    NonEliminationRosterSpec(s.cast, s.placements);
    RosterStepKeepsIds(s.cast, NonEliminationDecided(s).cast);
    if s.phase == PRODUCER_HUB && HistoryOk(s) {
      NonEliminationKeepsHistory(s.cast, s.placements, s.episodeIdx);
    }
  }

  /** Advancing keeps the state valid, and the history consistent from every phase but the crowning
      (whose entries the crowning itself writes). */
  lemma AdvanceKeeps(s: Snapshot)
    requires StateValid(s)
    ensures StateValid(Advance(s))
    ensures s.phase != CROWNING && HistoryOk(s) ==> HistoryOk(Advance(s))
  {
    if s.phase == PRODUCER_HUB {
      BottomTwoActive(s.cast, s.placements);
      NonEliminationKeeps(s.(lipsyncers := BottomTwo(ActiveQueens(s.cast), s.placements)));
    }
  }

  /** The producer's gate: advancing from the hub records the bottom two as the lipsyncers; it moves on,
      to the lipsync with two of them and to the results with none, exactly when the gate is open; the
      non-elimination path appends every active contestant's pending placement and eliminates nobody. */
  lemma AdvanceFromHub(s: Snapshot)
    requires s.phase == PRODUCER_HUB
    ensures var bottom := BottomTwo(ActiveQueens(s.cast), s.placements);
      var t := Advance(s);
      && t.lipsyncers == bottom
      && (t.phase != PRODUCER_HUB <==> GateOpen(s))
      && (t.phase == LIPSYNC <==> |bottom| == 2)
      && (t.phase == LIPSYNC ==> t.cast == s.cast)
      && (t.phase == RESULTS <==> |bottom| == 0)
      && (t.phase == RESULTS ==>
            t.eliminatedQueen == None && t.doubleShantayOccurred
            && (forall i :: 0 <= i < |s.cast| ==> t.cast[i].status == s.cast[i].status)
            && (forall i :: 0 <= i < |s.cast| && s.cast[i].status == Active ==>
                  t.cast[i].trackRecord == s.cast[i].trackRecord + [Pending(s.placements, s.cast[i].id)]))
  {
    if Advance(s).phase == RESULTS {
      NonEliminationRosterSpec(s.cast, s.placements);
    }
  }

  /** Advancing from the results crowns with three or fewer active contestants or after the last episode,
      and otherwise starts the next episode. */
  lemma AdvanceFromResults(s: Snapshot)
    requires s.phase == RESULTS
    ensures var t := Advance(s);
      && (t.phase == CROWNING <==> |ActiveQueens(s.cast)| <= 3 || s.episodeIdx >= EPISODE_COUNT - 1)
      && (t.phase != CROWNING ==> t.phase == EPISODE_INTRO && t.episodeIdx == s.episodeIdx + 1)
      && t.cast == s.cast
  {
  }

  /** The phases that wait for something else do not move on an advance; the promo starts episode one. */
  lemma AdvanceWaits(s: Snapshot)
    ensures s.phase == PERFORMING || s.phase == LIPSYNC || s.phase == SEASON_END ==> Advance(s) == s
    ensures s.phase == PROMO ==> Advance(s).episodeIdx == 0 && Advance(s).phase == EPISODE_INTRO
  {
  }

  /** A lipsync decision keeps the state valid and, taken at the lipsync, the history consistent. */
  lemma LipsyncDecidedKeeps(s: Snapshot, eliminatedId: Option<string>, doubleShantay: bool)
    requires StateValid(s) && s.phase != PROMO
    ensures StateValid(LipsyncDecided(s, eliminatedId, doubleShantay))
    ensures s.phase == LIPSYNC && HistoryOk(s) ==> HistoryOk(LipsyncDecided(s, eliminatedId, doubleShantay))
  {
    var t := LipsyncDecided(s, eliminatedId, doubleShantay);
    assert DistinctIds(t.cast) by {
      LipsyncRosterSpec(s.cast, s.placements, eliminatedId, doubleShantay, EpisodeNumberAt(s.episodeIdx));
      RosterStepKeepsIds(s.cast, t.cast);
    }
    if s.phase == LIPSYNC && HistoryOk(s) {
      LipsyncKeepsHistory(s.cast, s.placements, eliminatedId, doubleShantay, s.episodeIdx);
    }
  }

  /** Eliminating an active contestant in an episode: one fewer active contestant, one more eliminated,
      and the contestant reported eliminated is the one named. */
  lemma LipsyncDecidedElimination(s: Snapshot, x: string)
    requires StateValid(s) && s.phase != PROMO && IsActiveId(s.cast, x)
    ensures var t := LipsyncDecided(s, Some(x), false);
      && CountStatus(t.cast, Active) == CountStatus(s.cast, Active) - 1
      && CountStatus(t.cast, Eliminated) == CountStatus(s.cast, Eliminated) + 1
      && t.eliminatedQueen.Some? && t.eliminatedQueen.value.id == x && t.eliminatedQueen.value in s.cast
  {
    SingleElimination(s.cast, s.placements, x, EpisodeNumberAt(s.episodeIdx));
    EliminatedBySpec(s.cast, s.placements, Some(x), false);
    var i :| 0 <= i < |s.cast| && s.cast[i].id == x && s.cast[i].status == Active;
    assert Eliminates(s.cast[i], s.placements, Some(x), false);
  }

  /** A double shantay changes no status count and reports nobody eliminated. */
  lemma LipsyncDecidedShantay(s: Snapshot)
    ensures var t := LipsyncDecided(s, None, true);
      && (forall st :: CountStatus(t.cast, st) == CountStatus(s.cast, st))
      && t.eliminatedQueen == None
  {
    DoubleShantayOutcome(s.cast, s.placements, EpisodeNumberAt(s.episodeIdx));
    EliminatedBySpec(s.cast, s.placements, None, true);
  }

  /** The double sashay of two different active contestants eliminates both: two fewer active contestants,
      two more eliminated. */
  lemma DoubleSashayDecided(s: Snapshot, x: string, y: string)
    requires StateValid(s) && IsActiveId(s.cast, x) && IsActiveId(s.cast, y) && x != y
    ensures var t := LipsyncDecided(LipsyncDecided(s, Some(x), false), Some(y), false);
      && CountStatus(t.cast, Active) == CountStatus(s.cast, Active) - 2
      && CountStatus(t.cast, Eliminated) == CountStatus(s.cast, Eliminated) + 2
  {
    DoubleSashayCounts(s.cast, s.placements, x, y, EpisodeNumberAt(s.episodeIdx));
  }

  /** At the lipsync, sashaying either of the two lipsyncers leaves one fewer active contestant and one
      more eliminated, and reports that lipsyncer as eliminated. */
  lemma SashayAtLipsync(s: Snapshot, k: nat)
    requires StateValid(s) && s.phase == LIPSYNC && k < 2
    ensures var t := LipsyncDecided(s, Some(s.lipsyncers[k].id), false);
      && CountStatus(t.cast, Active) == CountStatus(s.cast, Active) - 1
      && CountStatus(t.cast, Eliminated) == CountStatus(s.cast, Eliminated) + 1
      && t.eliminatedQueen.Some? && t.eliminatedQueen.value.id == s.lipsyncers[k].id
  {
    LipsyncDecidedElimination(s, s.lipsyncers[k].id);
  }

  /** At the lipsync, the double sashay of the two lipsyncers leaves two fewer active contestants and two
      more eliminated. */
  lemma DoubleSashayAtLipsync(s: Snapshot)
    requires StateValid(s) && s.phase == LIPSYNC
    ensures var t := LipsyncDecided(LipsyncDecided(s, Some(s.lipsyncers[0].id), false), Some(s.lipsyncers[1].id), false);
      && CountStatus(t.cast, Active) == CountStatus(s.cast, Active) - 2
      && CountStatus(t.cast, Eliminated) == CountStatus(s.cast, Eliminated) + 2
  {
    DoubleSashayDecided(s, s.lipsyncers[0].id, s.lipsyncers[1].id);
  }

  /** The crowning keeps the state valid and closes the history with the finale decided. */
  lemma CrownedKeeps(s: Snapshot, winnerId: string)
    requires StateValid(s) && s.phase == CROWNING
    ensures StateValid(Crowned(s, winnerId))
    ensures HistoryOk(s) ==> HistoryOk(Crowned(s, winnerId))
  {
    CrownRosterSpec(s.cast, winnerId);
    RosterStepKeepsIds(s.cast, Crowned(s, winnerId).cast);
    if HistoryOk(s) {
      CrownKeepsHistory(s.cast, winnerId, s.episodeIdx + 1);
    }
  }

  /** Crowning an active contestant after a consistent season: exactly one winner, nobody active. */
  lemma CrownedWinner(s: Snapshot, winnerId: string)
    requires StateValid(s) && s.phase == CROWNING && HistoryOk(s) && IsActiveId(s.cast, winnerId)
    ensures CountStatus(Crowned(s, winnerId).cast, Winner) == 1
    ensures CountStatus(Crowned(s, winnerId).cast, Active) == 0
  {
    NoWinnerBeforeFinale(s.cast, s.episodeIdx + 1);
    CrowningOutcome(s.cast, winnerId);
  }

  // ---- the simulator ----

  class Season {
    var phase: Phase
    var episodeIdx: int
    var cast: seq<Queen>
    var untuckedDrama: seq<UntuckedEvent>
    var placements: map<string, Placement>
    var lipsyncers: seq<Queen>
    var eliminatedQueen: Option<Queen>
    var doubleShantayOccurred: bool

    function State(): Snapshot
      reads this
    {
      Snapshot(phase, episodeIdx, cast, untuckedDrama, placements, lipsyncers, eliminatedQueen, doubleShantayOccurred)
    }

    ghost predicate Valid()
      reads this
    {
      StateValid(State())
    }

    ghost predicate HistoryConsistent()
      reads this
    {
      HistoryOk(State())
    }

    /** The season as it opens: the promo, before the first episode, with the starting cast. */
    constructor ()
      ensures State() == Snapshot(PROMO, -1, INITIAL_CAST, [], map[], [], None, false)
      ensures Valid() && HistoryConsistent()
    {
      phase := PROMO;
      episodeIdx := -1;
      cast := INITIAL_CAST;
      untuckedDrama := [];
      placements := map[];
      lipsyncers := [];
      eliminatedQueen := None;
      doubleShantayOccurred := false;
      OpeningState();
    }

    /** The end of the performance: the judging derives the pending placements from `ranking`, the active
        contestants best first, when an episode is being played; the phase moves to UNTUCKED; the lounge
        drama is replaced by fresh events when two or more contestants are active. */
    method FinishPerforming(ranking: seq<string>, draws: seq<DramaDraw>)
      requires Valid() && phase == PERFORMING && DrawsFit(ActiveQueens(cast), DRAMA_TEMPLATES, draws)
      modifies this
      ensures State() == Performed(old(State()), DRAMA_TEMPLATES, ranking, draws)
      ensures Valid()
      ensures old(HistoryConsistent()) ==> HistoryConsistent()
    {
      ghost var s := State();
      PerformedKeeps(s, DRAMA_TEMPLATES, ranking, draws);
      var active := ActiveQueens(cast);
      var m := placements;
      if EpisodeAt(episodeIdx).Some? {
        m := DerivePlacements(ranking, |active|);
      }
      var drama := GenerateEvents(active, DRAMA_TEMPLATES, draws);
      var events := if drama.Some? then drama.value else untuckedDrama;
      placements, phase, untuckedDrama := m, UNTUCKED, events;
    }

    /** The non-elimination path: every active contestant records its pending placement, nobody is
        eliminated, the double-shantay flag is raised and the results are shown. */
    method HandleNonElimination()
      requires Valid() && phase != PROMO
      modifies this
      ensures State() == NonEliminationDecided(old(State()))
      ensures Valid()
      ensures old(phase) == PRODUCER_HUB && old(HistoryConsistent()) ==> HistoryConsistent()
    {
      NonEliminationKeeps(State());
      cast := NonEliminationRoster(cast, placements);
      eliminatedQueen := None;
      doubleShantayOccurred := true;
      phase := RESULTS;
    }

    /** Advance to the next phase. */
    method NextPhase()
      requires Valid()
      modifies this
      ensures State() == Advance(old(State()))
      ensures Valid()
      ensures old(phase) != CROWNING && old(HistoryConsistent()) ==> HistoryConsistent()
    {
      AdvanceKeeps(State());
      match phase {
        case PROMO =>
          episodeIdx := 0;
          phase := EPISODE_INTRO;
        case EPISODE_INTRO =>
          phase := PERFORMING;
        case PERFORMING =>
        case UNTUCKED =>
          phase := PRODUCER_HUB;
        case PRODUCER_HUB =>
          var bottom := BottomTwo(ActiveQueens(cast), placements);
          lipsyncers := bottom;
          if |bottom| == 2 {
            phase := LIPSYNC;
          } else if |bottom| == 0 {
            HandleNonElimination();
          }
        case LIPSYNC =>
        case RESULTS =>
          if |ActiveQueens(cast)| <= 3 {
            phase := CROWNING;
          } else if episodeIdx < EPISODE_COUNT - 1 {
            episodeIdx := episodeIdx + 1;
            phase := EPISODE_INTRO;
          } else {
            phase := CROWNING;
          }
        case CROWNING =>
          phase := SEASON_END;
        case SEASON_END =>
      }
    }

    /** A lipsync decision: the active contestant named is eliminated in the current episode unless a
        double shantay rescues the bottom two; every other active contestant records its pending placement
        (DOUBLE SHANTAY for a rescued bottom contestant); the results are shown. */
    method HandleLipsyncDecision(eliminatedId: Option<string>, doubleShantay: bool)
      requires Valid() && phase != PROMO
      modifies this
      ensures State() == LipsyncDecided(old(State()), eliminatedId, doubleShantay)
      ensures Valid()
      ensures old(phase) == LIPSYNC && old(HistoryConsistent()) ==> HistoryConsistent()
    {
      LipsyncDecidedKeeps(State(), eliminatedId, doubleShantay);
      doubleShantayOccurred := doubleShantay;
      eliminatedQueen := EliminatedBy(cast, placements, eliminatedId, doubleShantay);
      cast := LipsyncRoster(cast, placements, eliminatedId, doubleShantay, EpisodeNumberAt(episodeIdx));
      phase := RESULTS;
    }

    /** The double sashay: the first of the bottom two is eliminated, then the second, with the placements
        of the episode reused for the second decision; two fewer contestants are active, two more
        eliminated. */
    method DoubleSashay()
      requires Valid() && phase == LIPSYNC
      modifies this
      ensures State() == LipsyncDecided(LipsyncDecided(old(State()), Some(old(lipsyncers)[0].id), false),
                                        Some(old(lipsyncers)[1].id), false)
      ensures Valid()
      ensures CountStatus(cast, Active) == old(CountStatus(cast, Active)) - 2
      ensures CountStatus(cast, Eliminated) == old(CountStatus(cast, Eliminated)) + 2
    {
      DoubleSashayAtLipsync(State());
      var firstId := lipsyncers[0].id;
      var secondId := lipsyncers[1].id;
      HandleLipsyncDecision(Some(firstId), false);
      HandleLipsyncDecision(Some(secondId), false);
    }

    /** The crowning: the contestant named becomes the winner, every other active contestant a runner-up,
        and the season ends. */
    method HandleCrowning(winnerId: string)
      requires Valid() && phase == CROWNING
      modifies this
      ensures State() == Crowned(old(State()), winnerId)
      ensures Valid()
      ensures old(HistoryConsistent()) ==> HistoryConsistent()
    {
      CrownedKeeps(State(), winnerId);
      cast := CrownRoster(cast, winnerId);
      NextPhase();
    }

    /** The producer's override: one contestant's pending placement becomes one of the five offered. */
    method SetPlacement(id: string, p: Placement)
      requires p.IsPendingChoice()
      modifies this
      ensures State() == old(State()).(placements := old(placements)[id := p])
      ensures old(Valid()) ==> Valid()
      ensures old(HistoryConsistent()) ==> HistoryConsistent()
    {
      placements := placements[id := p];
    }
  }
}
