# Drag Race season engine, modelled in Dafny

The simulator runs one season of a drag competition. Fourteen contestants start active. Each of the
eleven catalog episodes goes through the same phases: intro, performance, lounge drama ("untucked"),
the producer's review of the pending placements, a lipsync (or a non-elimination) and the results.
The season closes with the crowning of one of the remaining finalists.

The project models the engine behind the screens, and leaves the rendering out:

- `types.dfy` (`SeasonTypes`): the closed enumerations of placements, phases, statuses and skill
  categories, and the contestant, episode and lounge-event records.
- `catalog.dfy` (`Catalog`): the starting cast, the eleven-episode catalog and the 21 lounge quote
  templates.
- `scoring.dfy` (`Scoring`): the label each rank position receives, and the loop that builds the
  pending placement map from a ranking. It also proves what that map means for the producer's
  bottom-two gate.
- `drama.dfy` (`Drama`): the lounge drama generator.
  - The event count rule.
  - The resample loop for the second contestant.
  - First-occurrence placeholder substitution, with the contestant's name taken literally.
  - Which contestants an event involves.
- `roster.dfy` (`Roster`): the active contestants and the bottom two. Also the three resolvers: a
  lipsync decision, a non-elimination and the crowning. Each resolver rebuilds the roster and appends
  one track-record entry per active contestant.
- `season.dfy` (`SeasonEngine`) holds the state machine.
  - The class `Season` holds the simulator's mutable state fields. Its methods are the commands.
  - Most methods state their new state as one transition function of the old one: `Performed`,
    `Advance`, `NonEliminationDecided`, `LipsyncDecided` or `Crowned`. `DoubleSashay` states it as two
    `LipsyncDecided` steps in a row, and `SetPlacement` as the old state with one placement updated.
  - It also states the invariants it keeps. `Valid` says the ids are distinct, the episode index is in
    range, the phase is PROMO exactly when the index is -1, and in LIPSYNC the lipsyncers are two
    different active contestants. `HistoryConsistent` says every track
    record matches the number of decided episodes.
  - Lemmas about the transition functions state the season's rules: the producer's gate, the results
    routing, the lipsync outcomes and exactly one winner.

Random choices come in as parameters:
- The score ranking is a sequence of contestant ids, best first.
- The drama is a sequence of draws. Each draw holds the first contestant's index, the list of
  second-contestant indices tried until one differs, and the template index.

The model follows the code where the code accepts more than its screens offer:
- Crowning with an id that is not an active finalist is not rejected. Every active contestant becomes
  a runner-up (`Roster.CrownRosterSpec` states this).
- The second contestant of a lounge event is always drawn and resampled, even for a template without
  `{Q2}`.
- The placement override is not limited to the producer's hub at the state level.

## Model

| member | source | states |
|---|---|---|
| Catalog.EpisodeCatalog | App.tsx:79-91 | the catalog holds 11 episodes; episode at index i is number i + 1 and scores at least one category |
| Catalog.CastIdsDistinct | App.tsx:62-77 | the fourteen cast ids are pairwise different |
| Catalog.InitialCast | App.tsx:62-77 | the starting cast has 14 contestants with distinct ids, all active, none with history or elimination episode |
| Roster.Pending | App.tsx:234 | definition: a contestant's pending placement is its entry in the map, SAFE when it has none (used by BottomTwoSpec, NonEliminationRosterSpec and LipsyncRosterSpec) |
| Roster.ActiveQueens | App.tsx:153 | definition: the active contestants in roster order (its properties: ActiveQueensSpec) |
| Roster.BottomTwo | App.tsx:213 | definition: the active contestants pending BTM2, in roster order (its properties: BottomTwoSpec, BottomTwoActive) |
| Roster.AfterLipsync | App.tsx:233-242 | definition: one contestant after a lipsync decision (its properties: LipsyncRosterSpec, EliminationEntries, DoubleShantayOutcome) |
| Roster.LipsyncRoster | App.tsx:232-243 | definition: the roster after a lipsync decision, AfterLipsync applied to every contestant (its properties: LipsyncRosterSpec) |
| Roster.EliminatedBy | App.tsx:230-239 | definition: the contestant the lipsync decision reports eliminated, the last one it eliminates (its properties: EliminatedBySpec) |
| Roster.AfterNonElimination | App.tsx:249 | definition: one contestant after a non-elimination (its properties: NonEliminationRosterSpec) |
| Roster.NonEliminationRoster | App.tsx:249 | definition: the roster after a non-elimination (its properties: NonEliminationRosterSpec) |
| Roster.AfterCrowning | App.tsx:255-256 | definition: one contestant after the crowning (its properties: CrownRosterSpec) |
| Roster.CrownRoster | App.tsx:254-257 | definition: the roster after the crowning (its properties: CrownRosterSpec, CrowningOutcome) |
| Roster.Ids | App.tsx:160-163 | the id list of a roster repeats no id exactly when the contestants' ids are distinct |
| Roster.ActiveQueensSpec | App.tsx:153 | the active list holds exactly the roster's active contestants, CountStatus(Active) of them, with distinct ids when the roster has them |
| Roster.BottomTwoSpec | App.tsx:213 | the bottom-two list holds exactly the active contestants whose pending placement (SAFE when missing) is BTM2, with distinct ids |
| Roster.BottomTwoHas | App.tsx:213 | an active contestant pending BTM2 is in the bottom-two list |
| Roster.BottomTwoActive | App.tsx:213 | every member of the bottom two is an active contestant of the roster, and their ids are distinct when the roster's are |
| Roster.LipsyncRosterSpec | App.tsx:232-243 | a lipsync decision appends one entry per active contestant and leaves the others untouched; a status changes exactly for the contestant it eliminates, who becomes eliminated with ELIM last and the episode number recorded |
| Roster.EliminatedBySpec | App.tsx:230-244 | the contestant reported eliminated is a roster member the decision eliminates; none is reported exactly when the decision eliminates nobody |
| Roster.NonEliminationRosterSpec | App.tsx:249 | a non-elimination keeps every status and each active contestant appends its pending placement, SAFE when missing |
| Roster.CrownRosterSpec | App.tsx:254-257 | non-active contestants are untouched; the active contestant named becomes winner with WINNER appended, every other active one runner-up with RUNNER-UP appended |
| Roster.ActiveIdOnce | App.tsx:238 | with distinct ids an id held by an active contestant is held by exactly one active contestant |
| Roster.LipsyncCounts | App.tsx:232-243 | a single-elimination decision moves the active contestants named from the active count to the eliminated count and leaves winner and runner-up counts alone |
| Roster.DoubleShantayCounts | App.tsx:236-237 | a double shantay with nobody named changes no status count |
| Roster.CrownCounts | App.tsx:254-257 | after the crowning no contestant is active; the active contestants named join the winners and the other active ones the runners-up |
| Roster.DoubleShantayOutcome | App.tsx:234-237 | a double shantay changes no status; each active BTM2 contestant records DOUBLE SHANTAY and every other active contestant its pending placement |
| Roster.EliminationEntries | App.tsx:234-242 | eliminating active id x changes only x's status, to eliminated with ELIM appended and the episode recorded; every other active contestant appends its pending placement |
| Roster.SingleElimination | App.tsx:232-243 | eliminating an active contestant leaves exactly one fewer active and one more eliminated, with the per-contestant entries of EliminationEntries |
| Roster.CrowningOutcome | App.tsx:253-257 | crowning an active finalist adds exactly one winner, leaves nobody active, turns every other active contestant into a runner-up and leaves the eliminated count alone |
| Scoring.Label | App.tsx:169-175 | rank labels: always one of the five producer choices; BTM2 exactly for the last two ranks; WIN exactly for rank 0 with three or more; HIGH exactly for ranks 1-2 above six and rank 1 for four to six; LOW exactly for the rank above the bottom two above five |
| Scoring.Tally | App.tsx:169-174 | with three or more contestants one WIN and two BTM2 are handed out; with two, two BTM2 and no WIN |
| Scoring.FourteenQueens | App.tsx:166-177 | a full cast of 14 gets WIN, HIGH, HIGH, eight SAFE, LOW, BTM2, BTM2 in rank order |
| Scoring.RankedIsActive | App.tsx:160-163 | every id of a ranking of the active contestants belongs to an active contestant |
| Scoring.ActiveIsRanked | App.tsx:160-163 | every active contestant is in the ranking |
| Scoring.RankPlacements | App.tsx:165-177 | definition: the placement map the label loop builds, one rank at a time (its properties: RankPlacementsSpec; the loop: DerivePlacements) |
| Scoring.RankPlacementsSpec | App.tsx:165-177 | for a ranking without repeats the map built by the label loop holds exactly the ranked ids, each mapped to the label of its rank among count |
| Scoring.DerivePlacements | App.tsx:165-177 | the forEach loop builds exactly the placement map RankPlacements of the ranking |
| Scoring.LastTwoPositions | App.tsx:174 | a ranked id is among the last two exactly when its rank is one of the last two |
| Scoring.LastTwoSize | App.tsx:174 | the last two ranked ids are two different ids once two or more are ranked |
| Scoring.BottomIffLastTwo | App.tsx:174 | with placements from a ranking an active contestant is pending BTM2 exactly when it is ranked in the last two |
| Scoring.BottomIdsRankedLast | App.tsx:174 | every id in the bottom two is ranked last or second to last |
| Scoring.LastRankedInBottom | App.tsx:174 | the ids ranked last and second to last are in the bottom two |
| Scoring.BottomIdsAreLastTwo | App.tsx:174 | the bottom two's ids are exactly the last two ranked ids |
| Scoring.BottomMembers | App.tsx:174 | with two or more ranked, the bottom two are exactly the active contestants ranked last and second to last |
| Scoring.GateAfterRanking | App.tsx:213-215 | placements labelled from a ranking leave exactly two contestants pending BTM2 (all of them when fewer than two are active), namely the last two ranked, so the hub's gate is open once two or more are active |
| Drama.ReplaceFirst | App.tsx:192 | definition: string replace with a string pattern and a literal replacement (its properties: ReplaceFirstSpec, ReplaceAbsent, LaterOccurrenceSurvives) |
| Drama.Quote | App.tsx:192 | definition: the quote, {Q1} then {Q2} replaced once each (its properties: RepeatedPlaceholderSurvives) |
| Drama.EventFor | App.tsx:186-197 | definition: the lounge event one draw builds (its properties: EventInvolves; the loop body: MakeEvent) |
| Drama.FirstIndex | App.tsx:192 | the position found is an occurrence of the pattern and no earlier position is |
| Drama.ReplaceAtFirst | App.tsx:192 | replacing with the first occurrence at i keeps everything before i and everything after the occurrence |
| Drama.ReplaceAbsent | App.tsx:192 | a string without the pattern is returned unchanged |
| Drama.ReplaceFirstSpec | App.tsx:192 | string replace rewrites only the first occurrence of the pattern, and nothing when there is none |
| Drama.LaterOccurrenceSurvives | App.tsx:192 | with two non-overlapping occurrences, one occurrence remains after the replacement |
| Drama.RepeatedPlaceholderSurvives | App.tsx:107 | the template naming the second contestant twice keeps a literal {Q2} in its quote whatever the names are |
| Drama.FloorOfTwoThirds | App.tsx:184 | in exact arithmetic, floor(n / 1.5) equals the integer quotient of 2n by 3 |
| Drama.EventCount | App.tsx:184 | the event count is floor(2n / 3) clamped to 4..6 |
| Drama.FirstDifferent | App.tsx:187-188 | the resample stops at the first draw whose contestant differs from the first contestant, and every earlier draw is the first contestant |
| Drama.EventInvolves | App.tsx:186-196 | an event involves the first contestant drawn, and also a second, different active contestant exactly when its template contains {Q2} |
| Drama.DramaFor | App.tsx:183-198 | one event per draw |
| Drama.DramaForAt | App.tsx:185-198 | event j is the event of draw j |
| Drama.DrawSecond | App.tsx:187-188 | the resample loop ends at FirstDifferent, the first draw that is not the first contestant |
| Drama.MakeEvent | App.tsx:186-197 | one loop body builds exactly EventFor of its draw |
| Drama.GenerateEvents | App.tsx:181-200 | no drama with fewer than two active contestants; otherwise EventCount events, event i made from draw i |
| SeasonEngine.InitialHistory | App.tsx:62-77 | the starting cast is consistent with no decided episode |
| SeasonEngine.LipsyncKeepsHistory | App.tsx:232-243 | a lipsync decision keeps every track record consistent, one decided episode later |
| SeasonEngine.NonEliminationKeepsHistory | App.tsx:249 | a non-elimination keeps every track record consistent, one decided episode later |
| SeasonEngine.CrownKeepsHistory | App.tsx:254-257 | the crowning keeps every track record consistent with the finale decided |
| SeasonEngine.NoWinnerBeforeFinale | App.tsx:253-257 | before the finale nobody is winner or runner-up |
| SeasonEngine.RosterStepKeepsIds | App.tsx:232-243 | a resolution changes no contestant id, so distinct ids stay distinct |
| SeasonEngine.DoubleSashayCounts | App.tsx:457 | two chained eliminations of two different active contestants leave two fewer active and two more eliminated |
| SeasonEngine.DoubleSashaySurvivors | App.tsx:457 | in the double sashay every surviving active contestant records its pending placement twice for the one episode |
| SeasonEngine.EpisodeAt | App.tsx:154 | there is a current episode exactly for an index inside the catalog, and it is number index + 1 |
| SeasonEngine.EpisodeNumberAt | App.tsx:240 | the elimination episode is index + 1 inside the catalog and none outside |
| SeasonEngine.GateOpen | App.tsx:397 | definition: the lock-in button is enabled exactly when two or no active contestants are pending BTM2 (its properties: AdvanceFromHub, PerformedGate) |
| SeasonEngine.Performed | App.tsx:209 | definition: the state after the performance timer (its properties: PerformedKeeps, PerformedPlacements, PerformedDrama, PerformedGate) |
| SeasonEngine.NonEliminationDecided | App.tsx:248-251 | definition: the state after the non-elimination path (its properties: NonEliminationKeeps, AdvanceFromHub) |
| SeasonEngine.Advance | App.tsx:204-226 | definition: the state after nextPhase, phase by phase (its properties: AdvanceKeeps, AdvanceFromHub, AdvanceFromResults, AdvanceWaits) |
| SeasonEngine.LipsyncDecided | App.tsx:228-246 | definition: the state after a lipsync decision (its properties: LipsyncDecidedKeeps, LipsyncDecidedElimination, LipsyncDecidedShantay, SashayAtLipsync) |
| SeasonEngine.Crowned | App.tsx:253-259 | definition: the state after the crowning (its properties: CrownedKeeps, CrownedWinner) |
| SeasonEngine.OpeningState | App.tsx:142-151 | the opening state is valid and its history consistent |
| SeasonEngine.PerformedKeeps | App.tsx:209 | the end of the performance keeps the state valid and the history consistent |
| SeasonEngine.PerformedPlacements | App.tsx:158-178 | after the performance the pending map holds exactly the ranked ids, each with the label of its rank |
| SeasonEngine.PerformedDrama | App.tsx:181-200 | after the performance the drama is unchanged with fewer than two active contestants, and otherwise holds EventCount events, event j from draw j |
| SeasonEngine.RankedBottom | App.tsx:168-177 | placements from a ranking of two or more active contestants put exactly the last two ranked in the bottom two |
| SeasonEngine.PerformedGate | App.tsx:209-217 | right after the performance, with two or more active contestants, the gate is open and the bottom two are the last two ranked |
| SeasonEngine.NonEliminationKeeps | App.tsx:248-251 | the non-elimination path keeps the state valid and, from the hub, the history consistent |
| SeasonEngine.AdvanceKeeps | App.tsx:204-226 | advancing keeps the state valid, and the history consistent from every phase but CROWNING |
| SeasonEngine.AdvanceFromHub | App.tsx:212-217 | from the hub the bottom two become the lipsyncers; the phase moves exactly when the gate is open. With two it goes to LIPSYNC with the cast unchanged. It goes to RESULTS exactly with none, and then it runs the non-elimination path: each active contestant appends its pending placement, nobody is eliminated and the flag is set |
| SeasonEngine.AdvanceFromResults | App.tsx:219-223 | from the results it crowns exactly with three or fewer active contestants or after the last episode; otherwise the next episode's intro, index + 1 |
| SeasonEngine.AdvanceWaits | App.tsx:205-225 | advancing in PERFORMING, LIPSYNC or SEASON_END changes nothing; PROMO starts episode index 0 |
| SeasonEngine.LipsyncDecidedKeeps | App.tsx:228-246 | a lipsync decision keeps the state valid and, from the lipsync, the history consistent |
| SeasonEngine.LipsyncDecidedElimination | App.tsx:228-246 | eliminating an active contestant leaves one fewer active and one more eliminated, and reports that contestant as eliminated |
| SeasonEngine.LipsyncDecidedShantay | App.tsx:229-244 | a double shantay changes no status count and reports nobody eliminated |
| SeasonEngine.DoubleSashayDecided | App.tsx:457 | the double sashay of two different active contestants leaves two fewer active and two more eliminated |
| SeasonEngine.SashayAtLipsync | App.tsx:444-447 | at the lipsync, eliminating either lipsyncer leaves one fewer active and one more eliminated and reports that lipsyncer |
| SeasonEngine.DoubleSashayAtLipsync | App.tsx:457 | at the lipsync, eliminating both lipsyncers leaves two fewer active and two more eliminated |
| SeasonEngine.CrownedKeeps | App.tsx:253-259 | the crowning keeps the state valid and the history consistent with the finale decided |
| SeasonEngine.CrownedWinner | App.tsx:253-259 | crowning an active finalist after a consistent season leaves exactly one winner and nobody active |
| SeasonEngine.Season.constructor | App.tsx:142-151 | the season opens in PROMO at index -1 with the starting cast and empty drama, placements and lipsyncers, valid and consistent |
| SeasonEngine.Season.FinishPerforming | App.tsx:209 | the state becomes Performed: placements from the ranking, fresh drama, UNTUCKED; validity and history kept |
| SeasonEngine.Season.HandleNonElimination | App.tsx:248-251 | the state becomes NonEliminationDecided; validity kept, history kept from the hub |
| SeasonEngine.Season.NextPhase | App.tsx:204-226 | the state becomes Advance of the old one; validity kept, history kept from every phase but CROWNING |
| SeasonEngine.Season.HandleLipsyncDecision | App.tsx:228-246 | the state becomes LipsyncDecided; validity kept, history kept from the lipsync |
| SeasonEngine.Season.DoubleSashay | App.tsx:457 | the state becomes two LipsyncDecided steps, first lipsyncer then second, with the same placements; two fewer active, two more eliminated; validity kept |
| SeasonEngine.Season.HandleCrowning | App.tsx:253-259 | the state becomes Crowned: crowned roster and SEASON_END; validity and history kept |
| SeasonEngine.Season.SetPlacement | App.tsx:418-421 | one contestant's pending placement becomes one of the five offered and nothing else changes; validity and history kept |

## Left out

- Rendering, styling helpers, image URLs, the storyline text and animations: presentation only.
- The score: the mean of the category stats plus `Math.random()` noise, and the sort. The ranking comes
  in as a parameter instead.
- `Math.random` in the drama generator. The draws come in as a parameter. The unbounded resample loop
  terminates because `Drama.DrawFits` requires the list of retries to contain a different contestant.
- The event id, built from the clock and a random number. It is display only.
- The 2500 ms performance timer and the 100 ms double sashay timer. They become the explicit commands
  `FinishPerforming` and `DoubleSashay`.
- React scheduling (batched updates, stale closures, assignment inside a state updater): each command
  takes effect at once, and `eliminatedQueen` is the contestant the decision eliminated.
- The results-table sort: display only.
- Drama.ReplaceFirst: takes the replacement literally. The string `replace` of the source would
  expand `$&`, `$'`, `` $` `` and `$$` in it, but no contestant name holds a `$`.
- Drama.EventCount: divides in exact rationals where the source divides in floating point. For a whole
  number n, n / 1.5 is either a whole number, which is exact in floating point, or lies at least a third away
  from one, so the two floors agree for every cast size.
- Drama templates: the generator functions take the catalog as a parameter. `FinishPerforming` passes
  `Catalog.DRAMA_TEMPLATES`.
- SeasonEngine.Season.DoubleSashay: does not claim the history invariant. The second decision reuses
  the episode's placements and appends a second entry to every survivor (see
  `SeasonEngine.DoubleSashaySurvivors`).
- SeasonEngine.Season.NextPhase: does not claim the history invariant when advancing from CROWNING.
  The crowning entries are written by `HandleCrowning`, which calls it.
- SeasonEngine.Season.FinishPerforming: requires phase PERFORMING, the only phase in which the timer is
  set. It also requires draws that fit the active contestants.
- SeasonEngine.Season.HandleCrowning: requires phase CROWNING, the only screen that offers it.
- SeasonEngine.Season.HandleLipsyncDecision: requires a phase other than PROMO. Its callers run in
  LIPSYNC, and in RESULTS for the second half of the double sashay.
- SeasonEngine.Season.HandleNonElimination: requires a phase other than PROMO. Its only caller runs
  in PRODUCER_HUB.
- Scoring.GateAfterRanking: assumes the ranking lists every active contestant once, as the score sort
  always produces.
