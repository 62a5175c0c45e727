/** The value types of the season engine: placements, phases, contestant status and the records
    the engine passes around. */
module SeasonTypes {

  datatype Option<+T> = None | Some(value: T)

  /** The skill categories an episode scores on. */
  datatype StatType = Design | Comedy | Acting | Improv | Dancing | Lipsync | Makeover | Singing | Branding

  /** A track-record entry. The first five are what scoring and the producer assign; the other four are
      the markers written by the resolvers. */
  datatype Placement = WIN | HIGH | SAFE | LOW | BTM2 | ELIM | WINNER | RUNNER_UP | DOUBLE_SHANTAY
  {
    /** The values the producer's placement selector offers. */
    predicate IsPendingChoice() {
      this == WIN || this == HIGH || this == SAFE || this == LOW || this == BTM2
    }
  }

  datatype Phase = PROMO | EPISODE_INTRO | PERFORMING | UNTUCKED | PRODUCER_HUB | LIPSYNC | RESULTS | CROWNING | SEASON_END

  datatype Status = Active | Eliminated | Winner | RunnerUp

  /** A contestant. The image URL and the storyline text are presentation only and are not kept. */
  datatype Queen = Queen(
    id: string,
    name: string,
    stats: map<StatType, int>,
    trackRecord: seq<Placement>,
    status: Status,
    eliminatedEpisode: Option<int>)

  datatype Episode = Episode(number: int, title: string, description: string, challengeType: seq<StatType>)

  /** A generated lounge event; the display id built from the clock is not kept. */
  datatype UntuckedEvent = UntuckedEvent(quote: string, queensInvolved: seq<Queen>)

  /** Every contestant has a different id. */
  predicate DistinctIds(c: seq<Queen>) {
    forall i, j :: 0 <= i < j < |c| ==> c[i].id != c[j].id
  }

  /** No string occurs twice. */
  predicate Distinct(s: seq<string>) {
    forall i, j :: 0 <= i < j < |s| ==> s[i] != s[j]
  }
}
