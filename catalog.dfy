/** The static season data: the starting cast, the episode catalog and the lounge quote templates. */
module Catalog {
  import opened SeasonTypes

  /** A contestant as the season starts: active, with an empty track record. */
  function Fresh(id: string, name: string, stats: map<StatType, int>): Queen
  {
    Queen(id, name, stats, [], Active, None)
  }

  const INITIAL_CAST: seq<Queen> := [
    Fresh("1", "Jinkx Monsoon", map[Acting := 10, Comedy := 10, Singing := 10, Improv := 9, Branding := 8, Lipsync := 7, Dancing := 5, Design := 4, Makeover := 6]),
    Fresh("2", "Alaska", map[Acting := 9, Comedy := 9, Branding := 10, Improv := 8, Singing := 7, Lipsync := 6, Dancing := 4, Design := 6, Makeover := 7]),
    Fresh("3", "Roxxxy Andrews", map[Design := 10, Makeover := 10, Dancing := 7, Lipsync := 8, Branding := 5, Acting := 4, Comedy := 3, Improv := 3, Singing := 2]),
    Fresh("4", "Detox", map[Design := 8, Acting := 7, Comedy := 7, Lipsync := 9, Branding := 7, Dancing := 6, Improv := 5, Makeover := 6, Singing := 4]),
    Fresh("5", "Coco Montrese", map[Lipsync := 10, Dancing := 9, Makeover := 7, Acting := 5, Comedy := 6, Design := 5, Branding := 4, Improv := 3, Singing := 3]),
    Fresh("6", "Alyssa Edwards", map[Dancing := 10, Lipsync := 8, Branding := 8, Acting := 4, Comedy := 4, Improv := 3, Design := 3, Makeover := 4, Singing := 2]),
    Fresh("7", "Ivy Winters", map[Design := 9, Singing := 7, Dancing := 6, Makeover := 8, Acting := 5, Comedy := 4, Improv := 4, Lipsync := 5, Branding := 4]),
    Fresh("8", "Jade Jolie", map[Acting := 6, Lipsync := 7, Comedy := 5, Dancing := 5, Design := 5, Makeover := 4, Improv := 4, Branding := 3, Singing := 3]),
    Fresh("9", "Lineysha Sparx", map[Design := 9, Makeover := 8, Dancing := 7, Lipsync := 6, Acting := 3, Comedy := 2, Improv := 2, Branding := 3, Singing := 2]),
    Fresh("10", "Honey Mahogany", map[Singing := 8, Acting := 5, Comedy := 4, Branding := 5, Design := 4, Lipsync := 3, Dancing := 3, Improv := 3, Makeover := 4]),
    Fresh("11", "Vivienne Pinay", map[Makeover := 8, Design := 6, Branding := 6, Acting := 3, Comedy := 2, Lipsync := 4, Dancing := 3, Improv := 2, Singing := 2]),
    Fresh("12", "Monica B. Hillz", map[Dancing := 7, Lipsync := 7, Design := 5, Makeover := 4, Acting := 3, Comedy := 2, Improv := 2, Branding := 3, Singing := 2]),
    Fresh("13", "Serena ChaCha", map[Design := 6, Acting := 4, Dancing := 5, Lipsync := 5, Comedy := 3, Improv := 2, Branding := 2, Makeover := 3, Singing := 2]),
    Fresh("14", "Penny Tration", map[Comedy := 6, Acting := 5, Lipsync := 5, Branding := 5, Design := 3, Dancing := 3, Improv := 3, Makeover := 2, Singing := 2])
  ]

  /** The number of episodes in the catalog. */
  const EPISODE_COUNT: nat := 11

  /** The episode catalog, in airing order. */
  const EPISODES: seq<Episode> := [
    Episode(1, "RuPaullywood or Bust", "Create a Hollywood glamour look from garbage.", [Design]),
    Episode(2, "Lip Sync Extravaganza", "Reenact iconic moments from past seasons.", [Lipsync, Acting]),
    Episode(3, "Draggle Rock", "Star in a kids TV show.", [Acting, Improv]),
    Episode(4, "Black Swan", "Perform a ballet inspired by RuPaul's life.", [Dancing]),
    Episode(5, "Snatch Game", "Celebrity impersonation game show.", [Comedy, Improv]),
    Episode(6, "Can I Get an Amen?", "Record a 'We Are the World' style anthem.", [Singing]),
    Episode(7, "RuPaul Roast", "Roast RuPaul and the judges.", [Comedy]),
    Episode(8, "Scent of a Drag Queen", "Create and market a signature perfume.", [Branding]),
    Episode(9, "Telenovela Drama", "Overact in a dramatic Spanish soap opera.", [Acting]),
    Episode(10, "Super Troopers", "Turn veterans into drag sisters.", [Makeover]),
    Episode(11, "Sugar Ball", "Create three looks for the Sugar Ball.", [Design])
  ]


  /** The lounge quote templates, in catalog order. */
  const DRAMA_TEMPLATES: seq<string> := [
    "{Q1} accused {Q2} of having someone else make her costume!",
    "{Q1} is crying alone because the judges hated her look.",
    "{Q1} and {Q2} got into a screaming match over a wig.",
    "{Q1} told {Q2} she has no talent and is just relying on her body.",
    "The queens are all annoyed with {Q1}'s constant excuses.",
    "{Q1} is delusinal and thinks she won the challenge.",
    "{Q1} threw a drink at {Q2} in the interior illusions lounge!",
    "{Q1} stormed out of the lounge and {Q2} said, 'Don't let the door hit you!'.",
    "{Q1} started reading everyone for filth while fanning herself dramatically.",
    "{Q1} swears {Q2} copied her runway concept down to the rhinestones.",
    "{Q1} is pacing while {Q2} yells that she didn't come here to make friends.",
    "{Q1} whispered that {Q2} should have been in the bottom and chaos erupted.",
    "{Q1} won't stop singing the challenge song and {Q2} is losing it.",
    // written in pieces so that the positions of its placeholders can be read off: this is the
    // template that names the second contestant twice
    "{Q1}" + " tried to hug " + "{Q2}" + ", but " + "{Q2}" + " told her to save the fake tears for the runway.",
    "{Q1} is plotting revenge with a lipstick message if she goes home.",
    "{Q1} is giving a motivational speech while {Q2} rolls her eyes in the background.",
    "{Q1} found {Q2}'s padding in the trash and the conspiracy theories are flying.",
    "{Q1} spilled a drink on {Q2}'s outfit and blamed it on nerves.",
    "{Q1} is manifesting a win and sage-smudging the lounge while {Q2} coughs dramatically.",
    "{Q1} called {Q2} out for coasting and the entire room went silent.",
    "{Q1} is practicing her exit speech even though {Q2} thinks she's safe."
  ]

  /** The catalog has eleven episodes, numbered from 1 in catalog order, each scored on at least one category. */
  lemma EpisodeCatalog()
    ensures |EPISODES| == EPISODE_COUNT
    ensures forall i :: 0 <= i < |EPISODES| ==> EPISODES[i].number == i + 1 && |EPISODES[i].challengeType| >= 1
  {
  }

  /**
   * The contestants' ids in cast order, listed once more as a proof aid: `InitialCast` shows
   * that the cast's ids are these, and `CastIdsDistinct` that these differ pairwise.
   */
  const CAST_IDS: seq<string> := ["1", "2", "3", "4", "5", "6", "7", "8", "9", "10", "11", "12", "13", "14"]

  /** The ids differ pairwise: they differ in length or in their last digit. */
  lemma CastIdsDistinct()
    ensures Distinct(CAST_IDS)
  {
    forall i, j | 0 <= i < j < |CAST_IDS| ensures CAST_IDS[i] != CAST_IDS[j] {
      if |CAST_IDS[i]| == |CAST_IDS[j]| {
        assert CAST_IDS[i][|CAST_IDS[i]| - 1] != CAST_IDS[j][|CAST_IDS[j]| - 1];
      }
    }
  }

  /** The starting cast: fourteen active contestants with distinct ids and empty track records. */
  lemma InitialCast()
    ensures |INITIAL_CAST| == 14 && DistinctIds(INITIAL_CAST)
    ensures forall i :: 0 <= i < |INITIAL_CAST| ==>
      INITIAL_CAST[i].status == Active && INITIAL_CAST[i].trackRecord == [] && INITIAL_CAST[i].eliminatedEpisode == None
  {
    assert forall i :: 0 <= i < |INITIAL_CAST| ==> INITIAL_CAST[i].id == CAST_IDS[i];
    CastIdsDistinct();
  }
}
