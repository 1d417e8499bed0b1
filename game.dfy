/** The match model of backend/models/game.py: teams with a cyclic player index,
    the two-sided word card, the round in flight, the configuration and the match
    itself, with its turn pointer and its special-round counters. */
module GameModel {
  import opened Common

  /** The end of the board: a team at this position has won. */
  const FinishLine: int := 30

  datatype Player = Player(name: string)

  /** One entry of a word card side. */
  datatype CardWord = CardWord(text: string, level: int, isBonus: bool, isCursed: bool)

  datatype Card = Card(yellowWords: seq<CardWord>, blueWords: seq<CardWord>)

  /** Lifecycle of a match. */
  datatype Phase = Waiting | Playing | Finished

  /** The match configuration. The game's three probability settings
      (`bonus_chance`, `challenge_chance`, `cursed_chance`) are not fields
      here: every roll against them is an injected boolean. */
  datatype Config = Config(
    roundTime: int,
    wordsPerSide: nat,
    maxChallengesPerGame: nat,
    maxCursedPerGame: nat)

  /** The dataclass defaults of `GameConfig`. */
  const DefaultConfig: Config := Config(30, 5, 3, 2)

  /** At most one word of a side carries the bonus marker. */
  predicate AtMostOneBonus(side: seq<CardWord>) {
    forall i, j :: 0 <= i < |side| && 0 <= j < |side| && side[i].isBonus && side[j].isBonus ==> i == j
  }

  /** At most one word of a side carries the cursed marker. */
  predicate AtMostOneCursed(side: seq<CardWord>) {
    forall i, j :: 0 <= i < |side| && 0 <= j < |side| && side[i].isCursed && side[j].isCursed ==> i == j
  }

  /** No word of a side carries both markers. */
  predicate OneMarkerPerWord(side: seq<CardWord>) {
    forall i :: 0 <= i < |side| ==> !(side[i].isBonus && side[i].isCursed)
  }

  predicate WellMarked(side: seq<CardWord>) {
    AtMostOneBonus(side) && AtMostOneCursed(side) && OneMarkerPerWord(side)
  }

  class Team {
    const name: string
    const players: seq<Player>
    var position: int
    var currentPlayerIndex: int

    constructor (name: string, players: seq<Player>)
      ensures this.name == name && this.players == players
      ensures position == 0 && currentPlayerIndex == 0
      ensures Valid()
    {
      this.name := name;
      this.players := players;
      position := 0;
      currentPlayerIndex := 0;
    }

    /** The team stands on the board and its index names a player whenever
        there is one. */
    ghost predicate Valid()
      reads this
    {
      && 0 <= position <= FinishLine
      && 0 <= currentPlayerIndex
      && (|players| > 0 ==> currentPlayerIndex < |players|)
    }

    /** None exactly for an empty team; otherwise the player at the index taken
        modulo the team size, which is the index itself while the team is valid. */
    function CurrentPlayer(): (p: Option<Player>)
      reads this
      ensures p.None? <==> players == []
      ensures p.Some? ==> p.value in players
      ensures Valid() && players != [] ==> p == Some(players[currentPlayerIndex])
    {
      if players != [] then Some(players[currentPlayerIndex % |players|]) else None
    }

    /** Passes the turn to the next player of this team, wrapping around; a no-op
        for an empty team. */
    method NextPlayer()
      modifies this`currentPlayerIndex
      ensures currentPlayerIndex == NextIndex(old(currentPlayerIndex), |players|)
      ensures |players| > 0 ==> 0 <= currentPlayerIndex < |players|
      ensures old(Valid()) ==> Valid()
    {
      if players != [] {
        currentPlayerIndex := (currentPlayerIndex + 1) % |players|;
      }
    }
  }

  /** The round in flight. Its kind and content are fixed at creation; the hit
      list and the timer flag change while it runs. */
  class RoundData {
    const roundNumber: int
    const team: int
    const card: Option<Card>
    const isChallenge: bool
    const challengeText: string
    const isCursed: bool
    const cursedWord: string
    var playerHits: seq<string>
    var started: bool

    constructor (roundNumber: int, team: int, card: Option<Card>,
                 isChallenge: bool, challengeText: string,
                 isCursed: bool, cursedWord: string)
      ensures this.roundNumber == roundNumber && this.team == team && this.card == card
      ensures this.isChallenge == isChallenge && this.challengeText == challengeText
      ensures this.isCursed == isCursed && this.cursedWord == cursedWord
      ensures playerHits == [] && !started
    {
      this.roundNumber := roundNumber;
      this.team := team;
      this.card := card;
      this.isChallenge := isChallenge;
      this.challengeText := challengeText;
      this.isCursed := isCursed;
      this.cursedWord := cursedWord;
      playerHits := [];
      started := false;
    }

    /** Exactly one of challenge, cursed and normal (a round with a card), and
        a hit list without repeats. */
    ghost predicate Valid()
      reads this
    {
      && !(isChallenge && isCursed)
      && (card.Some? <==> !isChallenge && !isCursed)
      && NoDuplicates(playerHits)
    }
  }

  class Game {
    const id: string
    const name: string
    const team1: Team
    const team2: Team
    const themes: seq<string>
    const levels: seq<int>
    const config: Config
    var state: Phase
    var currentTeam: int
    var currentRound: int
    var currentRoundData: RoundData?
    var cursedCount: int
    var challengeCount: int

    /** A fresh match waits for its start, team 1 plays first, no round has
        been dealt and no special round has been used. */
    constructor (id: string, name: string, team1: Team, team2: Team,
                 themes: seq<string>, levels: seq<int>, config: Config)
      ensures this.id == id && this.name == name
      ensures this.team1 == team1 && this.team2 == team2
      ensures this.themes == themes && this.levels == levels && this.config == config
      ensures state == Waiting && currentTeam == 1 && currentRound == 0
      ensures currentRoundData == null && cursedCount == 0 && challengeCount == 0
    {
      this.id := id;
      this.name := name;
      this.team1 := team1;
      this.team2 := team2;
      this.themes := themes;
      this.levels := levels;
      this.config := config;
      state := Waiting;
      currentTeam := 1;
      currentRound := 0;
      currentRoundData := null;
      cursedCount := 0;
      challengeCount := 0;
    }

    /** The objects a match owns. */
    ghost function Repr(): set<object>
      reads this
    {
      {this, team1, team2} + (if currentRoundData == null then {} else {currentRoundData})
    }

    /** The match invariant: two distinct teams on the board, a turn pointer of
        1 or 2, special-round counters within their caps, and a round in flight
        (if any) that is of one kind only and, when
        it carries a card, has `wordsPerSide` words per side with at most one
        bonus, no cursed marker on either side. */
    ghost predicate Valid()
      reads this, team1, team2, currentRoundData
    {
      && team1 != team2
      && team1.Valid() && team2.Valid()
      && (currentTeam == 1 || currentTeam == 2)
      && 0 <= currentRound
      && 0 <= challengeCount <= config.maxChallengesPerGame
      && 0 <= cursedCount <= config.maxCursedPerGame
      && (currentRoundData != null ==> RoundOk(currentRoundData))
    }

    ghost predicate RoundOk(r: RoundData)
      reads this, r
    {
      && r.Valid()
      && (r.card.Some? ==>
            && |r.card.value.yellowWords| == config.wordsPerSide
            && |r.card.value.blueWords| == config.wordsPerSide
            && WellMarked(r.card.value.yellowWords)
            && WellMarked(r.card.value.blueWords)
            && (forall i :: 0 <= i < |r.card.value.yellowWords| ==> !r.card.value.yellowWords[i].isCursed)
            && (forall i :: 0 <= i < |r.card.value.blueWords| ==> !r.card.value.blueWords[i].isCursed))
    }

    /** Between operations the round in flight is the active team's. */
    ghost predicate RoundOwnedByActiveTeam()
      reads this, currentRoundData
    {
      currentRoundData != null ==> currentRoundData.team == currentTeam
    }

    /** Team 1 when the pointer is 1, team 2 otherwise. */
    function CurrentTeam(): (t: Team)
      reads this
      ensures t == team1 || t == team2
      ensures team1 != team2 ==> (t == team1 <==> currentTeam == 1)
    {
      if currentTeam == 1 then team1 else team2
    }

    /** The team that is not playing. */
    function OtherTeam(): (t: Team)
      reads this
      ensures t == team1 || t == team2
      ensures team1 != team2 ==> t != CurrentTeam()
    {
      if currentTeam == 1 then team2 else team1
    }

    /** A cursed round may still be dealt: one more stays within the cap. */
    predicate CanHaveCursed()
      reads this
      ensures CanHaveCursed() ==> cursedCount + 1 <= config.maxCursedPerGame
      ensures !CanHaveCursed() ==> cursedCount >= config.maxCursedPerGame
    {
      cursedCount < config.maxCursedPerGame
    }

    /** A challenge round may still be dealt: one more stays within the cap. */
    predicate CanHaveChallenge()
      reads this
      ensures CanHaveChallenge() ==> challengeCount + 1 <= config.maxChallengesPerGame
      ensures !CanHaveChallenge() ==> challengeCount >= config.maxChallengesPerGame
    {
      challengeCount < config.maxChallengesPerGame
    }

    /** Ends the turn: the active team's next player is up and the other team
        becomes active. The waiting team is untouched. */
    method AdvanceTurn()
      requires Valid()
      modifies this`currentTeam, team1`currentPlayerIndex, team2`currentPlayerIndex
      ensures Valid()
      ensures currentTeam == if old(currentTeam) == 1 then 2 else 1
      ensures old(CurrentTeam()).currentPlayerIndex
                == NextIndex(old(CurrentTeam().currentPlayerIndex), |old(CurrentTeam()).players|)
      ensures old(OtherTeam()).currentPlayerIndex == old(OtherTeam().currentPlayerIndex)
      ensures CurrentTeam() == old(OtherTeam()) && OtherTeam() == old(CurrentTeam())
    {
      var current := CurrentTeam();
      current.NextPlayer();
      currentTeam := if currentTeam == 1 then 2 else 1;
    }
  }

  /** Identifiers are drawn from the upper-case letters and the digits. */
  const IdAlphabet: string := "ABCDEFGHIJKLMNOPQRSTUVWXYZ0123456789"

  predicate IsIdChar(c: char) {
    'A' <= c <= 'Z' || '0' <= c <= '9'
  }

  /** A well-formed match identifier: four characters over A-Z and 0-9. */
  predicate IsGameId(s: string) {
    |s| == 4 && forall i :: 0 <= i < |s| ==> IsIdChar(s[i])
  }

  /** An identifier typed in lower case upper-cases back to itself, so the
      case-folding lookup finds the match however its id is typed. */
  lemma UpperLowerId(id: string)
    requires IsGameId(id)
    ensures Upper(Lower(id)) == id
  {
    assert forall i :: 0 <= i < |id| ==> UpperChar(LowerChar(id[i])) == id[i];
  }

  /** Four injected choices, each an index into the alphabet. */
  predicate IsIdDraw(draw: seq<nat>) {
    |draw| == 4 && forall i :: 0 <= i < 4 ==> draw[i] < |IdAlphabet|
  }

  /** `generate_id`: the characters picked by the four choices. The result is a
      well-formed identifier and is already in upper case, so the case-folding
      lookup finds the match under it. */
  function GenerateId(draw: seq<nat>): (id: string)
    requires IsIdDraw(draw)
    ensures IsGameId(id)
    ensures Upper(id) == id
  {
    var id := seq(4, i requires 0 <= i < 4 => IdAlphabet[draw[i]]);
    assert forall k :: 0 <= k < |IdAlphabet| ==> IsIdChar(IdAlphabet[k]);
    UpperIsUpperCase(id);
    id
  }
}
