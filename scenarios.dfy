/** Walk-throughs of the match registry, each stated as a client of
    `GameService` and proved from the operations' contracts alone: a winning
    challenge, a cursed round lost at the start of the board, a challenge cap
    that has been reached, resolutions after the match is over, deletion under
    a lower-case identifier, a confirmed round with a bonus word, and a whole
    first turn from creation to resolution. */
module Scenarios {
  import opened Common
  import opened GameModel
  import opened Scoring
  import opened Games

  /** A team two squares from the finish that completes its challenge stops on
      the finish line, wins and finishes the match. */
  method ChallengeWins(svc: GameService, id: string) returns (result: Option<RoundResult>)
    requires svc.Valid() && svc.CurrentRoundOf(id) != null
    requires svc.games[Upper(id)].CurrentTeam().position == 28
    modifies svc.TargetTeams(id)
    ensures var g := svc.games[Upper(id)];
      && old(g.CurrentTeam()).position == FinishLine
      && result == Some(RoundResult(1, 0, 5, true, false, Some(old(g.CurrentTeam().name))))
      && g.state == Finished
  {
    result := svc.ResolveChallenge(id, true);
  }

  /** A team on square 1 that misses its cursed word falls back to the start,
      not below it; nobody wins and the other team takes the turn. */
  method CursedFromSquareOne(svc: GameService, id: string) returns (result: Option<RoundResult>)
    requires svc.Valid() && svc.CurrentRoundOf(id) != null
    requires svc.games[Upper(id)].CurrentTeam().position == 1
    modifies svc.TargetTeams(id)
    ensures var g := svc.games[Upper(id)];
      && old(g.CurrentTeam()).position == 0
      && result == Some(RoundResult(0, 0, -5, false, true, None))
      && g.currentTeam != old(g.currentTeam)
  {
    result := svc.ResolveCursed(id, false);
  }

  /** Once a match has used up its challenges, preparing a round never yields
      a challenge, whatever the rolls. */
  method CappedChallenge(svc: GameService, id: string, draw: RoundDraw) returns (round: RoundData?)
    requires svc.Valid() && Upper(id) in svc.games
    requires var g := svc.games[Upper(id)];
      g.challengeCount == g.config.maxChallengesPerGame && svc.DrawFits(g, id, draw)
    modifies svc.Target(id), svc.words
    ensures round != null ==> !round.isChallenge
    ensures svc.games[Upper(id)].challengeCount == svc.games[Upper(id)].config.maxChallengesPerGame
  {
    round := svc.PrepareRound(id, draw);
  }

  /** Nothing stops a finished match: a later challenge still moves the acting
      team and the match stays finished. */
  method ResolveAfterFinish(svc: GameService, id: string) returns (result: Option<RoundResult>)
    requires svc.Valid() && svc.CurrentRoundOf(id) != null
    requires var g := svc.games[Upper(id)]; g.state == Finished && g.CurrentTeam().position == 10
    modifies svc.TargetTeams(id)
    ensures var g := svc.games[Upper(id)];
      && old(g.CurrentTeam()).position == 15
      && result == Some(RoundResult(1, 0, 5, true, false, None))
      && g.state == Finished
  {
    result := svc.ResolveChallenge(id, true);
  }

  /** Deletion does not fold case: the lower-case spelling of an identifier
      holding a letter finds the match through the lookup but deletes
      nothing. */
  method DeleteLowerCase(svc: GameService, key: string, i: nat) returns (ok: bool)
    requires svc.Valid() && key in svc.games
    requires i < |key| && IsUpper(key[i])
    modifies svc, svc.words
    ensures !ok && svc.games == old(svc.games)
    ensures svc.GetGame(Lower(key)) == svc.games[key]
  {
    UpperLowerId(key);
    assert !IsIdChar(Lower(key)[i]);
    ok := svc.DeleteGame(Lower(key));
  }

  /** A match created with the defaults and started: team 1 is up, nobody
      has moved and no special round has been played. */
  method NewStartedMatch(svc: GameService, req: CreateRequest, idDraw: seq<nat>) returns (id: string)
    requires svc.Valid()
    requires IsIdDraw(idDraw) && GenerateId(idDraw) !in svc.games
    requires req.roundTime.None? && req.wordsPerSide.None?
    modifies svc, svc.words
    ensures svc.Valid() && id == GenerateId(idDraw) && id in svc.games
    ensures var g := svc.games[id];
      && g.state == Playing && g.currentTeam == 1 && g.currentRound == 0
      && g.challengeCount == 0 && g.cursedCount == 0 && g.currentRoundData == null
      && g.team1.position == 0 && g.team2.position == 0
      && g.config == DefaultConfig
  {
    var game := svc.CreateGame(req, idDraw);
    id := game.id;
    var started := svc.StartGame(id);
    assert started == game;
  }

  /** The first round of a fresh match rolls a challenge, which is completed:
      team 1 moves to square 5 and team 2 is up next. */
  method FirstChallenge(svc: GameService, id: string, draw: RoundDraw) returns (result: Option<RoundResult>)
    requires svc.Valid() && id in svc.games && IsGameId(id)
    requires var g := svc.games[id];
      && g.state == Playing && g.currentTeam == 1 && g.currentRound == 0
      && g.challengeCount == 0 && g.cursedCount == 0 && g.currentRoundData == null
      && g.team1.position == 0 && g.team2.position == 0
      && g.config.maxChallengesPerGame > 0
    requires draw.challengeRoll
    requires draw.challengeChoice < |svc.challenges| && draw.cursedChoice < |svc.cursedWords|
    modifies svc.Target(id), svc.TargetTeams(id), svc.words
    ensures id in svc.games
    ensures result == Some(RoundResult(1, 0, 5, true, false, None))
    ensures var g := svc.games[id];
      && g.team1.position == 5 && g.team2.position == 0
      && g.currentTeam == 2 && g.challengeCount == 1 && g.currentRound == 1
      && g.state == Playing
  {
    UpperIsUpperCase(id);
    assert svc.games[id].CanHaveChallenge();
    var round := svc.PrepareRound(id, draw);
    assert round != null && round.isChallenge;
    result := svc.ResolveChallenge(id, true);
  }

  /** A team on the start square confirms three of the five yellow words, one
      of them the yellow bonus word, and no blue bonus word: three hits and
      one bonus hit move it four squares, and the other team is up. */
  method ConfirmWithBonus(svc: GameService, id: string, confirmed: seq<string>, i: nat) returns (result: Option<RoundResult>)
    requires svc.Valid() && svc.CurrentRoundOf(id) != null
    requires svc.games[Upper(id)].CurrentTeam().position == 0
    requires var card := svc.CurrentRoundOf(id).card;
      && card.Some? && |card.value.yellowWords| == 5 && WellMarked(card.value.yellowWords)
      && i < 5 && card.value.yellowWords[i].isBonus && card.value.yellowWords[i].text in confirmed
      && (forall j :: 0 <= j < |card.value.blueWords| && card.value.blueWords[j].isBonus ==>
            card.value.blueWords[j].text !in confirmed)
    requires |confirmed| == 3
    modifies svc.TargetTeams(id)
    ensures var g := svc.games[Upper(id)];
      && old(g.CurrentTeam()).position == 4
      && result == Some(RoundResult(3, 1, 4, false, false, None))
      && g.currentTeam != old(g.currentTeam)
  {
    var c := svc.CurrentRoundOf(id).card.value;
    ConfirmedBonusCounts(c.yellowWords, confirmed, i);
    UnconfirmedBonusNoHits(c.blueWords, confirmed);
    BonusHitsAppend(c.yellowWords, c.blueWords, confirmed);
    result := svc.ConfirmRound(id, confirmed);
  }
}
