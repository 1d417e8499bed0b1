/** The match registry and round engine of backend/services/game_service.py:
    matches keyed by their identifier, the lifecycle and round counter of each
    match, the choice of round kind under the per-match caps, the deal of a
    normal card through the word service, hit registration, and the three
    resolutions that move the acting team, detect the winner and pass the
    turn. Every random draw is an input. */
module Games {
  import opened Common
  import opened GameModel
  import opened Words
  import opened Scoring
  import opened Catalogs

  /** The keys of `create_game`'s request that the engine reads; an absent key
      is `None` and takes its default. */
  datatype CreateRequest = CreateRequest(
    name: Option<string>,
    team1Name: Option<string>, team1Players: Option<seq<string>>,
    team2Name: Option<string>, team2Players: Option<seq<string>>,
    themes: Option<seq<string>>, levels: Option<seq<int>>,
    roundTime: Option<int>, wordsPerSide: Option<nat>)

  /** `data.get(key, default)`. */
  function Or<T>(o: Option<T>, default: T): (r: T)
    ensures o.Some? ==> r == o.value
    ensures o.None? ==> r == default
  {
    if o.Some? then o.value else default
  }

  function ToPlayers(names: seq<string>): (ps: seq<Player>)
    ensures |ps| == |names| && forall i :: 0 <= i < |names| ==> ps[i] == Player(names[i])
  {
    seq(|names|, i requires 0 <= i < |names| => Player(names[i]))
  }

  /** The random input of one `prepare_round`: the challenge and cursed rolls,
      the indices `random.choice` picks, and for a normal round the shuffle and
      one bonus roll per word and side. */
  datatype RoundDraw = RoundDraw(
    challengeRoll: bool, cursedRoll: bool,
    challengeChoice: nat, cursedChoice: nat,
    shuffle: seq<nat>, yellowBonus: seq<bool>, blueBonus: seq<bool>)

  /** `n` rolls against a probability of zero: all fail. */
  function NoRolls(n: nat): (r: seq<bool>)
    ensures |r| == n && forall i :: 0 <= i < n ==> !r[i]
  {
    seq(n, i => false)
  }

  /** The card draw of a normal round: `prepare_round` passes `cursed_chance=0`,
      so every cursed roll fails. */
  function CardDrawOf(draw: RoundDraw, wordsPerSide: nat): CardDraw {
    CardDraw(draw.shuffle, draw.yellowBonus, NoRolls(wordsPerSide), draw.blueBonus, NoRolls(wordsPerSide))
  }

  /** What a match asks the word service for. */
  function RequestOf(g: Game): CardRequest {
    CardRequest(g.themes, g.levels, g.config.wordsPerSide)
  }

  /** Python truthiness of the reported winner: a name, and not the empty one. */
  predicate Truthy(winner: Option<string>) {
    winner.Some? && winner.value != ""
  }

  /** The common tail of the three resolutions, relating the match before and
      after: the winner is the acting team's name exactly when that team stands
      on the finish line, and then the match is finished; the counters are
      kept; the turn passes
      (the acting team's next player is up and the other team becomes active)
      unless the winner is truthy; the round in flight is cleared. */
  twostate predicate TurnSettled(g: Game, new winner: Option<string>)
    reads g, g.team1, g.team2
  {
    var t := old(g.CurrentTeam());
    && (winner.Some? <==> t.position >= FinishLine)
    && (winner.Some? ==> winner.value == t.name && g.state == Finished)
    && (winner.None? ==> g.state == old(g.state))
    && g.currentRoundData == null
    && g.currentRound == old(g.currentRound)
    && g.challengeCount == old(g.challengeCount) && g.cursedCount == old(g.cursedCount)
    && (if Truthy(winner) then
          && g.currentTeam == old(g.currentTeam)
          && g.team1.currentPlayerIndex == old(g.team1.currentPlayerIndex)
          && g.team2.currentPlayerIndex == old(g.team2.currentPlayerIndex)
        else
          && g.currentTeam == (if old(g.currentTeam) == 1 then 2 else 1)
          && t.currentPlayerIndex == NextIndex(old(t.currentPlayerIndex), |t.players|)
          && old(g.OtherTeam()).currentPlayerIndex == old(g.OtherTeam().currentPlayerIndex))
  }

  /** Win check, turn passing and round clearing, as each resolution ends. */
  method SettleTurn(g: Game) returns (winner: Option<string>)
    requires g.Valid()
    modifies g`state, g`currentTeam, g`currentRoundData, g.team1`currentPlayerIndex, g.team2`currentPlayerIndex
    ensures TurnSettled(g, winner)
    ensures g.Valid()
  {
    var current := g.CurrentTeam();
    winner := None;
    if current.position >= FinishLine {
      g.state := Finished;
      winner := Some(current.name);
    }
    if !Truthy(winner) {
      g.AdvanceTurn();
    }
    g.currentRoundData := null;
  }

  /** A match as `create_game` builds it from a request: the request's
      values or their defaults, both teams on the start with their first
      player up, team 1 to play, waiting, with no round and nothing counted. */
  ghost predicate Created(game: Game, req: CreateRequest, id: string)
    reads game, game.team1, game.team2
  {
    && game.id == id
    && game.name == Or(req.name, "Partida 30 Segundos")
    && game.team1.name == Or(req.team1Name, "Time Amarelo")
    && game.team1.players == ToPlayers(Or(req.team1Players, ["Jogador 1"]))
    && game.team2.name == Or(req.team2Name, "Time Azul")
    && game.team2.players == ToPlayers(Or(req.team2Players, ["Jogador 1"]))
    && game.team1.position == 0 && game.team2.position == 0
    && game.team1.currentPlayerIndex == 0 && game.team2.currentPlayerIndex == 0
    && game.themes == Or(req.themes, ["geral"]) && game.levels == Or(req.levels, [1, 2])
    && game.config == Config(Or(req.roundTime, 30), Or(req.wordsPerSide, 5), 3, 2)
    && game.state == Waiting && game.currentTeam == 1 && game.currentRound == 0
    && game.currentRoundData == null && game.cursedCount == 0 && game.challengeCount == 0
  }

  /** The two teams and the match of `create_game`. */
  method NewMatch(req: CreateRequest, id: string) returns (game: Game)
    ensures fresh(game) && fresh(game.team1) && fresh(game.team2)
    ensures game.Valid() && Created(game, req, id)
  {
    var team1 := new Team(Or(req.team1Name, "Time Amarelo"), ToPlayers(Or(req.team1Players, ["Jogador 1"])));
    var team2 := new Team(Or(req.team2Name, "Time Azul"), ToPlayers(Or(req.team2Players, ["Jogador 1"])));
    var config := Config(Or(req.roundTime, 30), Or(req.wordsPerSide, 5), 3, 2);
    game := new Game(id, Or(req.name, "Partida 30 Segundos"), team1, team2,
                     Or(req.themes, ["geral"]), Or(req.levels, [1, 2]), config);
  }

  /** The acting team lands on `position`, then the turn is settled. */
  method MoveAndSettle(g: Game, position: int) returns (winner: Option<string>)
    requires g.Valid() && 0 <= position <= FinishLine
    modifies g`state, g`currentTeam, g`currentRoundData
    modifies g.team1`position, g.team1`currentPlayerIndex, g.team2`position, g.team2`currentPlayerIndex
    ensures old(g.CurrentTeam()).position == position
    ensures old(g.OtherTeam()).position == old(g.OtherTeam().position)
    ensures TurnSettled(g, winner)
    ensures g.Valid() && g.RoundOwnedByActiveTeam()
  {
    var current := g.CurrentTeam();
    current.position := position;
    winner := SettleTurn(g);
  }

  /** Two matches share no team and no round in flight. */
  ghost predicate Apart(g: Game, h: Game)
    reads g, h
  {
    && g.team1 != h.team1 && g.team1 != h.team2
    && g.team2 != h.team1 && g.team2 != h.team2
    && (g.currentRoundData == null || g.currentRoundData != h.currentRoundData)
  }

  class GameService {
    var games: map<string, Game>
    const words: WordService
    const challenges: seq<string>
    const cursedWords: seq<string>

    /** An empty registry over the word service, with the challenge and cursed
        lists built from its bank. */
    constructor (words: WordService)
      requires words.Valid()
      ensures this.words == words && games == map[]
      ensures challenges == LoadChallenges(words.wordBanks)
      ensures cursedWords == CursedWordList(words.wordBanks)
      ensures Valid()
    {
      this.words := words;
      games := map[];
      challenges := LoadChallenges(words.wordBanks);
      var cursed := LoadCursedWords(words.wordBanks);
      CursedWordListFacts(words.wordBanks);
      cursedWords := cursed;
    }

    ghost function Games(): set<Game>
      reads this
    {
      set id | id in games :: games[id]
    }

    /** The teams and rounds in flight of the registered matches. */
    ghost function Parts(): set<object>
      reads this, Games()
    {
      (set id | id in games :: games[id].team1)
        + (set id | id in games :: games[id].team2)
        + (set id | id in games && games[id].currentRoundData != null :: games[id].currentRoundData)
    }

    /** The registry invariant: every key is a well-formed identifier naming
        the match stored under it; every match is valid and its round in
        flight belongs to its active team; no two matches share an object;
        every registered match has a word pool; the phrase lists are
        non-empty. */
    ghost predicate Valid()
      reads this, words, Games(), Parts()
    {
      && words.Valid()
      && |challenges| > 0 && |cursedWords| > 0
      && (forall id :: id in games ==> IsGameId(id) && games[id].id == id)
      && (forall id :: id in games ==> games[id].Valid() && games[id].RoundOwnedByActiveTeam())
      && (forall id, id' :: id in games && id' in games && id != id' ==> Apart(games[id], games[id']))
      && (forall id :: id in games ==> id in words.usedWords)
    }

    /** `get_game`: the match under the upper-cased identifier, if any. */
    function GetGame(id: string): (g: Game?)
      reads this
      ensures g != null <==> Upper(id) in games
      ensures g != null ==> g == games[Upper(id)]
    {
      if Upper(id) in games then games[Upper(id)] else null
    }

    /** The round in flight of the match `id` names, if any. */
    function CurrentRoundOf(id: string): (r: RoundData?)
      reads this, Games()
      ensures r != null ==> Upper(id) in games && r == games[Upper(id)].currentRoundData
      ensures Upper(id) in games ==> r == games[Upper(id)].currentRoundData
    {
      var g := GetGame(id);
      if g == null then null else g.currentRoundData
    }

    /** The objects an operation on `id` may touch. */
    ghost function Target(id: string): set<object>
      reads this
    {
      if Upper(id) in games then {games[Upper(id)]} else {}
    }

    ghost function TargetRound(id: string): set<object>
      reads this, Games()
    {
      if CurrentRoundOf(id) != null then {CurrentRoundOf(id)} else {}
    }

    ghost function TargetTeams(id: string): set<object>
      reads this, Games()
    {
      if Upper(id) in games then {games[Upper(id)], games[Upper(id)].team1, games[Upper(id)].team2} else {}
    }

    /** The lookup ignores case: any spelling of a registered identifier finds
        the match, and the lower-case spelling in particular. */
    lemma GetGameIgnoresCase(id: string)
      requires Valid()
      ensures GetGame(id) == GetGame(Upper(id))
      ensures forall k :: k in games ==> GetGame(Lower(k)) == games[k]
    {
      UpperIsUpperCase(id);
      UpperIsUpperCase(Upper(id));
      forall k | k in games ensures GetGame(Lower(k)) == games[k] {
        UpperLowerId(k);
      }
    }

    /** Registry validity survives a change confined to one match: the match
        stays valid, its round in flight is the old one, a new one or none,
        the other matches and their teams and rounds are untouched, and no word
        pool disappears. */
    twostate lemma LocalChange(key: string)
      requires old(Valid())
      requires key in old(games) && games == old(games)
      requires forall k :: k in old(words.usedWords) ==> k in words.usedWords
      requires games[key].Valid() && games[key].RoundOwnedByActiveTeam()
      requires var r := games[key].currentRoundData;
        r == null || r == old(games[key].currentRoundData) || fresh(r)
      requires forall k :: k in games && k != key ==>
        && unchanged(games[k], games[k].team1, games[k].team2)
        && (games[k].currentRoundData != null ==> unchanged(games[k].currentRoundData))
      ensures Valid()
    {
      forall k | k in games ensures games[k].Valid() && games[k].RoundOwnedByActiveTeam() {
        if k != key {
          assert old(games[k].Valid() && games[k].RoundOwnedByActiveTeam());
        }
      }
      forall k, k' | k in games && k' in games && k != k' ensures Apart(games[k], games[k']) {
        assert old(Apart(games[k], games[k']));
        assert old(Apart(games[k'], games[k]));
      }
    }

    /** Registry validity survives registering a fresh match under a new
        well-formed key that has a word pool, the old matches untouched. */
    twostate lemma FreshRegistered(key: string)
      requires old(Valid())
      requires key !in old(games) && IsGameId(key)
      requires key in games && games == old(games)[key := games[key]]
      requires fresh(games[key].team1) && fresh(games[key].team2)
      requires games[key].id == key && games[key].Valid() && games[key].currentRoundData == null
      requires key in words.usedWords && forall k :: k in old(words.usedWords) ==> k in words.usedWords
      requires forall k :: k in old(games) ==>
        && unchanged(games[k], games[k].team1, games[k].team2)
        && (games[k].currentRoundData != null ==> unchanged(games[k].currentRoundData))
      ensures Valid()
    {
      forall k | k in games ensures games[k].Valid() && games[k].RoundOwnedByActiveTeam() {
        if k != key {
          assert old(games[k].Valid() && games[k].RoundOwnedByActiveTeam());
        }
      }
      forall k, k' | k in games && k' in games && k != k' ensures Apart(games[k], games[k']) {
        if k != key && k' != key {
          assert old(Apart(games[k], games[k']));
        }
      }
    }

    /** `create_game` with the fresh identifier the regeneration loop settled
        on: a new match built from the request is registered under that
        identifier, with an empty word pool. */
    method CreateGame(req: CreateRequest, idDraw: seq<nat>) returns (game: Game)
      requires Valid()
      requires IsIdDraw(idDraw) && GenerateId(idDraw) !in games
      modifies this`games, words`usedWords
      ensures Valid()
      ensures fresh(game) && fresh(game.team1) && fresh(game.team2)
      ensures games == old(games)[game.id := game]
      ensures words.usedWords == old(words.usedWords)[game.id := {}]
      ensures Created(game, req, GenerateId(idDraw))
    {
      var gameId := GenerateId(idDraw);
      game := NewMatch(req, gameId);
      games := games[gameId := game];
      words.InitGamePool(gameId);
      FreshRegistered(gameId);
    }

    /** `start_game`: the match plays from round 0 with both special-round
        counters cleared; its teams, turn and round in flight are kept. */
    method StartGame(id: string) returns (game: Game?)
      requires Valid()
      modifies Target(id)
      ensures Valid()
      ensures game == GetGame(id)
      ensures game != null ==>
        && game.state == Playing && game.currentRound == 0
        && game.cursedCount == 0 && game.challengeCount == 0
        && game.currentTeam == old(game.currentTeam)
        && game.currentRoundData == old(game.currentRoundData)
        && game.team1.position == old(game.team1.position)
        && game.team2.position == old(game.team2.position)
    {
      game := GetGame(id);
      if game != null {
        game.state := Playing;
        game.currentRound := 0;
        game.cursedCount := 0;
        game.challengeCount := 0;
        LocalChange(Upper(id));
      }
    }

    /** What a draw must supply: choices within the phrase lists and, when the
        round turns out normal, a permutation of the candidates the word service
        will collect and one bonus roll per word of each side. */
    ghost predicate DrawFits(g: Game, id: string, draw: RoundDraw)
      reads g`challengeCount, g`cursedCount, words`usedWords
    {
      && draw.challengeChoice < |challenges|
      && draw.cursedChoice < |cursedWords|
      && (SelectKind(g.challengeCount < g.config.maxChallengesPerGame, draw.challengeRoll,
                     g.cursedCount < g.config.maxCursedPerGame, draw.cursedRoll).Normal? ==>
            && |draw.yellowBonus| == g.config.wordsPerSide
            && |draw.blueBonus| == g.config.wordsPerSide
            && IsPermutation(draw.shuffle, |Available(words.wordBanks, PoolOf(words.usedWords, id), RequestOf(g))|))
    }

    /** What the kind decision of `prepare_round` leaves behind. A challenge
        round uses up one unit of the challenge cap and carries the chosen
        challenge; a cursed round uses up one unit of the cursed cap and
        carries the chosen cursed word; a normal round leaves both counters and
        carries the card the word service deals under the identifier as given
        (the pool then moves on as the deal says), and there is no round
        exactly when no card can be dealt. */
    twostate predicate RoundChosen(g: Game, id: string, draw: RoundDraw, new round: RoundData?)
      requires old(DrawFits(g, id, draw))
      reads g`challengeCount, g`cursedCount, words`usedWords, round
    {
      var kind := SelectKind(old(g.challengeCount) < g.config.maxChallengesPerGame, draw.challengeRoll,
                             old(g.cursedCount) < g.config.maxCursedPerGame, draw.cursedRoll);
      match kind
      case Challenge =>
        && round != null && round.isChallenge && !round.isCursed && round.card.None?
        && round.challengeText == challenges[draw.challengeChoice]
        && g.challengeCount == old(g.challengeCount) + 1 && g.cursedCount == old(g.cursedCount)
        && words.usedWords == old(words.usedWords)
      case Cursed =>
        && round != null && round.isCursed && !round.isChallenge && round.card.None?
        && round.cursedWord == cursedWords[draw.cursedChoice]
        && g.cursedCount == old(g.cursedCount) + 1 && g.challengeCount == old(g.challengeCount)
        && words.usedWords == old(words.usedWords)
      case Normal =>
        var pool := PoolOf(old(words.usedWords), id);
        var card := Deal(words.wordBanks, pool, RequestOf(g), CardDrawOf(draw, g.config.wordsPerSide));
        && g.challengeCount == old(g.challengeCount) && g.cursedCount == old(g.cursedCount)
        && words.usedWords == old(words.usedWords)[id := PoolAfterDeal(words.wordBanks, pool, RequestOf(g), draw.shuffle)]
        && (card.None? <==> round == null)
        && (card.Some? ==> round != null && round.card == card && !round.isChallenge && !round.isCursed)
    }

    /** The body of `prepare_round` after the round counter: settles the
        kind, uses up a cap or deals a card, and builds round `number` for the
        active team, or none when no card can be dealt. */
    method NewRound(g: Game, id: string, draw: RoundDraw, number: int) returns (round: RoundData?)
      requires g.Valid() && words.Valid()
      requires DrawFits(g, id, draw)
      modifies g`challengeCount, g`cursedCount, words
      ensures g.Valid()
      ensures round != null ==>
        && fresh(round) && g.RoundOk(round)
        && round.roundNumber == number && round.team == g.currentTeam
        && round.playerHits == [] && !round.started
      ensures RoundChosen(g, id, draw, round)
    {
      var isChallenge := false;
      if g.CanHaveChallenge() {
        isChallenge := draw.challengeRoll;
      }
      var isCursed := false;
      if !isChallenge && g.CanHaveCursed() {
        isCursed := draw.cursedRoll;
      }

      if isChallenge {
        var text := challenges[draw.challengeChoice];
        g.challengeCount := g.challengeCount + 1;
        round := new RoundData(number, g.currentTeam, None, true, text, false, "");
      } else if isCursed {
        var word := cursedWords[draw.cursedChoice];
        g.cursedCount := g.cursedCount + 1;
        round := new RoundData(number, g.currentTeam, None, false, "", true, word);
      } else {
        var n := g.config.wordsPerSide;
        ghost var pool := PoolOf(words.usedWords, id);
        var card := words.GetCardWords(id, RequestOf(g), CardDrawOf(draw, n));
        if card.None? {
          return null;
        }
        DealShape(words.wordBanks, pool, RequestOf(g), CardDrawOf(draw, n));
        DealUncursed(words.wordBanks, pool, RequestOf(g), CardDrawOf(draw, n));
        round := new RoundData(number, g.currentTeam, card, false, "", false, "");
      }
    }

    /** `prepare_round`: counts the round, settles its kind and stores the new
        round for the active team (`RoundChosen` says how). When no card can be
        dealt the round counter has still moved on and the round in flight is
        kept. The match's state is not checked. */
    method PrepareRound(id: string, draw: RoundDraw) returns (round: RoundData?)
      requires Valid()
      requires Upper(id) in games ==> DrawFits(games[Upper(id)], id, draw)
      modifies Target(id), words
      ensures Valid()
      ensures Upper(id) !in games ==> round == null && words.usedWords == old(words.usedWords)
      ensures Upper(id) in games ==>
        var g := games[Upper(id)];
        && g.currentRound == old(g.currentRound) + 1
        && g.state == old(g.state) && g.currentTeam == old(g.currentTeam)
        && (round != null ==>
              && fresh(round) && g.currentRoundData == round
              && round.roundNumber == g.currentRound && round.team == g.currentTeam
              && round.playerHits == [] && !round.started)
        && (round == null ==> g.currentRoundData == old(g.currentRoundData))
        && RoundChosen(g, id, draw, round)
    {
      var g := GetGame(id);
      if g == null {
        return null;
      }
      round := PrepareOn(g, id, draw);
      LocalChange(Upper(id));
    }

    /** `prepare_round` once the match is found: the counter, the kind and
        the stored round, stated for the match alone. */
    method PrepareOn(g: Game, id: string, draw: RoundDraw) returns (round: RoundData?)
      requires g.Valid() && g.RoundOwnedByActiveTeam() && words.Valid()
      requires DrawFits(g, id, draw)
      modifies g, words
      ensures g.Valid() && g.RoundOwnedByActiveTeam()
      ensures forall k :: k in old(words.usedWords) ==> k in words.usedWords
      ensures g.currentRound == old(g.currentRound) + 1
      ensures g.state == old(g.state) && g.currentTeam == old(g.currentTeam)
      ensures round != null ==>
        && fresh(round) && g.currentRoundData == round
        && round.roundNumber == g.currentRound && round.team == g.currentTeam
        && round.playerHits == [] && !round.started
      ensures round == null ==> g.currentRoundData == old(g.currentRoundData)
      ensures RoundChosen(g, id, draw, round)
    {
      var number := g.currentRound + 1;
      round := NewRound(g, id, draw, number);
      g.currentRound := number;
      if round != null {
        g.currentRoundData := round;
      }
    }

    /** `start_timer`: marks the round in flight as started. */
    method StartTimer(id: string) returns (round: RoundData?)
      requires Valid()
      modifies TargetRound(id)
      ensures Valid()
      ensures round == CurrentRoundOf(id)
      ensures round != null ==> round.started && round.playerHits == old(round.playerHits)
    {
      var g := GetGame(id);
      if g == null || g.currentRoundData == null {
        return null;
      }
      round := g.currentRoundData;
      round.started := true;
      LocalChange(Upper(id));
    }

    /** `register_hit`: false when there is no round in flight; otherwise the
        word joins the round's hit list unless it is already there. */
    method RegisterHit(id: string, word: string) returns (ok: bool)
      requires Valid()
      modifies TargetRound(id)
      ensures Valid()
      ensures ok <==> CurrentRoundOf(id) != null
      ensures ok ==> CurrentRoundOf(id).playerHits == AddHit(old(CurrentRoundOf(id).playerHits), word)
      ensures ok ==> CurrentRoundOf(id).started == old(CurrentRoundOf(id).started)
    {
      var g := GetGame(id);
      if g == null || g.currentRoundData == null {
        return false;
      }
      var round := g.currentRoundData;
      if word !in round.playerHits {
        round.playerHits := round.playerHits + [word];
      }
      ok := true;
      LocalChange(Upper(id));
    }

    /** `end_round`: reports the hits of the round in flight without changing
        anything. */
    method EndRound(id: string) returns (hits: Option<seq<string>>)
      ensures hits.Some? <==> CurrentRoundOf(id) != null
      ensures hits.Some? ==> hits.value == CurrentRoundOf(id).playerHits
    {
      var g := GetGame(id);
      if g == null || g.currentRoundData == null {
        return None;
      }
      hits := Some(g.currentRoundData.playerHits);
    }

    /** The bonus-counting loop of `confirm_round`: card words of both sides
        flagged bonus whose text was confirmed. */
    method CountBonusHits(card: Option<Card>, confirmed: seq<string>) returns (bonus: nat)
      ensures bonus == CardBonusHits(card, confirmed)
    {
      bonus := 0;
      if card.Some? {
        var all := card.value.yellowWords + card.value.blueWords;
        for i := 0 to |all|
          invariant bonus == BonusHits(all[..i], confirmed)
        {
          assert all[..i + 1][..i] == all[..i];
          if all[i].text in confirmed && all[i].isBonus {
            bonus := bonus + 1;
          }
        }
        assert all[..|all|] == all;
      }
    }

    /** `confirm_round`: the acting team moves forward by the confirmed count
        (repeats included) plus the confirmed bonus words, stopping at the
        finish line; then the turn is settled. The round's kind is not
        checked. */
    method ConfirmRound(id: string, confirmed: seq<string>) returns (result: Option<RoundResult>)
      requires Valid()
      modifies TargetTeams(id)
      ensures Valid()
      ensures old(CurrentRoundOf(id)) == null ==> result.None? && unchanged(TargetTeams(id))
      ensures old(CurrentRoundOf(id)) != null ==>
        var g := games[Upper(id)];
        var t := old(g.CurrentTeam());
        var bonus := CardBonusHits(old(g.currentRoundData.card), confirmed);
        var moves := |confirmed| + bonus;
        && t.position == MoveForward(old(t.position), moves)
        && old(g.OtherTeam()).position == old(g.OtherTeam().position)
        && result.Some?
        && result.value == RoundResult(|confirmed|, bonus, moves, false, false, result.value.winner)
        && TurnSettled(g, result.value.winner)
    {
      var g := GetGame(id);
      if g == null || g.currentRoundData == null {
        return None;
      }
      var r := ConfirmOn(g, confirmed);
      LocalChange(Upper(id));
      result := Some(r);
    }

    /** `confirm_round` once the round in flight is found, stated for the
        match alone. */
    method ConfirmOn(g: Game, confirmed: seq<string>) returns (result: RoundResult)
      requires g.Valid() && g.currentRoundData != null
      modifies g`state, g`currentTeam, g`currentRoundData
      modifies g.team1`position, g.team1`currentPlayerIndex, g.team2`position, g.team2`currentPlayerIndex
      ensures g.Valid() && g.RoundOwnedByActiveTeam()
      ensures var t := old(g.CurrentTeam());
        var bonus := CardBonusHits(old(g.currentRoundData.card), confirmed);
        var moves := |confirmed| + bonus;
        && t.position == MoveForward(old(t.position), moves)
        && old(g.OtherTeam()).position == old(g.OtherTeam().position)
        && result == RoundResult(|confirmed|, bonus, moves, false, false, result.winner)
        && TurnSettled(g, result.winner)
    {
      var round := g.currentRoundData;
      var hits := |confirmed|;
      var bonus := CountBonusHits(round.card, confirmed);
      CardBonusHitsBound(round.card, confirmed);
      var moves := hits + bonus;
      var winner := MoveAndSettle(g, MoveForward(g.CurrentTeam().position, moves));
      result := RoundResult(hits, bonus, moves, false, false, winner);
    }

    /** `resolve_challenge`: the acting team moves 5 forward when the
        challenge was completed and 2 back otherwise, within the board; then
        the turn is settled. The round's kind is not checked. */
    method ResolveChallenge(id: string, completed: bool) returns (result: Option<RoundResult>)
      requires Valid()
      modifies TargetTeams(id)
      ensures Valid()
      ensures old(CurrentRoundOf(id)) == null ==> result.None? && unchanged(TargetTeams(id))
      ensures old(CurrentRoundOf(id)) != null ==>
        var g := games[Upper(id)];
        var t := old(g.CurrentTeam());
        && t.position == ChallengePosition(old(t.position), completed)
        && old(g.OtherTeam()).position == old(g.OtherTeam().position)
        && result.Some?
        && result.value == RoundResult(if completed then 1 else 0, 0, ChallengeMoves(completed),
                                       true, false, result.value.winner)
        && TurnSettled(g, result.value.winner)
    {
      var g := GetGame(id);
      if g == null || g.currentRoundData == null {
        return None;
      }
      var position := g.CurrentTeam().position;
      var moves;
      if completed {
        moves := 5;
        position := MoveForward(position, moves);
      } else {
        moves := -2;
        position := MoveBack(position, 2);
      }
      var winner := MoveAndSettle(g, position);
      LocalChange(Upper(id));
      result := Some(RoundResult(if completed then 1 else 0, 0, moves, true, false, winner));
    }

    /** `resolve_cursed`: the acting team moves 2 forward when the cursed word
        was guessed and 5 back otherwise, within the board; then the turn is
        settled. The round's kind is not checked. */
    method ResolveCursed(id: string, guessed: bool) returns (result: Option<RoundResult>)
      requires Valid()
      modifies TargetTeams(id)
      ensures Valid()
      ensures old(CurrentRoundOf(id)) == null ==> result.None? && unchanged(TargetTeams(id))
      ensures old(CurrentRoundOf(id)) != null ==>
        var g := games[Upper(id)];
        var t := old(g.CurrentTeam());
        && t.position == CursedPosition(old(t.position), guessed)
        && old(g.OtherTeam()).position == old(g.OtherTeam().position)
        && result.Some?
        && result.value == RoundResult(if guessed then 1 else 0, 0, CursedMoves(guessed),
                                       false, true, result.value.winner)
        && TurnSettled(g, result.value.winner)
    {
      var g := GetGame(id);
      if g == null || g.currentRoundData == null {
        return None;
      }
      var position := g.CurrentTeam().position;
      var moves;
      if guessed {
        moves := 2;
        position := MoveForward(position, moves);
      } else {
        moves := -5;
        position := MoveBack(position, 5);
      }
      var winner := MoveAndSettle(g, position);
      LocalChange(Upper(id));
      result := Some(RoundResult(if guessed then 1 else 0, 0, moves, false, true, winner));
    }

    /** `delete_game`: under the identifier exactly as given (no case folding),
        drops the word pool and the match and reports true; an unknown key
        changes nothing and reports false. */
    method DeleteGame(id: string) returns (ok: bool)
      requires Valid()
      modifies this`games, words`usedWords
      ensures Valid()
      ensures ok <==> id in old(games)
      ensures ok ==> games == old(games) - {id} && words.usedWords == old(words.usedWords) - {id}
      ensures !ok ==> games == old(games) && words.usedWords == old(words.usedWords)
    {
      if id in games {
        words.ClearGamePool(id);
        games := games - {id};
        Removed(id);
        return true;
      }
      return false;
    }

    /** Registry validity survives dropping a match together with its pool,
        the remaining matches untouched. */
    twostate lemma Removed(key: string)
      requires old(Valid())
      requires games == old(games) - {key} && words.usedWords == old(words.usedWords) - {key}
      requires forall k :: k in games ==>
        && unchanged(games[k], games[k].team1, games[k].team2)
        && (games[k].currentRoundData != null ==> unchanged(games[k].currentRoundData))
      ensures Valid()
    {
      forall k | k in games ensures games[k].Valid() && games[k].RoundOwnedByActiveTeam() {
        assert old(games[k].Valid() && games[k].RoundOwnedByActiveTeam());
      }
      forall k, k' | k in games && k' in games && k != k' ensures Apart(games[k], games[k']) {
        assert old(Apart(games[k], games[k']));
      }
    }
  }
}
