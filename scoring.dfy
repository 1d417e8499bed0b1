/** The arithmetic of backend/services/game_service.py: which kind of round is
    dealt, how far a resolved round moves the acting team, and the clamping of
    the pawn to the board. */
module Scoring {
  import opened Common
  import opened GameModel

  /** The kind of a prepared round. */
  datatype RoundKind = Challenge | Cursed | Normal

  /** The kind `prepare_round` settles on: a challenge when the cap allows one
      and its roll succeeds; otherwise a cursed round when that cap allows one
      and its roll succeeds; otherwise a normal round. */
  function SelectKind(canChallenge: bool, challengeRoll: bool, canCursed: bool, cursedRoll: bool): (k: RoundKind)
    ensures k.Challenge? <==> canChallenge && challengeRoll
    ensures k.Cursed? <==> !(canChallenge && challengeRoll) && canCursed && cursedRoll
    ensures k.Normal? <==> !(canChallenge && challengeRoll) && !(canCursed && cursedRoll)
  {
    if canChallenge && challengeRoll then Challenge
    else if canCursed && cursedRoll then Cursed
    else Normal
  }

  /** With the challenge cap reached, no draw yields a challenge round. */
  lemma CappedChallengeNeverDrawn(canCursed: bool, challengeRoll: bool, cursedRoll: bool)
    ensures SelectKind(false, challengeRoll, canCursed, cursedRoll) != Challenge
    ensures SelectKind(false, challengeRoll, canCursed, cursedRoll) == Cursed <==> canCursed && cursedRoll
  {
  }

  /** The board: a position clamped to `0..FinishLine`. */
  function Clamp(x: int): (r: int)
    ensures 0 <= r <= FinishLine
    ensures 0 <= x <= FinishLine ==> r == x
  {
    if x < 0 then 0 else if x > FinishLine then FinishLine else x
  }

  /** `min(30, position + moves)`: a forward move stops at the finish line. */
  function MoveForward(position: int, moves: nat): (r: int)
    requires 0 <= position <= FinishLine
    ensures position <= r <= FinishLine
    ensures r == Clamp(position + moves)
    ensures r == FinishLine <==> position + moves >= FinishLine
  {
    if position + moves < FinishLine then position + moves else FinishLine
  }

  /** `max(0, position - steps)`: a backward move stops at the start. */
  function MoveBack(position: int, steps: nat): (r: int)
    requires 0 <= position <= FinishLine
    ensures 0 <= r <= position
    ensures r == Clamp(position - steps)
    ensures steps > 0 ==> r < FinishLine
  {
    if position - steps > 0 then position - steps else 0
  }

  /** The reported `moves` of a challenge: +5 when completed, -2 otherwise. */
  function ChallengeMoves(completed: bool): int {
    if completed then 5 else -2
  }

  /** The reported `moves` of a cursed round: +2 when guessed, -5 otherwise. */
  function CursedMoves(guessed: bool): int {
    if guessed then 2 else -5
  }

  /** The position after a challenge: forward 5 or back 2. */
  function ChallengePosition(position: int, completed: bool): (r: int)
    requires 0 <= position <= FinishLine
    ensures r == Clamp(position + ChallengeMoves(completed))
    ensures completed ==> r >= position
    ensures !completed ==> r <= position && r < FinishLine
  {
    if completed then MoveForward(position, 5) else MoveBack(position, 2)
  }

  /** The position after a cursed round: forward 2 or back 5. */
  function CursedPosition(position: int, guessed: bool): (r: int)
    requires 0 <= position <= FinishLine
    ensures r == Clamp(position + CursedMoves(guessed))
    ensures guessed ==> r >= position
    ensures !guessed ==> r <= position && r < FinishLine
  {
    if guessed then MoveForward(position, 2) else MoveBack(position, 5)
  }

  /** The number of words of a side flagged bonus whose text was confirmed. */
  function BonusHits(words: seq<CardWord>, confirmed: seq<string>): (n: nat)
    ensures n <= |words|
  {
    if words == [] then 0
    else
      var w := words[|words| - 1];
      BonusHits(words[..|words| - 1], confirmed) + (if w.text in confirmed && w.isBonus then 1 else 0)
  }

  /** A side without bonus words yields no bonus hit. */
  lemma {:induction false} NoBonusNoHits(words: seq<CardWord>, confirmed: seq<string>)
    requires forall i :: 0 <= i < |words| ==> !words[i].isBonus
    ensures BonusHits(words, confirmed) == 0
  {
    if words != [] {
      NoBonusNoHits(words[..|words| - 1], confirmed);
    }
  }

  /** A well-marked side has at most one bonus word, so it contributes at most
      one bonus hit. */
  lemma {:induction false} BonusHitsAtMostOne(words: seq<CardWord>, confirmed: seq<string>)
    requires AtMostOneBonus(words)
    ensures BonusHits(words, confirmed) <= 1
  {
    if words != [] {
      var init := words[..|words| - 1];
      if words[|words| - 1].isBonus {
        forall i | 0 <= i < |init| ensures !init[i].isBonus {
          assert init[i] == words[i];
        }
        NoBonusNoHits(init, confirmed);
      } else {
        assert AtMostOneBonus(init) by {
          forall i, j | 0 <= i < |init| && 0 <= j < |init| && init[i].isBonus && init[j].isBonus ensures i == j {
            assert init[i] == words[i] && init[j] == words[j];
          }
        }
        BonusHitsAtMostOne(init, confirmed);
      }
    }
  }

  /** A side whose bonus words all went unconfirmed yields no bonus hit. */
  lemma {:induction false} UnconfirmedBonusNoHits(words: seq<CardWord>, confirmed: seq<string>)
    requires forall i :: 0 <= i < |words| && words[i].isBonus ==> words[i].text !in confirmed
    ensures BonusHits(words, confirmed) == 0
  {
    if words != [] {
      UnconfirmedBonusNoHits(words[..|words| - 1], confirmed);
    }
  }

  /** On a side with at most one bonus word, confirming that word's text
      yields exactly one bonus hit. */
  lemma {:induction false} ConfirmedBonusCounts(words: seq<CardWord>, confirmed: seq<string>, i: nat)
    requires AtMostOneBonus(words)
    requires i < |words| && words[i].isBonus && words[i].text in confirmed
    ensures BonusHits(words, confirmed) == 1
  {
    var last := |words| - 1;
    var init := words[..last];
    if i == last {
      forall j | 0 <= j < |init| ensures !init[j].isBonus {
        assert init[j] == words[j];
      }
      NoBonusNoHits(init, confirmed);
    } else {
      assert !words[last].isBonus;
      assert init[i] == words[i];
      assert AtMostOneBonus(init) by {
        forall a, b | 0 <= a < |init| && 0 <= b < |init| && init[a].isBonus && init[b].isBonus ensures a == b {
          assert init[a] == words[a] && init[b] == words[b];
        }
      }
      ConfirmedBonusCounts(init, confirmed, i);
    }
  }

  /** The bonus hits of a card: both sides. */
  function CardBonusHits(card: Option<Card>, confirmed: seq<string>): nat {
    match card
    case None => 0
    case Some(c) => BonusHits(c.yellowWords + c.blueWords, confirmed)
  }

  lemma {:induction false} BonusHitsAppend(a: seq<CardWord>, b: seq<CardWord>, confirmed: seq<string>)
    ensures BonusHits(a + b, confirmed) == BonusHits(a, confirmed) + BonusHits(b, confirmed)
  {
    if b != [] {
      var init := b[..|b| - 1];
      BonusHitsAppend(a, init, confirmed);
      assert (a + b)[..|a + b| - 1] == a + init;
    } else {
      assert a + b == a;
    }
  }

  /** A card with well-marked sides yields at most two bonus hits, whatever was
      confirmed; a round without a card yields none. */
  lemma CardBonusHitsBound(card: Option<Card>, confirmed: seq<string>)
    requires card.Some? ==> WellMarked(card.value.yellowWords) && WellMarked(card.value.blueWords)
    ensures CardBonusHits(card, confirmed) <= 2
    ensures card.None? ==> CardBonusHits(card, confirmed) == 0
  {
    if card.Some? {
      BonusHitsAppend(card.value.yellowWords, card.value.blueWords, confirmed);
      BonusHitsAtMostOne(card.value.yellowWords, confirmed);
      BonusHitsAtMostOne(card.value.blueWords, confirmed);
    }
  }

  /** A confirmed text that no bonus word carries adds no bonus hit. */
  lemma {:induction false} BonusHitsIgnoresOtherTexts(words: seq<CardWord>, confirmed: seq<string>, extra: string)
    requires forall i :: 0 <= i < |words| && words[i].isBonus ==> words[i].text != extra
    ensures BonusHits(words, confirmed + [extra]) == BonusHits(words, confirmed)
  {
    if words != [] {
      BonusHitsIgnoresOtherTexts(words[..|words| - 1], confirmed, extra);
    }
  }

  /** Appending a text to the hit list unless it is already there. */
  function AddHit(hits: seq<string>, word: string): (r: seq<string>)
    ensures forall x :: x in r <==> x in hits || x == word
    ensures NoDuplicates(hits) ==> NoDuplicates(r)
    ensures |r| >= |hits| && r[..|hits|] == hits
    ensures word in hits ==> r == hits
    ensures word !in hits ==> |r| == |hits| + 1 && r[|hits|] == word
  {
    if word in hits then hits else hits + [word]
  }

  /** Registering the same word again changes nothing. */
  lemma AddHitIdempotent(hits: seq<string>, word: string)
    ensures AddHit(AddHit(hits, word), word) == AddHit(hits, word)
  {
  }

  /** The structured result a resolution reports. `hits` is 1 or 0 for the
      special rounds (completed or guessed), `moves` the signed delta before
      clamping, and `winner` the acting team's name when it reached the finish. */
  datatype RoundResult = RoundResult(
    hits: int, bonus: int, moves: int,
    wasChallenge: bool, wasCursed: bool,
    winner: Option<string>)
}
