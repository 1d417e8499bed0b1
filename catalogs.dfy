/** The two phrase lists the match registry builds at start-up
    (`_load_challenges` and `_load_cursed_words` of
    backend/services/game_service.py): the challenge texts and the cursed-round
    words, both derived from the word bank with built-in fallbacks. */
module Catalogs {
  import opened Common
  import opened Words

  /** The theme whose entries are challenges rather than words. */
  const ChallengeTheme: string := "desafios"

  /** The challenges used when the bank has no challenge theme. */
  const FallbackChallenges: seq<string> := [
    "Conte de 1 a 50 em 30 segundos",
    "Diga 10 capitais de países",
    "Faça 15 polichinelos",
    "Imite 5 animais diferentes",
    "Diga o alfabeto de trás para frente",
    "Nomeie 10 marcas de carro",
    "Cante um trecho de 3 músicas diferentes",
    "Diga 10 times de futebol",
    "Faça 10 flexões",
    "Diga 10 cores em inglês",
    "Nomeie 8 países da Europa",
    "Diga 10 frutas em 15 segundos",
    "Faça mímica de 3 profissões",
    "Conte de 100 a 70 de trás para frente",
    "Diga 10 verbos em inglês"
  ]

  /** Hard words and short descriptive phrases always offered for cursed
      rounds. */
  const DefaultCursedWords: seq<string> := [
    "Incompreensível",
    "Arqueologia",
    "Hipótese",
    "Ecossistema",
    "Filantropia",
    "Nanotecnologia",
    "Hereditariedade",
    "Metamorfose",
    "Perpendicular",
    "Sonoridade",
    "Um lugar onde o tempo parece parar",
    "Algo que se transforma completamente",
    "Uma ideia quase impossível de acreditar",
    "Quando duas coisas ficam com a mesma temperatura",
    "Uma memória que nunca desaparece",
    "Um som que ecoa ao longe",
    "Um objeto que ninguém sabe de onde veio",
    "Uma descoberta que muda tudo",
    "Uma viagem sem destino certo",
    "Algo raríssimo de acontecer"
  ]

  /** `_load_challenges`: the texts of the challenge theme in bank order when
      the bank has one, the fallback list otherwise. A loaded bank never yields
      an empty list, so a challenge can always be picked. */
  function LoadChallenges(bank: Bank): (r: seq<string>)
    ensures Lookup(bank, ChallengeTheme).None? ==> r == FallbackChallenges
    ensures Lookup(bank, ChallengeTheme).Some? ==>
      var ws := Lookup(bank, ChallengeTheme).value;
      |r| == |ws| && forall i :: 0 <= i < |ws| ==> r[i] == ws[i].word
    ensures WellFormedBank(bank) ==> |r| > 0
  {
    match Lookup(bank, ChallengeTheme)
    case None => FallbackChallenges
    case Some(ws) => seq(|ws|, i requires 0 <= i < |ws| => ws[i].word)
  }

  /** The words of level 4 or more of one theme, in order. */
  function HardWordsOf(ws: seq<WordEntry>): seq<string> {
    if ws == [] then []
    else
      var e := ws[|ws| - 1];
      HardWordsOf(ws[..|ws| - 1]) + (if e.level >= 4 then [e.word] else [])
  }

  /** The words of level 4 or more of the whole bank, theme by theme. */
  function HardWords(bank: Bank): seq<string> {
    if bank == [] then []
    else HardWords(bank[..|bank| - 1]) + HardWordsOf(bank[|bank| - 1].words)
  }

  /** `acc` followed by each element of `extra` that is not already present. */
  function AddMissing(acc: seq<string>, extra: seq<string>): seq<string> {
    if extra == [] then acc
    else
      var prev := AddMissing(acc, extra[..|extra| - 1]);
      var x := extra[|extra| - 1];
      if x in prev then prev else prev + [x]
  }

  /** The cursed-round list: the hard words of the bank, then every default
      phrase the bank did not already supply. */
  function CursedWordList(bank: Bank): seq<string> {
    AddMissing(HardWords(bank), DefaultCursedWords)
  }

  lemma {:induction false} HardWordsOfMembership(ws: seq<WordEntry>, w: string)
    ensures w in HardWordsOf(ws) <==> exists e :: e in ws && e.level >= 4 && e.word == w
  {
    if ws != [] {
      var init := ws[..|ws| - 1];
      HardWordsOfMembership(init, w);
      assert ws == init + [ws[|ws| - 1]];
    }
  }

  /** A hard word is exactly a bank word of level 4 or more. */
  lemma {:induction false} HardWordsMembership(bank: Bank, w: string)
    ensures w in HardWords(bank) <==>
      exists i, e :: 0 <= i < |bank| && e in bank[i].words && e.level >= 4 && e.word == w
  {
    if bank != [] {
      var init := bank[..|bank| - 1];
      var last := bank[|bank| - 1];
      HardWordsMembership(init, w);
      HardWordsOfMembership(last.words, w);
      if w in HardWords(init) {
        var i, e :| 0 <= i < |init| && e in init[i].words && e.level >= 4 && e.word == w;
        assert bank[i] == init[i];
      }
      if exists i, e :: 0 <= i < |bank| && e in bank[i].words && e.level >= 4 && e.word == w {
        var i, e :| 0 <= i < |bank| && e in bank[i].words && e.level >= 4 && e.word == w;
        if i < |init| {
          assert init[i] == bank[i];
        }
      }
    }
  }

  /** Adding the missing elements keeps `acc` as a prefix, adds exactly the
      elements of `extra` that were absent, and never introduces a repeat. */
  lemma {:induction false} AddMissingFacts(acc: seq<string>, extra: seq<string>)
    ensures |AddMissing(acc, extra)| >= |acc| && AddMissing(acc, extra)[..|acc|] == acc
    ensures forall x :: x in AddMissing(acc, extra) <==> x in acc || x in extra
    ensures NoDuplicates(acc) ==> NoDuplicates(AddMissing(acc, extra))
  {
    if extra != [] {
      var init := extra[..|extra| - 1];
      AddMissingFacts(acc, init);
      assert extra == init + [extra[|extra| - 1]];
      var prev := AddMissing(acc, init);
      assert (prev + [extra[|extra| - 1]])[..|acc|] == prev[..|acc|];
    }
  }

  /** The cursed list starts with the bank's hard words, contains every default
      phrase, holds nothing else, and is never empty. */
  lemma CursedWordListFacts(bank: Bank)
    ensures |CursedWordList(bank)| >= |HardWords(bank)|
    ensures var r := CursedWordList(bank);
      && r[..|HardWords(bank)|] == HardWords(bank)
      && (forall d :: d in DefaultCursedWords ==> d in r)
      && |r| > 0
    ensures forall w :: w in CursedWordList(bank) <==>
      w in DefaultCursedWords || exists i, e :: 0 <= i < |bank| && e in bank[i].words && e.level >= 4 && e.word == w
  {
    AddMissingFacts(HardWords(bank), DefaultCursedWords);
    forall w ensures w in HardWords(bank) <==>
      exists i, e :: 0 <= i < |bank| && e in bank[i].words && e.level >= 4 && e.word == w
    {
      HardWordsMembership(bank, w);
    }
    assert DefaultCursedWords[0] in CursedWordList(bank);
  }

  /** `_load_cursed_words`: the append loops that build the cursed list. */
  method LoadCursedWords(bank: Bank) returns (cursed: seq<string>)
    ensures cursed == CursedWordList(bank)
  {
    cursed := [];
    for t := 0 to |bank|
      invariant cursed == HardWords(bank[..t])
    {
      assert bank[..t + 1][..t] == bank[..t];
      var ws := bank[t].words;
      for k := 0 to |ws|
        invariant cursed == HardWords(bank[..t]) + HardWordsOf(ws[..k])
      {
        assert ws[..k + 1][..k] == ws[..k];
        if ws[k].level >= 4 {
          cursed := cursed + [ws[k].word];
        }
      }
      assert ws[..|ws|] == ws;
    }
    assert bank[..|bank|] == bank;
    for d := 0 to |DefaultCursedWords|
      invariant cursed == AddMissing(HardWords(bank), DefaultCursedWords[..d])
    {
      assert DefaultCursedWords[..d + 1][..d] == DefaultCursedWords[..d];
      var word := DefaultCursedWords[d];
      if word !in cursed {
        cursed := cursed + [word];
      }
    }
    assert DefaultCursedWords[..|DefaultCursedWords|] == DefaultCursedWords;
  }
}
