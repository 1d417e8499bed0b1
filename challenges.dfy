/** The stand-alone challenge picker of backend/services/challenge_service.py:
    a fixed list of challenges and the set of those already handed out; a
    pick avoids the used ones until every challenge has been used, and then
    starts over. */
module Challenges {

  /** The thirty built-in challenges. */
  const DefaultChallenges: seq<string> := [
    "Conte de 1 até 50 em 30 segundos!",
    "Diga 10 países que começam com a letra 'A'",
    "Faça 15 polichinelos em 30 segundos",
    "Diga o alfabeto de trás para frente",
    "Nomeie 10 capitais de países europeus",
    "Diga 15 animais em ordem alfabética",
    "Faça 20 agachamentos em 30 segundos",
    "Diga 10 filmes de ação dos anos 90",
    "Nomeie 12 times de futebol brasileiros",
    "Diga 10 marcas de carros diferentes",
    "Cante o refrão de 3 músicas diferentes",
    "Diga 10 frutas em ordem alfabética",
    "Nomeie 8 presidentes do Brasil",
    "Diga 10 cores em inglês",
    "Faça mímica de 3 profissões para o time adivinhar",
    "Diga 10 verbos no passado em inglês",
    "Nomeie 10 instrumentos musicais",
    "Diga os 12 meses do ano de trás para frente",
    "Nomeie 10 super-heróis da Marvel ou DC",
    "Diga 10 palavras que rimam com 'amor'",
    "Imite 3 animais diferentes (som e gesto)",
    "Diga 10 tipos de comida italiana",
    "Nomeie 8 estados brasileiros e suas capitais",
    "Diga 10 palavras em espanhol",
    "Desenhe algo para o time adivinhar (sem falar)",
    "Diga 10 séries de TV famosas",
    "Nomeie 10 jogadores de futebol famosos",
    "Diga 10 partes do corpo humano em inglês",
    "Cante uma música inteira sem errar a letra",
    "Diga 15 objetos que cabem em uma mochila"
  ]

  /** The challenges not yet used, in list order. */
  function Unused(challenges: seq<string>, used: set<string>): seq<string> {
    if challenges == [] then []
    else
      Unused(challenges[..|challenges| - 1], used)
        + (if challenges[|challenges| - 1] in used then [] else [challenges[|challenges| - 1]])
  }

  /** The list a pick is drawn from: the unused challenges, or the whole list
      once every challenge has been used. */
  function Choices(challenges: seq<string>, used: set<string>): seq<string> {
    var unused := Unused(challenges, used);
    if unused == [] then challenges else unused
  }

  /** A challenge is unused exactly when it is listed and not in the used set. */
  lemma {:induction false} UnusedMembership(challenges: seq<string>, used: set<string>, c: string)
    ensures c in Unused(challenges, used) <==> c in challenges && c !in used
  {
    if challenges != [] {
      var init := challenges[..|challenges| - 1];
      UnusedMembership(init, used, c);
      assert challenges == init + [challenges[|challenges| - 1]];
    }
  }

  /** The unused list is empty exactly when every challenge has been used. */
  lemma AllUsed(challenges: seq<string>, used: set<string>)
    ensures Unused(challenges, used) == [] <==> forall c :: c in challenges ==> c in used
  {
    if Unused(challenges, used) != [] {
      UnusedMembership(challenges, used, Unused(challenges, used)[0]);
    }
    forall c | c in challenges && c !in used ensures c in Unused(challenges, used) {
      UnusedMembership(challenges, used, c);
    }
  }

  /** Marking an unused challenge as used shortens the unused list, so picks
      without a reset cannot go on for ever. */
  lemma {:induction false} UnusedShrinks(challenges: seq<string>, used: set<string>, c: string)
    requires c in Unused(challenges, used)
    ensures |Unused(challenges, used + {c})| < |Unused(challenges, used)|
  {
    UnusedMembership(challenges, used, c);
    var init := challenges[..|challenges| - 1];
    var last := challenges[|challenges| - 1];
    UnusedNotLonger(init, used, c);
    if last != c {
      assert challenges == init + [last];
      UnusedMembership(init, used, c);
      UnusedShrinks(init, used, c);
    }
  }

  /** Adding to the used set never lengthens the unused list. */
  lemma {:induction false} UnusedNotLonger(challenges: seq<string>, used: set<string>, c: string)
    ensures |Unused(challenges, used + {c})| <= |Unused(challenges, used)|
  {
    if challenges != [] {
      UnusedNotLonger(challenges[..|challenges| - 1], used, c);
    }
  }

  class ChallengeService {
    const challenges: seq<string>
    var usedChallenges: set<string>

    /** The built-in list with nothing used. */
    constructor ()
      ensures challenges == DefaultChallenges && usedChallenges == {}
      ensures Valid()
    {
      challenges := DefaultChallenges;
      usedChallenges := {};
    }

    /** Only listed challenges are ever marked used. */
    ghost predicate Valid()
      reads this
    {
      forall c :: c in usedChallenges ==> c in challenges
    }

    /** `get_random_challenge` with the index `random.choice` picked: an unused
        challenge while there is one; otherwise the used set is cleared and any
        challenge may come. The pick is then marked used. */
    method GetRandomChallenge(choice: nat) returns (c: string)
      requires Valid()
      requires choice < |Choices(challenges, usedChallenges)|
      modifies this
      ensures Valid()
      ensures c in challenges && c in usedChallenges
      ensures Unused(challenges, old(usedChallenges)) != [] ==>
        c !in old(usedChallenges) && usedChallenges == old(usedChallenges) + {c}
      ensures Unused(challenges, old(usedChallenges)) == [] ==> usedChallenges == {c}
      ensures c == Choices(challenges, old(usedChallenges))[choice]
    {
      var available := Unused(challenges, usedChallenges);
      if available == [] {
        usedChallenges := {};
        available := challenges;
      }
      c := available[choice];
      UnusedMembership(challenges, old(usedChallenges), c);
      usedChallenges := usedChallenges + {c};
    }

    /** `reset`: nothing is used any more. */
    method Reset()
      modifies this
      ensures usedChallenges == {}
      ensures Valid()
    {
      usedChallenges := {};
    }
  }
}
