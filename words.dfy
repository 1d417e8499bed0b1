/** The word pool and card composer of backend/services/word_service.py: the
    per-match set of words already dealt, the theme/level filter over the word
    bank, the single reset-and-retry when the pool runs short, the split of a
    shuffled selection into the yellow and blue sides, and the bonus/cursed
    markers. Every random draw is an input: a permutation for the shuffle and
    one boolean per word and marker for the rolls. */
module Words {
  import opened Common
  import opened GameModel
  import opened Themes

  /** A word of the bank, as the loader normalises it. */
  datatype WordEntry = WordEntry(word: string, level: int)

  /** One theme of the bank. */
  datatype ThemeBank = ThemeBank(id: string, words: seq<WordEntry>)

  /** The word bank in the loader's insertion order. */
  type Bank = seq<ThemeBank>

  /** A word that may be dealt. */
  datatype Candidate = Candidate(text: string, level: int)

  /** What a card is asked for: the match's themes, levels and side size. */
  datatype CardRequest = CardRequest(themes: seq<string>, levels: seq<int>, wordsPerSide: nat)

  /** The random input of one card: the shuffle of the candidates and, per side,
      one bonus roll and one cursed roll per word. */
  datatype CardDraw = CardDraw(
    shuffle: seq<nat>,
    yellowBonus: seq<bool>, yellowCursed: seq<bool>,
    blueBonus: seq<bool>, blueCursed: seq<bool>)

  predicate RollsFit(draw: CardDraw, wordsPerSide: nat) {
    && |draw.yellowBonus| == wordsPerSide && |draw.yellowCursed| == wordsPerSide
    && |draw.blueBonus| == wordsPerSide && |draw.blueCursed| == wordsPerSide
  }

  /** What the loader guarantees: theme ids are unique (they are the keys of
      the loaded dictionary) and no theme is empty (a theme is stored only when
      its word list is not). Word texts may be empty. */
  predicate WellFormedBank(bank: Bank) {
    && (forall i, j :: 0 <= i < j < |bank| ==> bank[i].id != bank[j].id)
    && (forall i :: 0 <= i < |bank| ==> |bank[i].words| > 0)
  }

  /** The words of a theme, when the bank has that theme. */
  function Lookup(bank: Bank, theme: string): (r: Option<seq<WordEntry>>)
    ensures r.Some? ==> exists i :: 0 <= i < |bank| && bank[i].id == theme && bank[i].words == r.value
    ensures r.None? <==> forall i :: 0 <= i < |bank| ==> bank[i].id != theme
  {
    if bank == [] then None
    else if bank[0].id == theme then Some(bank[0].words)
    else
      var r := Lookup(bank[1..], theme);
      assert r.Some? ==> exists i :: 1 <= i < |bank| && bank[i].id == theme && bank[i].words == r.value by {
        if r.Some? {
          var i :| 0 <= i < |bank[1..]| && bank[1..][i].id == theme && bank[1..][i].words == r.value;
          assert bank[i + 1] == bank[1..][i];
        }
      }
      r
  }

  /** The words of one theme that pass the filter, in bank order. */
  function FromWords(ws: seq<WordEntry>, levels: seq<int>, used: set<string>): seq<Candidate> {
    if ws == [] then []
    else
      var e := ws[|ws| - 1];
      FromWords(ws[..|ws| - 1], levels, used)
        + (if e.level in levels && e.word !in used then [Candidate(e.word, e.level)] else [])
  }

  function ThemeCandidates(bank: Bank, theme: string, levels: seq<int>, used: set<string>): seq<Candidate> {
    match Lookup(bank, theme)
    case None => []
    case Some(ws) => FromWords(ws, levels, used)
  }

  /** The candidate list: theme by theme in the requested order, the words of
      the bank at an allowed level whose text is not in `used`. A text listed by
      two requested themes (or twice by one) appears once per listing. */
  function Candidates(bank: Bank, themes: seq<string>, levels: seq<int>, used: set<string>): seq<Candidate> {
    if themes == [] then []
    else
      Candidates(bank, themes[..|themes| - 1], levels, used)
        + ThemeCandidates(bank, themes[|themes| - 1], levels, used)
  }

  /** A requested theme of the bank lists the word at an allowed level. */
  predicate Offered(bank: Bank, themes: seq<string>, levels: seq<int>, c: Candidate) {
    && c.level in levels
    && exists t :: t in themes && Lookup(bank, t).Some? && WordEntry(c.text, c.level) in Lookup(bank, t).value
  }

  lemma {:induction false} FromWordsMembership(ws: seq<WordEntry>, levels: seq<int>, used: set<string>, c: Candidate)
    ensures c in FromWords(ws, levels, used) <==> c.level in levels && c.text !in used && WordEntry(c.text, c.level) in ws
  {
    if ws != [] {
      var init := ws[..|ws| - 1];
      FromWordsMembership(init, levels, used, c);
      assert ws == init + [ws[|ws| - 1]];
    }
  }

  /** Filtering is exact: a candidate is exactly an unused word that a requested
      theme lists at an allowed level. */
  lemma {:induction false} CandidatesMembership(bank: Bank, themes: seq<string>, levels: seq<int>, used: set<string>, c: Candidate)
    ensures c in Candidates(bank, themes, levels, used) <==> Offered(bank, themes, levels, c) && c.text !in used
  {
    if themes != [] {
      var init, last := themes[..|themes| - 1], themes[|themes| - 1];
      CandidatesMembership(bank, init, levels, used, c);
      assert themes == init + [last];
      if Lookup(bank, last).Some? {
        FromWordsMembership(Lookup(bank, last).value, levels, used, c);
      }
      if Offered(bank, themes, levels, c) && c.text !in used {
        var t :| t in themes && Lookup(bank, t).Some? && WordEntry(c.text, c.level) in Lookup(bank, t).value;
        if t != last {
          assert t in init;
        }
      }
    }
  }

  /** The used-word set of a match; a match without one has an empty set. */
  function PoolOf(usedWords: map<string, set<string>>, gameId: string): set<string> {
    if gameId in usedWords then usedWords[gameId] else {}
  }

  /** The pool is reset when the unused candidates cannot fill both sides. */
  predicate Resets(bank: Bank, pool: set<string>, req: CardRequest) {
    |Candidates(bank, req.themes, req.levels, pool)| < 2 * req.wordsPerSide
  }

  /** The pool the selection is drawn against: emptied by the reset, if any. */
  function BasePool(bank: Bank, pool: set<string>, req: CardRequest): set<string> {
    if Resets(bank, pool, req) then {} else pool
  }

  /** The candidates the shuffle permutes. */
  function Available(bank: Bank, pool: set<string>, req: CardRequest): seq<Candidate> {
    Candidates(bank, req.themes, req.levels, BasePool(bank, pool, req))
  }

  predicate IsPermutation(p: seq<nat>, n: nat) {
    && |p| == n
    && (forall i :: 0 <= i < n ==> p[i] < n)
    && (forall i, j :: 0 <= i < j < n ==> p[i] != p[j])
  }

  /** A sequence that places at each `i` the element of `s` that the
      permutation `p` names holds the same elements as `s`, as often. */
  lemma {:induction false} PermutedMultiset<T>(s: seq<T>, p: seq<nat>, r: seq<T>)
    requires IsPermutation(p, |s|)
    requires |r| == |s| && forall i :: 0 <= i < |s| ==> r[i] == s[p[i]]
    ensures multiset(r) == multiset(s)
    decreases |s|
  {
    if |s| > 0 {
      // Drop the element the last place takes from `s`, and renumber the
      // other places of `p` around the gap.
      var n := |s|;
      var k := p[n - 1];
      var s' := s[..k] + s[k + 1..];
      var p' := seq(n - 1, i requires 0 <= i < n - 1 => if p[i] < k then p[i] else p[i] - 1);
      forall i | 0 <= i < n - 1
        ensures p[i] != k && p'[i] < n - 1 && s'[p'[i]] == s[p[i]]
      {
        assert p[i] != p[n - 1];
      }
      forall i, j | 0 <= i < j < n - 1 ensures p'[i] != p'[j] {
        assert p[i] != p[j];
      }
      PermutedMultiset(s', p', r[..n - 1]);
      assert r == r[..n - 1] + [s[k]];
      assert s == s[..k] + [s[k]] + s[k + 1..];
    }
  }

  /** `random.shuffle` with the permutation it happened to pick: the same
      candidates, as often, in the order the permutation names. */
  function Permute<T>(s: seq<T>, p: seq<nat>): (r: seq<T>)
    requires IsPermutation(p, |s|)
    ensures |r| == |s|
    ensures multiset(r) == multiset(s)
    ensures forall i :: 0 <= i < |s| ==> r[i] == s[p[i]]
  {
    var r := seq(|s|, i requires 0 <= i < |s| => s[p[i]]);
    PermutedMultiset(s, p, r);
    r
  }

  /** The `2 * wordsPerSide` words taken from the shuffled candidates. */
  function Selection(bank: Bank, pool: set<string>, req: CardRequest, shuffle: seq<nat>): (sel: seq<Candidate>)
    requires IsPermutation(shuffle, |Available(bank, pool, req)|)
    requires |Available(bank, pool, req)| >= 2 * req.wordsPerSide
    ensures |sel| == 2 * req.wordsPerSide
  {
    Permute(Available(bank, pool, req), shuffle)[..2 * req.wordsPerSide]
  }

  function Texts(s: seq<Candidate>): set<string> {
    set i | 0 <= i < |s| :: s[i].text
  }

  /** `_apply_special_words` as it walks a side: the first word whose bonus roll
      succeeds gets the bonus marker; a word that did not get the bonus gets the
      cursed marker when its cursed roll succeeds and no earlier word has it. */
  function Mark(words: seq<Candidate>, bonusRolls: seq<bool>, cursedRolls: seq<bool>,
                hasBonus: bool, hasCursed: bool): (r: seq<CardWord>)
    requires |bonusRolls| == |words| && |cursedRolls| == |words|
    ensures |r| == |words|
  {
    if words == [] then []
    else
      var bonus := !hasBonus && bonusRolls[0];
      var cursed := !bonus && !hasCursed && cursedRolls[0];
      [CardWord(words[0].text, words[0].level, bonus, cursed)]
        + Mark(words[1..], bonusRolls[1..], cursedRolls[1..], hasBonus || bonus, hasCursed || cursed)
  }

  /** One step of `Mark` from position `i`. */
  lemma MarkUnfold(words: seq<Candidate>, bonusRolls: seq<bool>, cursedRolls: seq<bool>,
                   hasBonus: bool, hasCursed: bool, i: nat)
    requires |bonusRolls| == |words| && |cursedRolls| == |words|
    requires i < |words|
    ensures var bonus := !hasBonus && bonusRolls[i];
      var cursed := !bonus && !hasCursed && cursedRolls[i];
      Mark(words[i..], bonusRolls[i..], cursedRolls[i..], hasBonus, hasCursed)
        == [CardWord(words[i].text, words[i].level, bonus, cursed)]
           + Mark(words[i + 1..], bonusRolls[i + 1..], cursedRolls[i + 1..], hasBonus || bonus, hasCursed || cursed)
  {
    assert words[i..][1..] == words[i + 1..];
    assert bonusRolls[i..][1..] == bonusRolls[i + 1..];
    assert cursedRolls[i..][1..] == cursedRolls[i + 1..];
  }

  /** Marking keeps every word's text, level and place; the bonus goes to the
      first word whose roll succeeded (none if one was already placed), and the
      cursed marker to the first word without the bonus whose cursed roll
      succeeded (none if one was already placed). */
  lemma {:induction false} MarkAt(words: seq<Candidate>, bonusRolls: seq<bool>, cursedRolls: seq<bool>,
                                  hasBonus: bool, hasCursed: bool, i: nat)
    requires |bonusRolls| == |words| && |cursedRolls| == |words|
    requires i < |words|
    ensures var r := Mark(words, bonusRolls, cursedRolls, hasBonus, hasCursed);
      && r[i].text == words[i].text && r[i].level == words[i].level
      && (r[i].isBonus <==> !hasBonus && bonusRolls[i] && forall j :: 0 <= j < i ==> !bonusRolls[j])
      && (r[i].isCursed <==> !r[i].isBonus && cursedRolls[i] && !hasCursed && forall j :: 0 <= j < i ==> !r[j].isCursed)
  {
    var r := Mark(words, bonusRolls, cursedRolls, hasBonus, hasCursed);
    var bonus := !hasBonus && bonusRolls[0];
    var cursed := !bonus && !hasCursed && cursedRolls[0];
    var tail := Mark(words[1..], bonusRolls[1..], cursedRolls[1..], hasBonus || bonus, hasCursed || cursed);
    assert r == [CardWord(words[0].text, words[0].level, bonus, cursed)] + tail;
    if i > 0 {
      var rest, bRest, cRest := words[1..], bonusRolls[1..], cursedRolls[1..];
      MarkAt(rest, bRest, cRest, hasBonus || bonus, hasCursed || cursed, i - 1);
      assert r[i] == tail[i - 1];
      assert bRest[i - 1] == bonusRolls[i] && cRest[i - 1] == cursedRolls[i];
      NoRollBefore(bonusRolls, i);
      NoCursedBefore(r, tail, i);
    }
  }

  lemma NoRollBefore(rolls: seq<bool>, i: nat)
    requires 0 < i <= |rolls|
    ensures (forall j :: 0 <= j < i ==> !rolls[j]) <==> (!rolls[0] && forall j :: 0 <= j < i - 1 ==> !rolls[1..][j])
  {
    if !rolls[0] && forall j :: 0 <= j < i - 1 ==> !rolls[1..][j] {
      forall j | 0 <= j < i ensures !rolls[j] {
        if j > 0 {
          assert rolls[j] == rolls[1..][j - 1];
        }
      }
    }
  }

  lemma NoCursedBefore(r: seq<CardWord>, tail: seq<CardWord>, i: nat)
    requires 0 < i <= |r| && r[1..] == tail
    ensures (forall j :: 0 <= j < i ==> !r[j].isCursed) <==> (!r[0].isCursed && forall j :: 0 <= j < i - 1 ==> !tail[j].isCursed)
  {
    if !r[0].isCursed && forall j :: 0 <= j < i - 1 ==> !tail[j].isCursed {
      forall j | 0 <= j < i ensures !r[j].isCursed {
        if j > 0 {
          assert r[j] == tail[j - 1];
        }
      }
    }
  }

  /** A marked side has at most one bonus, at most one cursed marker and never
      both on one word; with every cursed roll failing there is no cursed word. */
  lemma MarkWellMarked(words: seq<Candidate>, bonusRolls: seq<bool>, cursedRolls: seq<bool>)
    requires |bonusRolls| == |words| && |cursedRolls| == |words|
    ensures WellMarked(Mark(words, bonusRolls, cursedRolls, false, false))
    ensures (forall i :: 0 <= i < |cursedRolls| ==> !cursedRolls[i]) ==>
      forall i :: 0 <= i < |words| ==> !Mark(words, bonusRolls, cursedRolls, false, false)[i].isCursed
  {
    var r := Mark(words, bonusRolls, cursedRolls, false, false);
    forall i | 0 <= i < |words|
      ensures r[i].text == words[i].text && r[i].level == words[i].level
      ensures r[i].isBonus <==> bonusRolls[i] && forall j :: 0 <= j < i ==> !bonusRolls[j]
      ensures r[i].isCursed <==> !r[i].isBonus && cursedRolls[i] && forall j :: 0 <= j < i ==> !r[j].isCursed
    {
      MarkAt(words, bonusRolls, cursedRolls, false, false, i);
    }
    assert WellMarked(r);
  }

  /** The card dealt for a request, given the pool and the draw: `None` when even
      all matching words cannot fill both sides; otherwise the first half of the
      selection, marked, is the yellow side and the second half the blue side. */
  function Deal(bank: Bank, pool: set<string>, req: CardRequest, draw: CardDraw): Option<Card>
    requires RollsFit(draw, req.wordsPerSide)
    requires IsPermutation(draw.shuffle, |Available(bank, pool, req)|)
  {
    if |Available(bank, pool, req)| < 2 * req.wordsPerSide then None
    else
      var sel := Selection(bank, pool, req, draw.shuffle);
      var n := req.wordsPerSide;
      Some(Card(Mark(sel[..n], draw.yellowBonus, draw.yellowCursed, false, false),
                Mark(sel[n..], draw.blueBonus, draw.blueCursed, false, false)))
  }

  /** The match's pool after the deal: the pool the selection was drawn against
      together with the selected texts; empty after a failed deal. */
  function PoolAfterDeal(bank: Bank, pool: set<string>, req: CardRequest, shuffle: seq<nat>): set<string>
    requires IsPermutation(shuffle, |Available(bank, pool, req)|)
  {
    if |Available(bank, pool, req)| < 2 * req.wordsPerSide then {}
    else BasePool(bank, pool, req) + Texts(Selection(bank, pool, req, shuffle))
  }

  /** All texts on a card. */
  function CardTexts(card: Card): set<string> {
    (set i | 0 <= i < |card.yellowWords| :: card.yellowWords[i].text)
      + (set i | 0 <= i < |card.blueWords| :: card.blueWords[i].text)
  }

  /** A deal fails exactly when both the unused and then all matching candidates
      are too few; a failed deal has reset the pool. */
  lemma DealFails(bank: Bank, pool: set<string>, req: CardRequest, draw: CardDraw)
    requires RollsFit(draw, req.wordsPerSide)
    requires IsPermutation(draw.shuffle, |Available(bank, pool, req)|)
    ensures Deal(bank, pool, req, draw).None? <==>
      |Candidates(bank, req.themes, req.levels, pool)| < 2 * req.wordsPerSide
      && |Candidates(bank, req.themes, req.levels, {})| < 2 * req.wordsPerSide
    ensures Deal(bank, pool, req, draw).None? ==> PoolAfterDeal(bank, pool, req, draw.shuffle) == {}
  {
  }

  /** A dealt card has `wordsPerSide` words per side: yellow holds the first half
      of the selection and blue the second, each word keeping its text and
      level; each side is well marked. */
  lemma DealShape(bank: Bank, pool: set<string>, req: CardRequest, draw: CardDraw)
    requires RollsFit(draw, req.wordsPerSide)
    requires IsPermutation(draw.shuffle, |Available(bank, pool, req)|)
    requires Deal(bank, pool, req, draw).Some?
    ensures var card := Deal(bank, pool, req, draw).value;
      var sel := Selection(bank, pool, req, draw.shuffle);
      var n := req.wordsPerSide;
      && |card.yellowWords| == n && |card.blueWords| == n
      && (forall i :: 0 <= i < n ==>
            card.yellowWords[i].text == sel[i].text && card.yellowWords[i].level == sel[i].level
            && card.blueWords[i].text == sel[n + i].text && card.blueWords[i].level == sel[n + i].level)
      && WellMarked(card.yellowWords) && WellMarked(card.blueWords)
  {
    var sel := Selection(bank, pool, req, draw.shuffle);
    var n := req.wordsPerSide;
    MarkWellMarked(sel[..n], draw.yellowBonus, draw.yellowCursed);
    MarkWellMarked(sel[n..], draw.blueBonus, draw.blueCursed);
    forall i | 0 <= i < n
      ensures Mark(sel[..n], draw.yellowBonus, draw.yellowCursed, false, false)[i].text == sel[i].text
      ensures Mark(sel[..n], draw.yellowBonus, draw.yellowCursed, false, false)[i].level == sel[i].level
      ensures Mark(sel[n..], draw.blueBonus, draw.blueCursed, false, false)[i].text == sel[n + i].text
      ensures Mark(sel[n..], draw.blueBonus, draw.blueCursed, false, false)[i].level == sel[n + i].level
    {
      MarkAt(sel[..n], draw.yellowBonus, draw.yellowCursed, false, false, i);
      MarkAt(sel[n..], draw.blueBonus, draw.blueCursed, false, false, i);
    }
  }

  /** With every cursed roll failing, as in the cards `prepare_round` asks for,
      no dealt word carries the cursed marker. */
  lemma DealUncursed(bank: Bank, pool: set<string>, req: CardRequest, draw: CardDraw)
    requires RollsFit(draw, req.wordsPerSide)
    requires IsPermutation(draw.shuffle, |Available(bank, pool, req)|)
    requires Deal(bank, pool, req, draw).Some?
    requires forall i :: 0 <= i < req.wordsPerSide ==> !draw.yellowCursed[i] && !draw.blueCursed[i]
    ensures var card := Deal(bank, pool, req, draw).value;
      && (forall i :: 0 <= i < |card.yellowWords| ==> !card.yellowWords[i].isCursed)
      && (forall i :: 0 <= i < |card.blueWords| ==> !card.blueWords[i].isCursed)
  {
    var sel := Selection(bank, pool, req, draw.shuffle);
    var n := req.wordsPerSide;
    MarkWellMarked(sel[..n], draw.yellowBonus, draw.yellowCursed);
    MarkWellMarked(sel[n..], draw.blueBonus, draw.blueCursed);
  }

  /** The texts of a dealt card are the selected texts. */
  lemma DealTexts(bank: Bank, pool: set<string>, req: CardRequest, draw: CardDraw)
    requires RollsFit(draw, req.wordsPerSide)
    requires IsPermutation(draw.shuffle, |Available(bank, pool, req)|)
    requires Deal(bank, pool, req, draw).Some?
    ensures CardTexts(Deal(bank, pool, req, draw).value) == Texts(Selection(bank, pool, req, draw.shuffle))
  {
    var card := Deal(bank, pool, req, draw).value;
    var sel := Selection(bank, pool, req, draw.shuffle);
    var n := req.wordsPerSide;
    DealShape(bank, pool, req, draw);
    forall t | t in Texts(sel) ensures t in CardTexts(card) {
      var i :| 0 <= i < |sel| && sel[i].text == t;
      if i < n {
        assert card.yellowWords[i].text == t;
      } else {
        assert card.blueWords[i - n].text == t;
      }
    }
    forall t | t in CardTexts(card) ensures t in Texts(sel) {
      if t in (set i | 0 <= i < |card.yellowWords| :: card.yellowWords[i].text) {
        var i :| 0 <= i < n && card.yellowWords[i].text == t;
        assert sel[i].text == t;
      } else {
        var i :| 0 <= i < n && card.blueWords[i].text == t;
        assert sel[n + i].text == t;
      }
    }
  }

  /** Every selected word is a candidate, and distinct places of the selection
      come from distinct places of the candidate list: the selection takes no
      candidate more often than the list holds it. */
  lemma SelectionFromAvailable(bank: Bank, pool: set<string>, req: CardRequest, shuffle: seq<nat>)
    requires IsPermutation(shuffle, |Available(bank, pool, req)|)
    requires |Available(bank, pool, req)| >= 2 * req.wordsPerSide
    ensures var sel := Selection(bank, pool, req, shuffle);
      forall i :: 0 <= i < |sel| ==> sel[i] == Available(bank, pool, req)[shuffle[i]] && sel[i] in Available(bank, pool, req)
    ensures multiset(Selection(bank, pool, req, shuffle)) <= multiset(Available(bank, pool, req))
  {
    var shuffled := Permute(Available(bank, pool, req), shuffle);
    var n := 2 * req.wordsPerSide;
    assert shuffled == shuffled[..n] + shuffled[n..];
  }

  /** Every dealt word comes from a requested theme at an allowed level and,
      unless the pool was reset, was not dealt to this match before. The pool
      afterwards records every dealt word. */
  lemma {:induction false} DealIsFresh(bank: Bank, pool: set<string>, req: CardRequest, draw: CardDraw)
    requires RollsFit(draw, req.wordsPerSide)
    requires IsPermutation(draw.shuffle, |Available(bank, pool, req)|)
    requires Deal(bank, pool, req, draw).Some?
    ensures var sel := Selection(bank, pool, req, draw.shuffle);
      forall i :: 0 <= i < |sel| ==> Offered(bank, req.themes, req.levels, sel[i])
    ensures !Resets(bank, pool, req) ==> CardTexts(Deal(bank, pool, req, draw).value) !! pool
    ensures CardTexts(Deal(bank, pool, req, draw).value) <= PoolAfterDeal(bank, pool, req, draw.shuffle)
  {
    var sel := Selection(bank, pool, req, draw.shuffle);
    var base := BasePool(bank, pool, req);
    SelectionFromAvailable(bank, pool, req, draw.shuffle);
    forall i | 0 <= i < |sel|
      ensures Offered(bank, req.themes, req.levels, sel[i]) && sel[i].text !in base
    {
      CandidatesMembership(bank, req.themes, req.levels, base, sel[i]);
    }
    DealTexts(bank, pool, req, draw);
  }

  /** Two deals in a row to the same match: if the second does not reset the
      pool, it repeats no word of the first. */
  lemma NoRepeatBeforeReset(bank: Bank, pool: set<string>, req1: CardRequest, draw1: CardDraw,
                            req2: CardRequest, draw2: CardDraw)
    requires RollsFit(draw1, req1.wordsPerSide)
    requires IsPermutation(draw1.shuffle, |Available(bank, pool, req1)|)
    requires Deal(bank, pool, req1, draw1).Some?
    requires RollsFit(draw2, req2.wordsPerSide)
    requires IsPermutation(draw2.shuffle, |Available(bank, PoolAfterDeal(bank, pool, req1, draw1.shuffle), req2)|)
    requires Deal(bank, PoolAfterDeal(bank, pool, req1, draw1.shuffle), req2, draw2).Some?
    requires !Resets(bank, PoolAfterDeal(bank, pool, req1, draw1.shuffle), req2)
    ensures CardTexts(Deal(bank, pool, req1, draw1).value)
      !! CardTexts(Deal(bank, PoolAfterDeal(bank, pool, req1, draw1.shuffle), req2, draw2).value)
  {
    DealIsFresh(bank, pool, req1, draw1);
    DealIsFresh(bank, PoolAfterDeal(bank, pool, req1, draw1.shuffle), req2, draw2);
  }

  /** The images under `f` of the elements of `s` that pass `keep`, in order. */
  function FilterMap<T, U>(s: seq<T>, keep: T -> bool, f: T -> U): seq<U> {
    if s == [] then []
    else
      var last := s[|s| - 1];
      FilterMap(s[..|s| - 1], keep, f) + (if keep(last) then [f(last)] else [])
  }

  lemma {:induction false} FilterMapMembership<T, U>(s: seq<T>, keep: T -> bool, f: T -> U, u: U)
    ensures u in FilterMap(s, keep, f) <==> exists i :: 0 <= i < |s| && keep(s[i]) && u == f(s[i])
  {
    if s != [] {
      var init := s[..|s| - 1];
      FilterMapMembership(init, keep, f, u);
      if u in FilterMap(init, keep, f) {
        var i :| 0 <= i < |init| && keep(init[i]) && u == f(init[i]);
        assert s[i] == init[i];
      }
      if exists i :: 0 <= i < |s| && keep(s[i]) && u == f(s[i]) {
        var i :| 0 <= i < |s| && keep(s[i]) && u == f(s[i]);
        if i < |init| {
          assert init[i] == s[i];
        }
      }
    }
  }

  /** Every theme but the challenge bank is listed. */
  predicate IsListed(t: ThemeBank) {
    !IsChallengeTheme(t.id)
  }

  /** The list entry of a theme: its id, display name and word count. */
  function InfoOf(t: ThemeBank): ThemeInfo {
    ThemeInfo(t.id, FormatThemeName(t.id), |t.words|)
  }

  /** The listed themes in bank order. */
  function ListedThemes(bank: Bank): seq<ThemeInfo> {
    FilterMap(bank, IsListed, InfoOf)
  }

  /** A theme is listed exactly when it is in the bank and is not the challenge
      bank, and it is listed under its display name with its word count. */
  lemma ListedThemesMembership(bank: Bank, info: ThemeInfo)
    ensures info in ListedThemes(bank) <==>
      exists i :: 0 <= i < |bank| && !IsChallengeTheme(bank[i].id) && info == InfoOf(bank[i])
  {
    FilterMapMembership(bank, IsListed, InfoOf, info);
  }

  class WordService {
    const wordBanks: Bank
    var usedWords: map<string, set<string>>

    /** The service over a loaded bank, with no pools yet. */
    constructor (bank: Bank)
      requires WellFormedBank(bank)
      ensures wordBanks == bank && usedWords == map[]
      ensures Valid()
    {
      wordBanks := bank;
      usedWords := map[];
    }

    ghost predicate Valid() {
      WellFormedBank(wordBanks)
    }

    /** The listed themes sorted by display name. */
    method GetAvailableThemes() returns (themes: seq<ThemeInfo>)
      ensures SortedByName(themes)
      ensures multiset(themes) == multiset(ListedThemes(wordBanks))
      ensures forall t :: t in themes ==> !IsChallengeTheme(t.id)
    {
      var listed: seq<ThemeInfo> := [];
      for i := 0 to |wordBanks|
        invariant listed == ListedThemes(wordBanks[..i])
      {
        var theme := wordBanks[i];
        assert wordBanks[..i + 1][..i] == wordBanks[..i];
        if IsChallengeTheme(theme.id) {
          continue;
        }
        listed := listed + [ThemeInfo(theme.id, FormatThemeName(theme.id), |theme.words|)];
      }
      assert wordBanks[..|wordBanks|] == wordBanks;
      themes := SortByName(listed);
      forall t | t in themes ensures !IsChallengeTheme(t.id) {
        assert t in multiset(listed);
        ListedThemesMembership(wordBanks, t);
      }
    }

    /** Gives the match an empty pool, replacing any pool it had. */
    method InitGamePool(gameId: string)
      modifies this`usedWords
      ensures usedWords == old(usedWords)[gameId := {}]
    {
      usedWords := usedWords[gameId := {}];
    }

    /** Drops the match's pool; a no-op when it has none. */
    method ClearGamePool(gameId: string)
      modifies this`usedWords
      ensures usedWords == old(usedWords) - {gameId}
      ensures gameId !in old(usedWords) ==> usedWords == old(usedWords)
    {
      if gameId in usedWords {
        usedWords := usedWords - {gameId};
      }
    }

    /** The candidate-collecting loop of `get_card_words`. */
    method CollectAvailable(themes: seq<string>, levels: seq<int>, used: set<string>) returns (avail: seq<Candidate>)
      ensures avail == Candidates(wordBanks, themes, levels, used)
    {
      avail := [];
      for t := 0 to |themes|
        invariant avail == Candidates(wordBanks, themes[..t], levels, used)
      {
        assert themes[..t + 1][..t] == themes[..t];
        var entry := Lookup(wordBanks, themes[t]);
        if entry.Some? {
          var ws := entry.value;
          for k := 0 to |ws|
            invariant avail == Candidates(wordBanks, themes[..t], levels, used) + FromWords(ws[..k], levels, used)
          {
            assert ws[..k + 1][..k] == ws[..k];
            var e := ws[k];
            if e.level in levels && e.word !in used {
              avail := avail + [Candidate(e.word, e.level)];
            }
          }
          assert ws[..|ws|] == ws;
        }
      }
      assert themes[..|themes|] == themes;
    }

    /** `_apply_special_words` over one side. */
    method ApplySpecialWords(words: seq<Candidate>, bonusRolls: seq<bool>, cursedRolls: seq<bool>)
      returns (result: seq<CardWord>)
      requires |bonusRolls| == |words| && |cursedRolls| == |words|
      ensures result == Mark(words, bonusRolls, cursedRolls, false, false)
    {
      result := [];
      var hasBonus, hasCursed := false, false;
      for i := 0 to |words|
        invariant result + Mark(words[i..], bonusRolls[i..], cursedRolls[i..], hasBonus, hasCursed)
                  == Mark(words, bonusRolls, cursedRolls, false, false)
      {
        MarkUnfold(words, bonusRolls, cursedRolls, hasBonus, hasCursed, i);
        var isBonus, isCursed := false, false;
        if !hasBonus && bonusRolls[i] {
          isBonus := true;
          hasBonus := true;
        } else if !hasCursed && cursedRolls[i] {
          isCursed := true;
          hasCursed := true;
        }
        result := result + [CardWord(words[i].text, words[i].level, isBonus, isCursed)];
      }
    }

    /** The marking loop of `get_card_words`: adds every selected text to the
        match's pool. */
    method RecordDealt(gameId: string, selected: seq<Candidate>)
      requires gameId in usedWords
      modifies this
      ensures usedWords == old(usedWords)[gameId := old(usedWords[gameId]) + Texts(selected)]
    {
      ghost var base := usedWords[gameId];
      assert Texts(selected[..0]) == {};
      for i := 0 to |selected|
        invariant gameId in usedWords && usedWords == old(usedWords)[gameId := usedWords[gameId]]
        invariant usedWords[gameId] == base + Texts(selected[..i])
      {
        assert Texts(selected[..i + 1]) == Texts(selected[..i]) + {selected[i].text} by {
          assert forall j :: 0 <= j < i ==> selected[..i + 1][j] == selected[..i][j];
        }
        usedWords := usedWords[gameId := usedWords[gameId] + {selected[i].text}];
      }
      assert selected[..|selected|] == selected;
    }

    /** The first half of `get_card_words`: makes sure the match has a pool,
        collects the unused candidates and, when they cannot fill both sides,
        empties the pool and collects again. */
    method AvailableFor(gameId: string, req: CardRequest) returns (avail: seq<Candidate>)
      modifies this
      ensures avail == Available(wordBanks, PoolOf(old(usedWords), gameId), req)
      ensures usedWords == old(usedWords)[gameId := BasePool(wordBanks, PoolOf(old(usedWords), gameId), req)]
    {
      if gameId !in usedWords {
        usedWords := usedWords[gameId := {}];
      }
      avail := CollectAvailable(req.themes, req.levels, usedWords[gameId]);
      if |avail| < req.wordsPerSide * 2 {
        usedWords := usedWords[gameId := {}];
        // The pool is empty now, so every matching word passes the usage test.
        avail := CollectAvailable(req.themes, req.levels, {});
      }
    }

    /** `get_card_words`: deals a card to the match and records its words in the
        match's pool (creating the pool if the match had none). */
    method GetCardWords(gameId: string, req: CardRequest, draw: CardDraw) returns (card: Option<Card>)
      requires RollsFit(draw, req.wordsPerSide)
      requires IsPermutation(draw.shuffle, |Available(wordBanks, PoolOf(usedWords, gameId), req)|)
      modifies this
      ensures card == Deal(wordBanks, PoolOf(old(usedWords), gameId), req, draw)
      ensures usedWords == old(usedWords)[gameId := PoolAfterDeal(wordBanks, PoolOf(old(usedWords), gameId), req, draw.shuffle)]
    {
      ghost var pool := PoolOf(usedWords, gameId);
      var avail := AvailableFor(gameId, req);
      var total := req.wordsPerSide * 2;
      if |avail| < total {
        return None;
      }
      var shuffled := Permute(avail, draw.shuffle);
      var selected := shuffled[..total];
      assert selected == Selection(wordBanks, pool, req, draw.shuffle);
      RecordDealt(gameId, selected);
      var yellow := selected[..req.wordsPerSide];
      var blue := selected[req.wordsPerSide..];
      var yellowWords := ApplySpecialWords(yellow, draw.yellowBonus, draw.yellowCursed);
      var blueWords := ApplySpecialWords(blue, draw.blueBonus, draw.blueCursed);
      card := Some(Card(yellowWords, blueWords));
    }
  }
}
