/** `POST /api/generate-deck`: the keyword Jaccard similarity of deck titles, the search for
    the most similar existing deck, and the choice of the deck the generated cards go to.

    `toLowerCase` is modelled on ASCII letters only; `split(/[\s-]+/)` is modelled as the
    maximal runs of characters that are neither whitespace nor '-' (the empty pieces a
    split can produce are dropped by the length filter anyway), and `match(/\d+/g)` as the
    maximal runs of ASCII digits. */
module GenerateDeck {
  import opened Base

  // ---------------------------------------------------------------------------
  // Characters and runs

  function LowerChar(c: char): char {
    if 'A' <= c <= 'Z' then (c as int + 32) as char else c
  }

  function Lower(s: string): (r: string)
    ensures |r| == |s| && forall i :: 0 <= i < |s| ==> r[i] == LowerChar(s[i])
  {
    seq(|s|, i requires 0 <= i < |s| => LowerChar(s[i]))
  }

  /** Lower-casing twice is lower-casing once. */
  lemma LowerIdempotent(s: string)
    ensures Lower(Lower(s)) == Lower(s)
  {
    assert forall i :: 0 <= i < |s| ==> LowerChar(LowerChar(s[i])) == LowerChar(s[i]);
  }

  lemma LowerConcat(a: string, b: string)
    ensures Lower(a + b) == Lower(a) + Lower(b)
  {
    assert Lower(a + b) == Lower(a) + Lower(b);
  }

  /** The separators of the title split: `\s` and '-'. */
  predicate IsSeparator(c: char) { IsSpace(c) || c == '-' }

  predicate IsWordChar(c: char) { !IsSeparator(c) }

  /** `\d`. */
  predicate IsDigit(c: char) { '0' <= c <= '9' }

  /** The length of the run of `p`-characters at the start of `s`. */
  function LeadingRun(s: string, p: char -> bool): (n: nat)
    ensures n <= |s|
    ensures forall i :: 0 <= i < n ==> p(s[i])
    ensures n < |s| ==> !p(s[n])
  {
    if s == [] || !p(s[0]) then 0 else 1 + LeadingRun(s[1..], p)
  }

  /** The maximal runs of `p`-characters of `s`, left to right. */
  function Runs(s: string, p: char -> bool): (ws: seq<string>)
    decreases |s|
  {
    if s == [] then []
    else if !p(s[0]) then Runs(s[1..], p)
    else
      var n := LeadingRun(s, p);
      [s[..n]] + Runs(s[n..], p)
  }

  lemma {:induction false} LeadingRunStops(x: string, c: char, y: string, p: char -> bool)
    requires !p(c)
    ensures LeadingRun(x + [c] + y, p) == LeadingRun(x, p)
  {
    if x != [] && p(x[0]) {
      assert (x + [c] + y)[1..] == x[1..] + [c] + y;
      LeadingRunStops(x[1..], c, y, p);
    }
  }

  /** A character outside `p` splits the runs: nothing joins across it. */
  lemma {:induction false} RunsSplit(x: string, c: char, y: string, p: char -> bool)
    requires !p(c)
    ensures Runs(x + [c] + y, p) == Runs(x, p) + Runs(y, p)
    decreases |x|
  {
    var s := x + [c] + y;
    if x == [] {
      assert s[1..] == y;
    } else if !p(x[0]) {
      assert s[1..] == x[1..] + [c] + y;
      RunsSplit(x[1..], c, y, p);
    } else {
      var n := LeadingRun(x, p);
      LeadingRunStops(x, c, y, p);
      assert s[..n] == x[..n];
      assert s[n..] == x[n..] + [c] + y;
      RunsSplit(x[n..], c, y, p);
    }
  }

  lemma {:induction false} RunsOfNone(s: string, p: char -> bool)
    requires forall i :: 0 <= i < |s| ==> !p(s[i])
    ensures Runs(s, p) == []
  {
    if s != [] {
      RunsOfNone(s[1..], p);
    }
  }

  lemma RunsOfAll(s: string, p: char -> bool)
    requires s != [] && forall i :: 0 <= i < |s| ==> p(s[i])
    ensures Runs(s, p) == [s]
  {
    assert LeadingRun(s, p) == |s| by { LeadingRunAll(s, p); }
    assert s[..|s|] == s;
    assert s[|s|..] == [];
  }

  lemma {:induction false} LeadingRunAll(s: string, p: char -> bool)
    requires forall i :: 0 <= i < |s| ==> p(s[i])
    ensures LeadingRun(s, p) == |s|
  {
    if s != [] {
      LeadingRunAll(s[1..], p);
    }
  }

  // ---------------------------------------------------------------------------
  // calculateSimilarity

  const StopWords: set<string> := {"the", "a", "an", "and", "or", "of", "to", "in", "for", "with", "-", "&"}

  /** The words of a title after lower-casing that count: longer than one character and not
      a stop word. */
  function Keywords(s: string): set<string> {
    set w | w in Runs(Lower(s), IsWordChar) && |w| > 1 && w !in StopWords
  }

  /** `s.match(/\d+/g) || []` on the lower-cased title. */
  function Numbers(s: string): seq<string> {
    Runs(Lower(s), IsDigit)
  }

  /** Both titles carry numbers and none of them is shared. */
  predicate NumbersClash(a: string, b: string) {
    |Numbers(a)| > 0 && |Numbers(b)| > 0 && !(exists n :: n in Numbers(a) && n in Numbers(b))
  }

  lemma CardSubset(x: set<string>, y: set<string>)
    requires x <= y
    ensures |x| <= |y|
  {
    assert y == x + (y - x);
  }

  /** The Jaccard coefficient |K1 ∩ K2| / |K1 ∪ K2|, 0 for two empty sets. */
  function Jaccard(k1: set<string>, k2: set<string>): (r: real)
    ensures 0.0 <= r <= 1.0
    ensures k1 + k2 == {} ==> r == 0.0
    ensures r == 1.0 ==> k1 == k2 != {}
  {
    var union := k1 + k2;
    if |union| == 0 then 0.0
    else
      CardSubset(k1 * k2, union);
      SubsetSameSize(k1 * k2, union);
      RatioBounds(|k1 * k2|, |union|);
      (|k1 * k2| as real) / (|union| as real)
  }

  lemma RatioBounds(x: nat, y: nat)
    requires 0 < y && x <= y
    ensures 0.0 <= x as real / y as real <= 1.0
    ensures x as real / y as real == 1.0 ==> x == y
  {
    var r := x as real / y as real;
    assert r * y as real == x as real;
  }

  /** The Jaccard coefficient of the two keyword sets, 0 when both are empty, and 0 when both
      titles have numbers but share none. */
  function Similarity(a: string, b: string): (r: real)
    ensures 0.0 <= r <= 1.0
    ensures Keywords(a) + Keywords(b) == {} ==> r == 0.0
    ensures NumbersClash(a, b) ==> r == 0.0
    ensures r == 1.0 ==> Keywords(a) == Keywords(b) != {}
  {
    var k1 := Keywords(a);
    var k2 := Keywords(b);
    if |k1 + k2| == 0 then 0.0
    else if NumbersClash(a, b) then 0.0
    else Jaccard(k1, k2)
  }

  lemma SubsetSameSize(x: set<string>, y: set<string>)
    requires x <= y
    ensures |x| == |y| ==> x == y
  {
    if x != y {
      assert !(y <= x);
      var e :| e in y && e !in x;
      CardSubset(x, y - {e});
    }
  }

  /** The similarity does not depend on the order of its arguments. */
  lemma SimilaritySymmetric(a: string, b: string)
    ensures Similarity(a, b) == Similarity(b, a)
  {
    assert Keywords(a) * Keywords(b) == Keywords(b) * Keywords(a);
    assert Keywords(a) + Keywords(b) == Keywords(b) + Keywords(a);
  }

  /** The similarity ignores letter case: lower-casing an argument first changes nothing. */
  lemma SimilarityIgnoresCase(a: string, b: string)
    ensures Similarity(Lower(a), b) == Similarity(a, b)
    ensures Similarity(a, Lower(b)) == Similarity(a, b)
  {
    LowerIdempotent(a);
    LowerIdempotent(b);
  }

  /** Appending a word that is a stop word or a single character, and holds no digit, leaves
      the similarity as it was. */
  lemma IgnoredWordNoEffect(a: string, w: string, b: string)
    requires forall i :: 0 <= i < |w| ==> IsWordChar(w[i]) && !IsDigit(w[i])
    requires |w| <= 1 || Lower(w) in StopWords
    ensures Similarity(a + " " + w, b) == Similarity(a, b)
  {
    LowerWithWord(a, w);
    IgnoredWordNumbers(a, w);
    IgnoredWordKeywords(a, w);
  }

  lemma LowerWithWord(a: string, w: string)
    ensures Lower(a + " " + w) == Lower(a) + [' '] + Lower(w)
  {
    LowerConcat(a + " ", w);
    LowerConcat(a, " ");
  }

  lemma IgnoredWordNumbers(a: string, w: string)
    requires forall i :: 0 <= i < |w| ==> !IsDigit(w[i])
    requires Lower(a + " " + w) == Lower(a) + [' '] + Lower(w)
    ensures Numbers(a + " " + w) == Numbers(a)
  {
    RunsSplit(Lower(a), ' ', Lower(w), IsDigit);
    RunsOfNone(Lower(w), IsDigit);
  }

  lemma IgnoredWordKeywords(a: string, w: string)
    requires forall i :: 0 <= i < |w| ==> IsWordChar(w[i])
    requires |w| <= 1 || Lower(w) in StopWords
    requires Lower(a + " " + w) == Lower(a) + [' '] + Lower(w)
    ensures Keywords(a + " " + w) == Keywords(a)
  {
    var s := a + " " + w;
    RunsSplit(Lower(a), ' ', Lower(w), IsWordChar);
    if w == [] {
      RunsOfNone(Lower(w), IsWordChar);
      assert Runs(Lower(s), IsWordChar) == Runs(Lower(a), IsWordChar);
    } else {
      RunsOfAll(Lower(w), IsWordChar);
      assert Runs(Lower(s), IsWordChar) == Runs(Lower(a), IsWordChar) + [Lower(w)];
    }
  }

  /** A single digit is not a keyword, yet it still takes part in the number check: a
      word alone matches the word followed by a digit, but the word followed by two
      different digits does not match at all. */
  lemma {:induction false} DigitTokenMatters(w: string, d1: char, d2: char)
    requires |w| > 1 && w !in StopWords && forall i :: 0 <= i < |w| ==> 'a' <= w[i] <= 'z'
    requires IsDigit(d1) && IsDigit(d2) && d1 != d2
    ensures Similarity(w, w + " " + [d2]) == 1.0
    ensures Similarity(w + " " + [d1], w + " " + [d2]) == 0.0
  {
    PlainWord(w);
    WordAndDigit(w, d1);
    WordAndDigit(w, d2);
    assert !NumbersClash(w, w + " " + [d2]);
    assert NumbersClash(w + " " + [d1], w + " " + [d2]);
  }

  /** The instance from the code's own comment: "task 1" against "task 2". */
  lemma TaskOneTaskTwo()
    ensures Similarity("task", "task 2") == 1.0
    ensures Similarity("task 1", "task 2") == 0.0
  {
    assert "task 1" == "task" + " " + ['1'] && "task 2" == "task" + " " + ['2'];
    DigitTokenMatters("task", '1', '2');
  }

  /** The facts about a lower-case word of letters that the counterexample needs. */
  lemma PlainWord(w: string)
    requires |w| > 1 && w !in StopWords && forall i :: 0 <= i < |w| ==> 'a' <= w[i] <= 'z'
    ensures Lower(w) == w
    ensures Runs(w, IsWordChar) == [w] && Runs(w, IsDigit) == []
    ensures Keywords(w) == {w} && Numbers(w) == []
  {
    LettersOnly(w);
    RunsOfAll(w, IsWordChar);
    RunsOfNone(w, IsDigit);
    SingleKeyword(w, w);
  }

  lemma LettersOnly(w: string)
    requires forall i :: 0 <= i < |w| ==> 'a' <= w[i] <= 'z'
    ensures Lower(w) == w
    ensures forall i :: 0 <= i < |w| ==> IsWordChar(w[i]) && !IsDigit(w[i])
  {
    assert forall i :: 0 <= i < |w| ==> LowerChar(w[i]) == w[i];
  }

  /** A title whose only word is a keyword has that word as its keyword set. */
  lemma SingleKeyword(s: string, w: string)
    requires Runs(Lower(s), IsWordChar) == [w] && |w| > 1 && w !in StopWords
    ensures Keywords(s) == {w}
  {
  }

  lemma WordAndDigit(w: string, d: char)
    requires |w| > 1 && w !in StopWords && forall i :: 0 <= i < |w| ==> 'a' <= w[i] <= 'z'
    requires IsDigit(d)
    ensures Keywords(w + " " + [d]) == {w} && Numbers(w + " " + [d]) == [[d]]
  {
    PlainWord(w);
    var s := w + " " + [d];
    assert Lower(s) == w + [' '] + [d];
    RunsSplit(w, ' ', [d], IsWordChar);
    RunsSplit(w, ' ', [d], IsDigit);
    RunsOfAll([d], IsWordChar);
    RunsOfAll([d], IsDigit);
    assert Runs(Lower(s), IsWordChar) == [w, [d]];
  }

  // ---------------------------------------------------------------------------
  // findSimilarDeck

  datatype DeckRef = DeckRef(id: Id, title: string)

  const MergeThreshold: real := 0.8

  /** How well an existing deck matches: the better of its similarity to the topic and to
      the generated title. */
  function MatchScore(d: DeckRef, topic: string, generatedTitle: string): real {
    var t := Similarity(d.title, topic);
    var g := Similarity(d.title, generatedTitle);
    if t >= g then t else g
  }

  /** The scoring of `findSimilarDeck` for one topic and generated title. */
  function Scorer(topic: string, generatedTitle: string): DeckRef -> real {
    (d: DeckRef) => MatchScore(d, topic, generatedTitle)
  }

  /** The index of the first item of the highest score, provided that score reaches the
      threshold, or -1: the item a left-to-right scan keeps when it replaces its best only
      on a strictly higher score. */
  function BestIndex<T>(items: seq<T>, score: T -> real, threshold: real): (b: int)
    ensures -1 <= b < |items|
    ensures b < 0 ==> forall j :: 0 <= j < |items| ==> score(items[j]) < threshold
    ensures b >= 0 ==>
      && score(items[b]) >= threshold
      && (forall j :: 0 <= j < |items| ==> score(items[j]) <= score(items[b]))
      && (forall j :: 0 <= j < b ==> score(items[j]) < score(items[b]))
  {
    if items == [] then -1
    else
      var b := BestIndex(items[..|items| - 1], score, threshold);
      var s := score(items[|items| - 1]);
      if s >= threshold && (b < 0 || s > score(items[b])) then |items| - 1 else b
  }

  /** The three properties pin the index down: any index that has them is `BestIndex`. */
  lemma BestIndexUnique<T>(items: seq<T>, score: T -> real, threshold: real, i: int)
    requires 0 <= i < |items| && score(items[i]) >= threshold
    requires forall j :: 0 <= j < |items| ==> score(items[j]) <= score(items[i])
    requires forall j :: 0 <= j < i ==> score(items[j]) < score(items[i])
    ensures BestIndex(items, score, threshold) == i
  {
    var b := BestIndex(items, score, threshold);
    assert score(items[b]) <= score(items[i]) && score(items[i]) <= score(items[b]);
  }

  /** The loop of `findSimilarDeck` over any scoring. */
  method BestAbove<T>(items: seq<T>, score: T -> real, threshold: real) returns (bestIndex: int)
    ensures bestIndex == BestIndex(items, score, threshold)
    ensures -1 <= bestIndex < |items|
  {
    bestIndex := -1;
    var bestScore := 0.0;
    for k := 0 to |items|
      invariant bestIndex == BestIndex(items[..k], score, threshold)
      invariant bestIndex >= 0 ==> bestIndex < k && bestScore == score(items[bestIndex])
    {
      assert items[..k + 1][..k] == items[..k];
      var s := score(items[k]);
      if s >= threshold {
        if bestIndex < 0 || s > bestScore {
          bestIndex, bestScore := k, s;
        }
      }
    }
    assert items[..|items|] == items;
  }

  /** The deck `findSimilarDeck` returns from the user's decks: the first deck of the
      highest score, provided that score reaches the threshold. */
  function SimilarDeck(decks: seq<DeckRef>, topic: string, generatedTitle: string): (r: Option<DeckRef>)
    ensures r.None? <==> forall i :: 0 <= i < |decks| ==> MatchScore(decks[i], topic, generatedTitle) < MergeThreshold
    ensures r.Some? ==> exists i ::
      && 0 <= i < |decks| && decks[i] == r.value
      && MatchScore(decks[i], topic, generatedTitle) >= MergeThreshold
      && (forall j :: 0 <= j < |decks| ==>
            MatchScore(decks[j], topic, generatedTitle) <= MatchScore(decks[i], topic, generatedTitle))
      && (forall j :: 0 <= j < i ==>
            MatchScore(decks[j], topic, generatedTitle) < MatchScore(decks[i], topic, generatedTitle))
  {
    var i := BestIndex(decks, Scorer(topic, generatedTitle), MergeThreshold);
    if i >= 0 then Some(decks[i]) else None
  }

  /** `findSimilarDeck`: `decks` is the user's decks (None: the query failed). */
  method FindSimilarDeck(decks: Option<seq<DeckRef>>, topic: string, generatedTitle: string)
    returns (best: Option<DeckRef>)
    ensures best == if decks.Some? then SimilarDeck(decks.value, topic, generatedTitle) else None
  {
    if decks.None? {
      return None;
    }
    var ds := decks.value;
    var i := BestAbove(ds, Scorer(topic, generatedTitle), MergeThreshold);
    best := if i >= 0 then Some(ds[i]) else None;
  }

  // ---------------------------------------------------------------------------
  // The handler

  /** The request body. `autoMerge` is None when the field is absent (`undefined`, which
      the destructuring default turns into true) and otherwise the truthiness of the value
      given, so a JSON `null`, `0` or `""` is `Some(false)`. */
  datatype GenerateRequest = GenerateRequest(topic: Option<string>, deckId: Option<Id>, autoMerge: Option<bool>)

  datatype GeneratedCard = GeneratedCard(concept: string, contextHint: string, anchors: seq<Anchor>)

  /** What the deck generator returns (None: the call threw). */
  datatype GeneratedDeck = GeneratedDeck(deckTitle: string, cards: seq<GeneratedCard>)

  datatype GenerateResponse =
    | GenFailed(httpStatus: int, error: string)
    | GenOk(deckId: Id, deckTitle: string, cardCount: nat, mergedInto: Option<string>)

  /** `topic` is present and not blank. */
  predicate HasTopic(req: GenerateRequest) {
    Truthy(req.topic) && !IsBlank(req.topic.value)
  }

  /** The deck auto-merge picks: only for a request without its own deck and with merging
      on, the similar deck among the user's decks (none when their query failed). */
  function MergeTarget(req: GenerateRequest, userDecks: Option<seq<DeckRef>>, generatedTitle: string): Option<DeckRef> {
    if Truthy(req.deckId) || req.autoMerge == Some(false) || userDecks.None? || req.topic.None? then None
    else SimilarDeck(userDecks.value, req.topic.value, generatedTitle)
  }

  /** Auto-merge happens exactly when it is on, there is no deck id, and some deck of the
      user's scores at least 0.8. */
  lemma MergeWhenSimilar(req: GenerateRequest, decks: seq<DeckRef>, generatedTitle: string)
    requires req.topic.Some?
    ensures MergeTarget(req, Some(decks), generatedTitle).Some? <==>
      && !Truthy(req.deckId) && req.autoMerge != Some(false)
      && exists i :: 0 <= i < |decks| && MatchScore(decks[i], req.topic.value, generatedTitle) >= MergeThreshold
  {
  }

  /** The deck the cards go to without creating one: the request's own deck, otherwise the
      merge target. A deck whose id is empty is falsy and counts as none. */
  function ChosenDeck(req: GenerateRequest, existing: Option<DeckRef>, userDecks: Option<seq<DeckRef>>,
                      generatedTitle: string): (r: Option<DeckRef>)
    ensures r.Some? ==> r.value.id != ""
    ensures Truthy(req.deckId) ==> r == if existing.Some? && existing.value.id != "" then existing else None
  {
    var pick := if Truthy(req.deckId) then existing else MergeTarget(req, userDecks, generatedTitle);
    if pick.Some? && pick.value.id != "" then pick else None
  }

  /** The message of a failed deck insert, `deckError?.message || 'Unknown'`. */
  function CreateDeckError(message: string): string {
    "Failed to create deck: " + (if message != "" then message else "Unknown")
  }

  /** Everything the handler needs to get as far as the card insert. */
  predicate ReachesInsert(authenticated: bool, body: Option<GenerateRequest>, generated: Option<GeneratedDeck>,
                          existing: Option<DeckRef>, userDecks: Option<seq<DeckRef>>, created: Option<DeckRef>) {
    && authenticated && body.Some? && HasTopic(body.value) && generated.Some?
    && (Truthy(body.value.deckId) ==> existing.Some?)
    && (ChosenDeck(body.value, existing, userDecks, generated.value.deckTitle).None? ==> created.Some?)
  }

  /** The deck chosen before any creation: the request's deck after its lookup (`found` is
      false when that lookup came back empty), otherwise the auto-merge deck; `targetDeckId`
      stays falsy when a new deck is needed. */
  method ResolveTarget(req: GenerateRequest, gen: GeneratedDeck, existing: Option<DeckRef>,
                       userDecks: Option<seq<DeckRef>>)
    returns (found: bool, targetDeckId: Option<Id>, deckTitle: string, mergedInto: Option<string>)
    requires req.topic.Some?
    ensures found <==> !(Truthy(req.deckId) && existing.None?)
    ensures found ==> (Truthy(targetDeckId) <==> ChosenDeck(req, existing, userDecks, gen.deckTitle).Some?)
    ensures found && Truthy(targetDeckId) ==>
      var chosen := ChosenDeck(req, existing, userDecks, gen.deckTitle).value;
      targetDeckId == Some(chosen.id) && deckTitle == chosen.title
    ensures mergedInto == if !found then None else
      var merge := MergeTarget(req, userDecks, gen.deckTitle);
      if merge.Some? then Some(merge.value.title) else None
  {
    found := true;
    targetDeckId := req.deckId;
    deckTitle := gen.deckTitle;
    mergedInto := None;
    if Truthy(req.deckId) {
      if existing.None? {
        found := false;
        return;
      }
      targetDeckId := Some(existing.value.id);
      deckTitle := existing.value.title;
      assert MergeTarget(req, userDecks, gen.deckTitle) == None;
    } else if req.autoMerge != Some(false) {
      var similar := FindSimilarDeck(userDecks, req.topic.value, gen.deckTitle);
      assert similar == MergeTarget(req, userDecks, gen.deckTitle);
      if similar.Some? {
        targetDeckId := Some(similar.value.id);
        deckTitle := similar.value.title;
        mergedInto := Some(similar.value.title);
      }
    } else {
      assert MergeTarget(req, userDecks, gen.deckTitle) == None;
    }
  }

  /** `body` is the parsed request (None: the body was not JSON), `generated` the generator's
      answer (None: it threw), `existing` the lookup of the request's deck id, `userDecks` the
      user's decks for auto-merge (None: their query failed), `created` the newly inserted
      deck (None: the insert failed, with `createError` the error's message, "" for none)
      and `cardsInserted` whether the card insert succeeded. `insertedInto` is the deck the
      cards were written to, if any. */
  method Post(authenticated: bool, body: Option<GenerateRequest>, generated: Option<GeneratedDeck>,
              existing: Option<DeckRef>, userDecks: Option<seq<DeckRef>>, created: Option<DeckRef>,
              createError: string, cardsInserted: bool)
    returns (resp: GenerateResponse, insertedInto: Option<Id>)
    ensures !authenticated ==> resp == GenFailed(401, "Unauthorized")
    ensures authenticated && body.None? ==> resp == GenFailed(500, "Failed to generate deck")
    ensures authenticated && body.Some? && !HasTopic(body.value) ==> resp == GenFailed(400, "Topic is required")
    ensures authenticated && body.Some? && HasTopic(body.value) && generated.None? ==>
      resp == GenFailed(500, "Failed to generate deck")
    ensures authenticated && body.Some? && HasTopic(body.value) && generated.Some? && Truthy(body.value.deckId) && existing.None? ==>
      resp == GenFailed(404, "Deck not found")
    ensures authenticated && body.Some? && HasTopic(body.value) && generated.Some? &&
            (Truthy(body.value.deckId) ==> existing.Some?) &&
            ChosenDeck(body.value, existing, userDecks, generated.value.deckTitle).None? && created.None? ==>
      resp == GenFailed(500, CreateDeckError(createError))
    ensures ReachesInsert(authenticated, body, generated, existing, userDecks, created) && !cardsInserted ==>
      resp == GenFailed(500, "Failed to create cards")
    ensures resp.GenOk? <==> ReachesInsert(authenticated, body, generated, existing, userDecks, created) && cardsInserted
    ensures resp.GenFailed? ==> insertedInto.None?
    ensures resp.GenOk? ==>
      var req := body.value;
      var chosen := ChosenDeck(req, existing, userDecks, generated.value.deckTitle);
      var merge := MergeTarget(req, userDecks, generated.value.deckTitle);
      && insertedInto == Some(resp.deckId)
      && resp.cardCount == |generated.value.cards|
      && (chosen.Some? ==> resp.deckId == chosen.value.id && resp.deckTitle == chosen.value.title)
      && (chosen.None? ==> resp.deckId == created.value.id && resp.deckTitle == created.value.title)
      && resp.mergedInto == (if merge.Some? then Some(merge.value.title) else None)
  {
    insertedInto := None;
    if !authenticated {
      return GenFailed(401, "Unauthorized"), None;
    }
    if body.None? {
      return GenFailed(500, "Failed to generate deck"), None;
    }
    var req := body.value;
    if !HasTopic(req) {
      return GenFailed(400, "Topic is required"), None;
    }
    if generated.None? {
      return GenFailed(500, "Failed to generate deck"), None;
    }
    var gen := generated.value;
    var found, targetDeckId, deckTitle, mergedInto := ResolveTarget(req, gen, existing, userDecks);
    if !found {
      return GenFailed(404, "Deck not found"), None;
    }
    if !Truthy(targetDeckId) {
      if created.None? {
        return GenFailed(500, CreateDeckError(createError)), None;
      }
      targetDeckId := Some(created.value.id);
      deckTitle := created.value.title;
    }
    if !cardsInserted {
      return GenFailed(500, "Failed to create cards"), None;
    }
    insertedInto := targetDeckId;
    resp := GenOk(targetDeckId.value, deckTitle, |gen.cards|, mergedInto);
  }
}
