/** The practice page: the deck list in the user's saved order, the selected deck's cards
    with the current position in it, the per-deck saved positions and the daily progress.

    `localStorage` is modelled by the values it held when the page loaded (None when the
    key was absent or did not parse). The saved positions and the daily progress it is
    given back are the fields here. The deck order that `handleReorderDecks` saves is not
    a field: `ApplyDecks` and `TransferCard` take the saved order as a parameter.
    Responses of the page's fetches are parameters. */
module HomePage {
  import opened Base
  import Sorting

  datatype Deck = Deck(id: Id, title: string, cardCount: nat, isCustom: bool)

  datatype DailyProgress = DailyProgress(date: string, completed: nat, completedCards: seq<Id>)

  // ---------------------------------------------------------------------------
  // Deck ordering

  /** `order.indexOf(id)`. */
  function IndexOf(order: seq<Id>, id: Id): (i: int)
    ensures -1 <= i < |order|
    ensures i >= 0 ==> order[i] == id && forall j :: 0 <= j < i ==> order[j] != id
    ensures i < 0 <==> id !in order
  {
    if order == [] then -1
    else if order[0] == id then 0
    else
      var r := IndexOf(order[1..], id);
      if r < 0 then -1 else r + 1
  }

  /** The comparator `fetchDecks` sorts with when a saved order exists. */
  function SavedOrderCompare(order: seq<Id>, a: Deck, b: Deck): int {
    var indexA := IndexOf(order, a.id);
    var indexB := IndexOf(order, b.id);
    if indexA == -1 && indexB == -1 then 0
    else if indexA == -1 then 1
    else if indexB == -1 then -1
    else indexA - indexB
  }

  /** The position a deck sorts at: its saved index, or after every saved deck. */
  function SavedKey(order: seq<Id>, d: Deck): (k: int)
    ensures 0 <= k <= |order|
    ensures k == |order| <==> d.id !in order
  {
    var i := IndexOf(order, d.id);
    if i >= 0 then i else |order|
  }

  /** The comparator orders two decks exactly as their keys do, so it is a consistent
      ordering and the stable sort of `Array.prototype.sort` by it is the stable sort by the
      key. */
  lemma SavedOrderCompareIsKeyOrder(order: seq<Id>, a: Deck, b: Deck)
    ensures SavedOrderCompare(order, a, b) < 0 <==> SavedKey(order, a) < SavedKey(order, b)
    ensures SavedOrderCompare(order, a, b) == 0 <==> SavedKey(order, a) == SavedKey(order, b)
    ensures SavedOrderCompare(order, a, b) > 0 <==> SavedKey(order, a) > SavedKey(order, b)
  {
  }

  function ApplySavedOrder(order: seq<Id>, decks: seq<Deck>): seq<Deck> {
    Sorting.SortByKey(decks, (d: Deck) => SavedKey(order, d))
  }

  /** After sorting by the saved order: the decks are the same, the saved ones come first in
      saved order, and the unsaved ones follow in their fetched order. */
  lemma SavedOrderProperties(order: seq<Id>, decks: seq<Deck>)
    ensures multiset(ApplySavedOrder(order, decks)) == multiset(decks)
    ensures forall i, j :: 0 <= i < j < |ApplySavedOrder(order, decks)| && ApplySavedOrder(order, decks)[i].id !in order ==>
      ApplySavedOrder(order, decks)[j].id !in order
    ensures forall i, j :: 0 <= i < j < |ApplySavedOrder(order, decks)| && ApplySavedOrder(order, decks)[j].id in order ==>
      IndexOf(order, ApplySavedOrder(order, decks)[i].id) <= IndexOf(order, ApplySavedOrder(order, decks)[j].id)
    ensures Sorting.WithKey(ApplySavedOrder(order, decks), (d: Deck) => SavedKey(order, d), |order|)
         == Sorting.WithKey(decks, (d: Deck) => SavedKey(order, d), |order|)
  {
    var key := (d: Deck) => SavedKey(order, d);
    Sorting.SortByKeyPermutation(decks, key);
    Sorting.SortedBySortByKey(decks, key);
    Sorting.SortByKeyStable(decks, key, |order|);
  }

  /** The key of `handleReorderDecks`: the index in the new order, -1 when absent. */
  function ReorderKey(order: seq<Id>, d: Deck): int {
    IndexOf(order, d.id)
  }

  function Reordered(order: seq<Id>, decks: seq<Deck>): seq<Deck> {
    Sorting.SortByKey(decks, (d: Deck) => ReorderKey(order, d))
  }

  /** Reordering keeps the decks, sorts the listed ones by the new order, and (unlike the
      saved-order sort at load) puts decks missing from the new order FIRST. */
  lemma ReorderedProperties(order: seq<Id>, decks: seq<Deck>)
    ensures multiset(Reordered(order, decks)) == multiset(decks)
    ensures forall i, j :: 0 <= i < j < |Reordered(order, decks)| && Reordered(order, decks)[i].id in order ==>
      Reordered(order, decks)[j].id in order &&
      IndexOf(order, Reordered(order, decks)[i].id) <= IndexOf(order, Reordered(order, decks)[j].id)
  {
    var key := (d: Deck) => ReorderKey(order, d);
    Sorting.SortByKeyPermutation(decks, key);
    Sorting.SortedBySortByKey(decks, key);
  }

  // ---------------------------------------------------------------------------
  // Card navigation

  /** `handleNextCard`: one card on, wrapping from the last card to the first. */
  function NextIndex(i: nat, n: nat): (r: nat)
    ensures i < n - 1 ==> r == i + 1
    ensures i >= n - 1 ==> r == 0
    ensures i < n ==> r < n
  {
    if i < n - 1 then i + 1 else 0
  }

  function NextTimes(i: nat, n: nat, k: nat): nat {
    if k == 0 then i else NextIndex(NextTimes(i, n, k - 1), n)
  }

  /** k calls of the handler (k at most the deck size) move k cards on, wrapping past the
      end once; n calls come back to the same card. */
  lemma {:induction false} NextTimesWraps(i: nat, n: nat, k: nat)
    requires i < n && k <= n
    ensures NextTimes(i, n, k) == if i + k < n then i + k else i + k - n
    ensures k == n ==> NextTimes(i, n, k) == i
  {
    if k > 0 {
      NextTimesWraps(i, n, k - 1);
    }
  }

  /** The card view's Next button is disabled from the last card on. */
  predicate NextEnabled(i: nat, n: nat) {
    i + 1 < n
  }

  /** k presses of that button; a press while it is disabled does nothing. */
  function NextPresses(i: nat, n: nat, k: nat): nat {
    if k == 0 then i
    else
      var j := NextPresses(i, n, k - 1);
      if NextEnabled(j, n) then NextIndex(j, n) else j
  }

  /** Through the button, next stops at the last card: the wrap to the first card is
      reached only by a call of the handler that does not come from the card view. */
  lemma {:induction false} NextPressesStop(i: nat, n: nat, k: nat)
    requires i < n
    ensures NextPresses(i, n, k) == if i + k < n then i + k else n - 1
  {
    if k > 0 {
      NextPressesStop(i, n, k - 1);
    }
  }

  /** `handlePrevCard`: one card back, and nothing at the first card. */
  function PrevIndex(i: nat): (r: Option<nat>)
    ensures r.None? <==> i == 0
    ensures r.Some? ==> r.value == i - 1
  {
    if i > 0 then Some(i - 1) else None
  }

  /** The go-to box: a parsed target is accepted only from 1 to the number of cards, and
      jumps to the card at target - 1. */
  function GoToIndex(target: Option<int>, n: nat): (r: Option<nat>)
    ensures r.Some? <==> target.Some? && 1 <= target.value <= n
    ensures r.Some? ==> r.value == target.value - 1 && r.value < n
  {
    if target.Some? && target.value >= 1 && target.value <= n then Some(target.value - 1) else None
  }

  /** The cards kept when the card `cardId` leaves the deck. */
  function NotCard(cardId: Id): Card -> bool {
    (c: Card) => c.id != cardId
  }

  /** The position after the current card list shrank to n cards by a transfer. */
  function ClampAfterRemoval(i: nat, n: nat): (r: nat)
    ensures n > 0 ==> r < n
    ensures i < n ==> r == i
    ensures n > 0 && i >= n ==> r == n - 1
    ensures n == 0 ==> r == i
  {
    if i >= n && n > 0 then n - 1 else i
  }

  // ---------------------------------------------------------------------------
  // Daily progress

  /** The progress after `card` is counted for the day. */
  function Counted(p: DailyProgress, card: Id): (r: DailyProgress)
    ensures r.date == p.date && r.completed == p.completed + 1 && r.completedCards == p.completedCards + [card]
  {
    p.(completed := p.completed + 1, completedCards := p.completedCards + [card])
  }

  /** The end of `handleSubmitEvaluation` as written: the new progress is built from
      `captured`, the progress the handler's render saw when the submission started, and
      replaces `current` only for an evaluation of a card not already counted there. */
  function StaleFinish(captured: DailyProgress, current: DailyProgress, card: Id, evaluated: bool): (r: DailyProgress)
    ensures evaluated && card !in captured.completedCards ==> r == Counted(captured, card)
    ensures !(evaluated && card !in captured.completedCards) ==> r == current
  {
    if evaluated && card !in captured.completedCards then Counted(captured, card) else current
  }

  /** The intended end: the progress at the time the answer arrives is extended. */
  function FreshFinish(current: DailyProgress, card: Id, evaluated: bool): (r: DailyProgress)
    ensures evaluated && card !in current.completedCards ==> r == Counted(current, card)
    ensures !(evaluated && card !in current.completedCards) ==> r == current
    ensures card in r.completedCards <==> card in current.completedCards || evaluated
  {
    if evaluated && card !in current.completedCards then Counted(current, card) else current
  }

  /** Two evaluations that overlap, of two cards not yet counted, both started from `p`:
      the answer that arrives last overwrites the other, so the day counts one card, and
      the card whose answer came first is not recorded and will count again. */
  lemma OverlapLosesCompletion(p: DailyProgress, a: Id, b: Id)
    requires a != b && a !in p.completedCards && b !in p.completedCards
    ensures var afterA := StaleFinish(p, p, a, true);
      var afterB := StaleFinish(p, afterA, b, true);
      && afterB.completed == p.completed + 1
      && a !in afterB.completedCards && b in afterB.completedCards
  {
    var afterB := StaleFinish(p, StaleFinish(p, p, a, true), b, true);
    assert afterB.completedCards == p.completedCards + [b];
  }

  /** With the progress read when each answer arrives, both cards are counted, whatever
      the order of the answers, and the count stays the length of the list. */
  lemma OverlapCountsBoth(p: DailyProgress, a: Id, b: Id)
    requires a != b && a !in p.completedCards && b !in p.completedCards
    requires p.completed == |p.completedCards|
    ensures var r := FreshFinish(FreshFinish(p, a, true), b, true);
      && r.completed == p.completed + 2 && a in r.completedCards && b in r.completedCards
      && r.completed == |r.completedCards|
  {
    var afterA := FreshFinish(p, a, true);
    assert afterA.completedCards == p.completedCards + [a];
    assert b !in afterA.completedCards;
  }

  /** The sidebar's daily total: at least 10, and the count once it passes 10. */
  function DisplayTotal(completed: nat): (t: nat)
    ensures t >= 10 && t >= completed
    ensures t == completed || t == 10
  {
    if completed >= 10 then completed else 10
  }

  // ---------------------------------------------------------------------------
  // The page state

  class Home {
    var decks: seq<Deck>
    var selectedDeckId: Option<Id>
    var cards: seq<Card>
    var currentCardIndex: nat
    var deckProgress: map<Id, nat>
    var dailyProgress: DailyProgress
    var flashcardKey: nat

    /** The position is on a card whenever there are cards. */
    predicate Valid()
      reads this
    {
      |cards| > 0 ==> currentCardIndex < |cards|
    }

    /** `cards[currentCardIndex] || null`. */
    function CurrentCard(): (c: Option<Card>)
      reads this
      ensures c.Some? <==> currentCardIndex < |cards|
      ensures c.Some? ==> c.value == cards[currentCardIndex]
    {
      if currentCardIndex < |cards| then Some(cards[currentCardIndex]) else None
    }

    /** The state of a fresh page on day `today`. */
    constructor(today: string)
      ensures Valid()
      ensures decks == [] && selectedDeckId.None? && cards == [] && currentCardIndex == 0
      ensures deckProgress == map[] && dailyProgress == DailyProgress(today, 0, []) && flashcardKey == 0
    {
      decks := [];
      selectedDeckId := None;
      cards := [];
      currentCardIndex := 0;
      deckProgress := map[];
      dailyProgress := DailyProgress(today, 0, []);
      flashcardKey := 0;
    }

    /** The load effect: saved positions are taken as stored, the saved daily progress only
        when it is from today. */
    method LoadPersisted(savedProgress: Option<map<Id, nat>>, savedDaily: Option<DailyProgress>, today: string)
      modifies this
      ensures deckProgress == if savedProgress.Some? then savedProgress.value else old(deckProgress)
      ensures dailyProgress == if savedDaily.Some? && savedDaily.value.date == today then savedDaily.value else old(dailyProgress)
      ensures decks == old(decks) && selectedDeckId == old(selectedDeckId) && cards == old(cards)
      ensures currentCardIndex == old(currentCardIndex) && flashcardKey == old(flashcardKey)
      ensures old(Valid()) ==> Valid()
    {
      if savedProgress.Some? {
        deckProgress := savedProgress.value;
      }
      if savedDaily.Some? && savedDaily.value.date == today {
        dailyProgress := savedDaily.value;
      }
    }

    /** A successful `fetchDecks`: the fetched decks in the saved order if there is one. */
    method ApplyDecks(fetched: seq<Deck>, savedOrder: Option<seq<Id>>)
      modifies this
      ensures decks == if savedOrder.Some? then ApplySavedOrder(savedOrder.value, fetched) else fetched
      ensures multiset(decks) == multiset(fetched)
      ensures selectedDeckId == old(selectedDeckId) && cards == old(cards) && currentCardIndex == old(currentCardIndex)
      ensures deckProgress == old(deckProgress) && dailyProgress == old(dailyProgress) && flashcardKey == old(flashcardKey)
    {
      if savedOrder.Some? {
        decks := ApplySavedOrder(savedOrder.value, fetched);
        SavedOrderProperties(savedOrder.value, fetched);
      } else {
        decks := fetched;
      }
    }

    /** `handleReorderDecks`. */
    method ReorderDecks(newOrder: seq<Id>)
      modifies this
      ensures decks == Reordered(newOrder, old(decks)) && multiset(decks) == multiset(old(decks))
      ensures selectedDeckId == old(selectedDeckId) && cards == old(cards) && currentCardIndex == old(currentCardIndex)
      ensures deckProgress == old(deckProgress) && dailyProgress == old(dailyProgress) && flashcardKey == old(flashcardKey)
    {
      decks := Reordered(newOrder, decks);
      ReorderedProperties(newOrder, old(decks));
    }

    /** `handleSelectDeck`: saves the position in the deck being left (when it has cards),
        then opens the new deck at its saved position, or at 0 when that position is past
        its end or the fetch failed (`fetched` None). The saved position is read from the
        progress as it was before this call, as the handler's closure sees it. */
    method SelectDeck(deckId: Id, fetched: Option<seq<Card>>)
      modifies this
      requires Valid()
      ensures Valid()
      ensures deckProgress ==
        if Truthy(old(selectedDeckId)) && |old(cards)| > 0
        then old(deckProgress)[old(selectedDeckId).value := old(currentCardIndex)]
        else old(deckProgress)
      ensures selectedDeckId == Some(deckId)
      ensures cards == if fetched.Some? then fetched.value else []
      ensures var saved := if deckId in old(deckProgress) then old(deckProgress)[deckId] else 0;
        currentCardIndex == if fetched.Some? && saved < |fetched.value| then saved else 0
      ensures flashcardKey == old(flashcardKey) + 1
      ensures decks == old(decks) && dailyProgress == old(dailyProgress)
    {
      var progressSeen := deckProgress;
      if Truthy(selectedDeckId) && |cards| > 0 {
        deckProgress := deckProgress[selectedDeckId.value := currentCardIndex];
      }
      selectedDeckId := Some(deckId);
      var savedIndex := if deckId in progressSeen then progressSeen[deckId] else 0;
      currentCardIndex := savedIndex;
      flashcardKey := flashcardKey + 1;
      if fetched.Some? {
        cards := fetched.value;
        if savedIndex >= |fetched.value| {
          currentCardIndex := 0;
        }
      } else {
        cards := [];
        currentCardIndex := 0;
      }
    }

    /** `handleSubmitEvaluation` run to its end without another event in between:
        `outcome` is the evaluation the route returned (None: a failure). A card counts
        towards the day the first time it is evaluated. */
    method SubmitEvaluation(outcome: Option<Evaluation>) returns (r: Option<Evaluation>)
      modifies this
      ensures old(CurrentCard()).None? ==> r.None? && dailyProgress == old(dailyProgress)
      ensures old(CurrentCard()).Some? ==> r == outcome
      ensures var firstTime := old(CurrentCard()).Some? && outcome.Some? &&
                           old(CurrentCard()).value.id !in old(dailyProgress.completedCards);
        && dailyProgress.date == old(dailyProgress.date)
        && dailyProgress.completed == old(dailyProgress.completed) + (if firstTime then 1 else 0)
        && dailyProgress.completedCards ==
             old(dailyProgress.completedCards) + (if firstTime then [old(CurrentCard()).value.id] else [])
      ensures old(dailyProgress.completed == |dailyProgress.completedCards|) ==>
        dailyProgress.completed == |dailyProgress.completedCards|
      ensures decks == old(decks) && selectedDeckId == old(selectedDeckId) && cards == old(cards)
      ensures currentCardIndex == old(currentCardIndex) && deckProgress == old(deckProgress)
      ensures flashcardKey == old(flashcardKey)
    {
      var started, card, captured := BeginEvaluation();
      if !started {
        return None;
      }
      r := FinishEvaluation(card, captured, outcome);
    }

    /** The synchronous part of `handleSubmitEvaluation`: without a card nothing is sent;
        otherwise the card and the daily progress of this render are captured. */
    method BeginEvaluation() returns (started: bool, card: Id, captured: DailyProgress)
      ensures started <==> CurrentCard().Some?
      ensures started ==> card == CurrentCard().value.id
      ensures captured == dailyProgress
    {
      var current := CurrentCard();
      started := current.Some?;
      card := if started then current.value.id else "";
      captured := dailyProgress;
    }

    /** The continuation once the route has answered: the progress written is built from
        the captured one, even when another evaluation has changed it in the meantime. */
    method FinishEvaluation(card: Id, captured: DailyProgress, outcome: Option<Evaluation>)
      returns (r: Option<Evaluation>)
      modifies this
      ensures r == outcome
      ensures dailyProgress == StaleFinish(captured, old(dailyProgress), card, outcome.Some?)
      ensures decks == old(decks) && selectedDeckId == old(selectedDeckId) && cards == old(cards)
      ensures currentCardIndex == old(currentCardIndex) && deckProgress == old(deckProgress)
      ensures flashcardKey == old(flashcardKey)
    {
      if outcome.Some? && card !in captured.completedCards {
        dailyProgress := Counted(captured, card);
      }
      return outcome;
    }

    /** `handleCardChange`: moves to a card, remounts the flashcard and saves the position
        for the selected deck. */
    method CardChange(newIndex: nat)
      modifies this
      requires |cards| > 0 ==> newIndex < |cards|
      ensures Valid()
      ensures currentCardIndex == newIndex && flashcardKey == old(flashcardKey) + 1
      ensures deckProgress == if Truthy(selectedDeckId) then old(deckProgress)[selectedDeckId.value := newIndex]
                              else old(deckProgress)
      ensures decks == old(decks) && selectedDeckId == old(selectedDeckId) && cards == old(cards)
      ensures dailyProgress == old(dailyProgress)
    {
      currentCardIndex := newIndex;
      flashcardKey := flashcardKey + 1;
      if Truthy(selectedDeckId) {
        deckProgress := deckProgress[selectedDeckId.value := newIndex];
      }
    }

    /** `handleNextCard`: one card on, wrapping to the first. */
    method NextCard()
      modifies this
      requires Valid()
      ensures Valid()
      ensures currentCardIndex == NextIndex(old(currentCardIndex), |cards|)
      ensures flashcardKey == old(flashcardKey) + 1
      ensures deckProgress == if Truthy(selectedDeckId) then old(deckProgress)[selectedDeckId.value := currentCardIndex]
                              else old(deckProgress)
      ensures decks == old(decks) && selectedDeckId == old(selectedDeckId) && cards == old(cards)
      ensures dailyProgress == old(dailyProgress)
    {
      CardChange(NextIndex(currentCardIndex, |cards|));
    }

    /** `handlePrevCard`: one card back, and nothing at all on the first card. */
    method PrevCard()
      modifies this
      requires Valid()
      ensures Valid()
      ensures old(currentCardIndex) == 0 ==>
        && currentCardIndex == 0 && deckProgress == old(deckProgress) && flashcardKey == old(flashcardKey)
      ensures old(currentCardIndex) > 0 ==>
        && currentCardIndex == old(currentCardIndex) - 1 && flashcardKey == old(flashcardKey) + 1
        && deckProgress == if Truthy(selectedDeckId) then old(deckProgress)[selectedDeckId.value := currentCardIndex]
                           else old(deckProgress)
      ensures decks == old(decks) && selectedDeckId == old(selectedDeckId) && cards == old(cards)
      ensures dailyProgress == old(dailyProgress)
    {
      var p := PrevIndex(currentCardIndex);
      if p.Some? {
        CardChange(p.value);
      }
    }

    /** The go-to box on Enter or blur; `target` is `parseInt` of its text (None: NaN). */
    method GoTo(target: Option<int>)
      modifies this
      requires Valid()
      ensures Valid()
      ensures GoToIndex(target, |old(cards)|).Some? ==>
        && currentCardIndex == target.value - 1 && flashcardKey == old(flashcardKey) + 1
        && deckProgress == if Truthy(selectedDeckId) then old(deckProgress)[selectedDeckId.value := currentCardIndex]
                           else old(deckProgress)
      ensures GoToIndex(target, |old(cards)|).None? ==>
        && currentCardIndex == old(currentCardIndex) && deckProgress == old(deckProgress)
        && flashcardKey == old(flashcardKey)
      ensures decks == old(decks) && selectedDeckId == old(selectedDeckId) && cards == old(cards)
      ensures dailyProgress == old(dailyProgress)
    {
      var g := GoToIndex(target, |cards|);
      if g.Some? {
        CardChange(g.value);
      }
    }

    /** `handleTransferCard` moving card `cardId` away. `succeeded` is the route's answer;
        on success the deck list is refetched first (`refreshed`: the decks `fetchDecks`
        got, None when that fetch failed; `savedOrder`: the parsed saved order, None when
        absent or unreadable), then the card leaves the list and the position is pulled
        back onto the last card if it fell off the end. */
    method TransferCard(cardId: Id, succeeded: bool, refreshed: Option<seq<Deck>>, savedOrder: Option<seq<Id>>)
      returns (ok: bool)
      modifies this
      requires Valid()
      ensures Valid()
      ensures ok == succeeded
      ensures succeeded ==> cards == Filter(old(cards), NotCard(cardId))
      ensures succeeded ==> currentCardIndex == ClampAfterRemoval(old(currentCardIndex), |cards|)
      ensures succeeded && refreshed.Some? ==>
        decks == if savedOrder.Some? then ApplySavedOrder(savedOrder.value, refreshed.value) else refreshed.value
      ensures !succeeded || refreshed.None? ==> decks == old(decks)
      ensures !succeeded ==> cards == old(cards) && currentCardIndex == old(currentCardIndex)
      ensures forall i :: 0 <= i < |cards| ==> cards[i] in old(cards)
      ensures selectedDeckId == old(selectedDeckId) && flashcardKey == old(flashcardKey)
      ensures deckProgress == old(deckProgress) && dailyProgress == old(dailyProgress)
    {
      if !succeeded {
        return false;
      }
      if refreshed.Some? {
        ApplyDecks(refreshed.value, savedOrder);
      }
      RemoveCard(cardId);
      return true;
    }

    /** The transferred card leaves the list, and the index is pulled back onto it. */
    method RemoveCard(cardId: Id)
      modifies this
      requires Valid()
      ensures Valid()
      ensures cards == Filter(old(cards), NotCard(cardId))
      ensures currentCardIndex == ClampAfterRemoval(old(currentCardIndex), |cards|)
      ensures forall i :: 0 <= i < |cards| ==> cards[i] in old(cards)
      ensures decks == old(decks) && selectedDeckId == old(selectedDeckId) && flashcardKey == old(flashcardKey)
      ensures deckProgress == old(deckProgress) && dailyProgress == old(dailyProgress)
    {
      var newCards := Filter(cards, NotCard(cardId));
      cards := newCards;
      currentCardIndex := ClampAfterRemoval(currentCardIndex, |newCards|);
    }
  }
}
