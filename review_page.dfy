/** The vault review session: which endpoint the cards come from, walking through them
    with Next and Previous, the completion screen, restarting and leaving. The fetch
    response is an oracle. */
module ReviewPage {
  import opened Base

  /** The navigation counters of a session. `flashcardKey` forces a fresh card view. */
  datatype Session = Session(currentIndex: nat, practicedCount: nat, sessionComplete: bool, flashcardKey: nat)

  /** Next card, for a list of `len` cards: one more card practised; at the last card (or
      with a single card) the session completes where it is; otherwise the next card. */
  function NextOf(len: nat, s: Session): (r: Session)
    ensures r.practicedCount == s.practicedCount + 1
    ensures len == 1 || s.currentIndex >= len - 1 ==>
      r.sessionComplete && r.currentIndex == s.currentIndex && r.flashcardKey == s.flashcardKey
    ensures !(len == 1 || s.currentIndex >= len - 1) ==>
      && r.sessionComplete == s.sessionComplete
      && r.currentIndex == s.currentIndex + 1 && r.currentIndex < len
      && r.flashcardKey == s.flashcardKey + 1
  {
    var s' := s.(practicedCount := s.practicedCount + 1);
    if len == 1 || s.currentIndex >= len - 1 then s'.(sessionComplete := true)
    else s'.(currentIndex := s.currentIndex + 1, flashcardKey := s.flashcardKey + 1)
  }

  /** Previous card: one back, and nothing at the first card. */
  function PrevOf(s: Session): (r: Session)
    ensures s.currentIndex > 0 ==> r == s.(currentIndex := s.currentIndex - 1, flashcardKey := s.flashcardKey + 1)
    ensures s.currentIndex == 0 ==> r == s
    ensures r.currentIndex <= s.currentIndex
  {
    if s.currentIndex > 0 then s.(currentIndex := s.currentIndex - 1, flashcardKey := s.flashcardKey + 1) else s
  }

  /** Review Again: back to the first card with nothing practised. */
  function RestartOf(s: Session): (r: Session)
    ensures !r.sessionComplete && r.currentIndex == 0 && r.practicedCount == 0
    ensures r.flashcardKey == s.flashcardKey + 1
  {
    Session(0, 0, false, s.flashcardKey + 1)
  }

  /** `k` calls of the Next handler. */
  function NextTimes(len: nat, s: Session, k: nat): Session
    decreases k
  {
    if k == 0 then s else NextOf(len, NextTimes(len, s, k - 1))
  }

  /** Walking a session of `len` cards from the start: every call of the Next handler
      before the last moves one card on, and the call on the last card completes the
      session having practised all of them. Each of these calls comes from a Next button
      that `SessionNextEnabled` enables, none of them after the session is complete. */
  lemma {:induction false} WalkThrough(len: nat, key: nat, k: nat)
    requires 1 <= len && k <= len
    ensures var s := NextTimes(len, Session(0, 0, false, key), k);
      && s.practicedCount == k
      && (k < len ==> s.currentIndex == k && !s.sessionComplete && s.flashcardKey == key + k)
      && (k == len ==> s.currentIndex == len - 1 && s.sessionComplete)
      && (k < len ==> SessionNextEnabled(len, s))
    decreases k
  {
    if k > 0 {
      WalkThrough(len, key, k - 1);
    }
  }

  // The card view's navigation buttons

  /** The card view's Next button is disabled from the last card on and its Previous
      button on the first card; neither is shown once the session is complete. */
  predicate NextEnabled(len: nat, s: Session) {
    !s.sessionComplete && s.currentIndex + 1 < len
  }

  predicate PrevEnabled(s: Session) {
    !s.sessionComplete && s.currentIndex > 0
  }

  /** The corrected Next button of a review session: also enabled on the last card, so that
      pressing it there completes the session. */
  predicate SessionNextEnabled(len: nat, s: Session) {
    !s.sessionComplete && s.currentIndex < len
  }

  datatype Press = NextPress | PrevPress

  /** A run of button presses on the card view; a press on a disabled button does nothing.
      `corrected` selects `SessionNextEnabled` for Next instead of `NextEnabled`. */
  function Pressed(len: nat, s: Session, presses: seq<Press>, corrected: bool): Session
    decreases |presses|
  {
    if presses == [] then s
    else
      var t := Pressed(len, s, presses[..|presses| - 1], corrected);
      match presses[|presses| - 1]
      case NextPress =>
        if (if corrected then SessionNextEnabled(len, t) else NextEnabled(len, t)) then NextOf(len, t) else t
      case PrevPress =>
        if PrevEnabled(t) then PrevOf(t) else t
  }

  /** With the buttons as written, no run of presses ever completes a session: an enabled
      Next never reaches the completion branch of the handler. */
  lemma {:induction false} CompletionUnreachable(len: nat, s: Session, presses: seq<Press>)
    requires !s.sessionComplete
    ensures !Pressed(len, s, presses, false).sessionComplete
    decreases |presses|
  {
    if presses != [] {
      CompletionUnreachable(len, s, presses[..|presses| - 1]);
    }
  }

  /** Two cards: the second press of Next is ignored, and the session stays on the last
      card with one card practised. */
  lemma LastCardNextIgnored(key: nat)
    ensures var s := Pressed(2, Session(0, 0, false, key), [NextPress, NextPress], false);
      s.currentIndex == 1 && s.practicedCount == 1 && !s.sessionComplete
  {
    var start := Session(0, 0, false, key);
    assert [NextPress, NextPress][..1] == [NextPress];
    assert [NextPress][..0] == [];
    assert Pressed(2, start, [NextPress], false) == NextOf(2, start);
  }

  /** `k` presses of Next. */
  function Nexts(k: nat): (r: seq<Press>)
    ensures |r| == k && forall i :: 0 <= i < k ==> r[i] == NextPress
  {
    if k == 0 then [] else Nexts(k - 1) + [NextPress]
  }

  /** With the corrected button, `k` presses of Next from the start of a session are `k`
      calls of the handler; `len` presses complete it having practised every card. */
  lemma {:induction false} CorrectedWalkCompletes(len: nat, key: nat, k: nat)
    requires 1 <= len && k <= len
    ensures Pressed(len, Session(0, 0, false, key), Nexts(k), true) == NextTimes(len, Session(0, 0, false, key), k)
    ensures k == len ==>
      var s := Pressed(len, Session(0, 0, false, key), Nexts(k), true);
      s.sessionComplete && s.practicedCount == len
    decreases k
  {
    if k > 0 {
      CorrectedWalkCompletes(len, key, k - 1);
      assert Nexts(k)[..k - 1] == Nexts(k - 1);
      WalkThrough(len, key, k - 1);
    }
    WalkThrough(len, key, k);
  }

  /** The index stays on a card as long as there are cards. */
  predicate IndexInRange(len: nat, s: Session) {
    len > 0 ==> s.currentIndex < len
  }

  lemma NavigationKeepsIndex(len: nat, s: Session)
    requires IndexInRange(len, s)
    ensures IndexInRange(len, NextOf(len, s))
    ensures IndexInRange(len, PrevOf(s))
    ensures IndexInRange(len, RestartOf(s))
  {
  }

  /** Where Back goes. */
  datatype Destination = RouterBack | Push(path: string)

  function BackTarget(cardId: Option<string>, level: Option<string>): (d: Destination)
    ensures Truthy(cardId) ==> d == RouterBack
    ensures !Truthy(cardId) && Truthy(level) ==> d == Push("/vault/" + level.value)
    ensures !Truthy(cardId) && !Truthy(level) ==> d == Push("/vault")
  {
    if Truthy(cardId) then RouterBack
    else if Truthy(level) then Push("/vault/" + level.value)
    else Push("/vault")
  }

  /** A request: a path and the query parameters in the order they are appended. */
  datatype Url = Url(path: string, query: seq<(string, string)>)

  function PracticePath(): string { "/api/vault/cards/practice" }

  /** The single-card endpoint when a card id is given; otherwise the practice endpoint
      with the level and the deck when they are present. */
  function FetchUrl(level: Option<string>, deckId: Option<string>, cardId: Option<string>): (u: Url)
    ensures Truthy(cardId) ==> u == Url("/api/vault/card/" + cardId.value, [])
    ensures !Truthy(cardId) ==> u.path == PracticePath()
    ensures !Truthy(cardId) ==> |u.query| == (if Truthy(level) then 1 else 0) + (if Truthy(deckId) then 1 else 0)
    ensures !Truthy(cardId) && Truthy(level) ==> u.query[0] == ("level", level.value)
    ensures !Truthy(cardId) && Truthy(deckId) ==> u.query[|u.query| - 1] == ("deckId", deckId.value)
  {
    if Truthy(cardId) then Url("/api/vault/card/" + cardId.value, [])
    else
      var withLevel := if Truthy(level) then [("level", level.value)] else [];
      var withDeck := if Truthy(deckId) then [("deckId", deckId.value)] else [];
      Url(PracticePath(), withLevel + withDeck)
  }

  /** The parsed response body: its success flag, the single `card` and the `cards` list. */
  datatype FetchData = FetchData(success: bool, card: Option<Card>, cards: Option<seq<Card>>)

  /** A successful answer carrying the card asked for by id. */
  predicate SingleCardAnswer(cardId: Option<string>, data: Option<FetchData>) {
    data.Some? && data.value.success && Truthy(cardId) && data.value.card.Some?
  }

  /** Otherwise, a successful answer carrying a list (an empty list included). */
  predicate ListAnswer(cardId: Option<string>, data: Option<FetchData>) {
    data.Some? && data.value.success && !SingleCardAnswer(cardId, data) && data.value.cards.Some?
  }

  class ReviewSession {
    var cards: seq<Card>
    var currentIndex: nat
    var practicedCount: nat
    var sessionComplete: bool
    var flashcardKey: nat
    var loading: bool

    function State(): Session
      reads this
    {
      Session(currentIndex, practicedCount, sessionComplete, flashcardKey)
    }

    /** The card shown, none past the end of the list. */
    function CurrentCard(): (c: Option<Card>)
      reads this
      ensures c.Some? <==> currentIndex < |cards|
      ensures c.Some? ==> c.value == cards[currentIndex]
    {
      if currentIndex < |cards| then Some(cards[currentIndex]) else None
    }

    constructor()
      ensures cards == [] && State() == Session(0, 0, false, 0) && loading
    {
      cards := [];
      currentIndex, practicedCount, sessionComplete, flashcardKey := 0, 0, false, 0;
      loading := true;
    }

    /** The end of a fetch (`data` None: the request or the parse threw): a successful
        single-card answer replaces the list by that card, a successful list answer by the
        list; anything else keeps the list. The index is not reset. */
    method Fetched(cardId: Option<string>, data: Option<FetchData>)
      modifies this
      ensures !loading && State() == old(State())
      ensures SingleCardAnswer(cardId, data) ==> cards == [data.value.card.value]
      ensures ListAnswer(cardId, data) ==> cards == data.value.cards.value
      ensures !SingleCardAnswer(cardId, data) && !ListAnswer(cardId, data) ==> cards == old(cards)
    {
      if data.Some? && data.value.success {
        if Truthy(cardId) && data.value.card.Some? {
          cards := [data.value.card.value];
        } else if data.value.cards.Some? {
          cards := data.value.cards.value;
        }
      }
      loading := false;
    }

    method Next()
      modifies this
      ensures State() == NextOf(|cards|, old(State()))
      ensures cards == old(cards) && loading == old(loading)
    {
      practicedCount := practicedCount + 1;
      if |cards| == 1 || currentIndex >= |cards| - 1 {
        sessionComplete := true;
      } else {
        currentIndex := currentIndex + 1;
        flashcardKey := flashcardKey + 1;
      }
    }

    method Prev()
      modifies this
      ensures State() == PrevOf(old(State()))
      ensures cards == old(cards) && loading == old(loading)
    {
      if currentIndex > 0 {
        currentIndex := currentIndex - 1;
        flashcardKey := flashcardKey + 1;
      }
    }

    method Restart()
      modifies this
      ensures State() == RestartOf(old(State()))
      ensures cards == old(cards) && loading == old(loading)
    {
      sessionComplete := false;
      currentIndex := 0;
      practicedCount := 0;
      flashcardKey := flashcardKey + 1;
    }
  }
}
