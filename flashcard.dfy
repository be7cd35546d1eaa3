/** The practice card of the home page: its four-phase state machine, the per-card results
    kept in local storage, and the date-seeded daily quote.

    The card shown is an input (`Load`); the evaluation call is split into the synchronous
    part (`BeginSubmit`) and its continuation (`FinishSubmit`), whose outcome is an oracle.
    Local storage is abstracted to the parsed record map, or to a value that fails to
    parse. */
module Flashcard {
  import opened Base

  // ---------------------------------------------------------------------------------
  // 32-bit integer semantics of the JavaScript bit operators
  // ---------------------------------------------------------------------------------

  const TwoTo31: int := 0x8000_0000
  const TwoTo32: int := 0x1_0000_0000

  /** ECMAScript ToInt32 on an integral number: reduction modulo 2^32 into the signed range. */
  function ToInt32(x: int): (r: int)
    ensures -TwoTo31 <= r < TwoTo31
    ensures -TwoTo31 <= x < TwoTo31 ==> r == x
  {
    (x + TwoTo31) % TwoTo32 - TwoTo31
  }

  lemma WrapMultiple(x: int, k: int)
    ensures ToInt32(x + TwoTo32 * k) == ToInt32(x)
  {
  }

  /** Wrapping an intermediate value does not change the wrapped result. */
  lemma WrapInner(a: int, b: int)
    ensures ToInt32(ToInt32(a) + b) == ToInt32(a + b)
  {
    var q := (a + TwoTo31) / TwoTo32;
    assert ToInt32(a) == a - TwoTo32 * q;
    WrapMultiple(a + b, -q);
  }

  /** `h << 5`: the operand is taken as a 32-bit integer and the shifted bits wrap. */
  function ShiftLeft5(h: int): int { ToInt32(ToInt32(h) * 32) }

  /** `x & x`: every bit of the 32-bit operand is kept, which only truncates to 32 bits. */
  function SelfAnd(x: int): int { ToInt32(x) }

  /** `Math.abs`. */
  function Abs(x: int): nat { if x < 0 then -x else x }

  // ---------------------------------------------------------------------------------
  // Daily quote
  // ---------------------------------------------------------------------------------

  /** The number of quotes in the rotation. */
  const QuoteCount: nat := 10

  /** The decimal rendering of a non-negative number, as a template literal prints it. */
  function Decimal(n: nat): (s: string)
    ensures |s| >= 1
    ensures forall i :: 0 <= i < |s| ==> '0' <= s[i] <= '9'
    ensures n < 10 ==> |s| == 1
  {
    var d := [(n % 10 + '0' as int) as char];
    if n < 10 then d else Decimal(n / 10) + d
  }

  /** The number a string of decimal digits denotes. */
  function DigitsValue(s: string): nat
    requires forall i :: 0 <= i < |s| ==> '0' <= s[i] <= '9'
  {
    if s == [] then 0 else 10 * DigitsValue(s[..|s| - 1]) + (s[|s| - 1] as int - '0' as int)
  }

  /** The rendering reads back as the number it renders. */
  lemma {:induction false} DecimalReadsBack(n: nat)
    ensures DigitsValue(Decimal(n)) == n
  {
    var s := Decimal(n);
    if n >= 10 {
      DecimalReadsBack(n / 10);
      assert s[..|s| - 1] == Decimal(n / 10);
    }
  }

  /** The date key `year-month-day`, with the month counted from 1 and no zero padding:
      three digit runs joined by two dashes. */
  function DateString(year: nat, monthIndex: nat, day: nat): (s: string)
    ensures |s| == |Decimal(year)| + |Decimal(monthIndex + 1)| + |Decimal(day)| + 2 >= 5
    ensures forall i :: 0 <= i < |s| ==> ('0' <= s[i] <= '9' || s[i] == '-')
    ensures s[|Decimal(year)|] == '-' && s[..|Decimal(year)|] == Decimal(year)
  {
    Decimal(year) + "-" + Decimal(monthIndex + 1) + "-" + Decimal(day)
  }

  /** The string hash: each character code added to 31 times the running hash, wrapped to
      32 bits after every step. */
  function DateHash(s: string): (h: int)
    ensures -TwoTo31 <= h < TwoTo31
    ensures s == [] ==> h == 0
  {
    if s == [] then 0 else ToInt32(31 * DateHash(s[..|s| - 1]) + s[|s| - 1] as int)
  }

  /** The quote of the day for a date key: the absolute hash modulo the number of quotes. */
  function QuoteIndexOf(s: string): (i: nat)
    ensures i < QuoteCount
  {
    Abs(DateHash(s)) % QuoteCount
  }

  /** One step of the loop, written with the shift, equals one step of the hash. */
  lemma ShiftStep(h: int, c: int)
    requires -TwoTo31 <= h < TwoTo31
    ensures SelfAnd(ShiftLeft5(h) - h + c) == ToInt32(31 * h + c)
  {
    WrapInner(h * 32, -h + c);
  }

  /** `getDailyQuoteIndex` for the local date (`year`, `monthIndex` as `getMonth()` gives
      it, `day`): the loop over the date key, with the shift-and-subtract step of the
      source. */
  method DailyQuoteIndex(year: nat, monthIndex: nat, day: nat) returns (index: nat)
    ensures index == QuoteIndexOf(DateString(year, monthIndex, day))
    ensures index < QuoteCount
  {
    var dateString := DateString(year, monthIndex, day);
    var hash := 0;
    for i := 0 to |dateString|
      invariant hash == DateHash(dateString[..i])
    {
      var code := dateString[i] as int;
      ShiftStep(hash, code);
      hash := ShiftLeft5(hash) - hash + code;
      hash := SelfAnd(hash);
      assert dateString[..i + 1][..i] == dateString[..i];
    }
    assert dateString[..|dateString|] == dateString;
    index := Abs(hash) % QuoteCount;
  }

  // ---------------------------------------------------------------------------------
  // Saved card results
  // ---------------------------------------------------------------------------------

  /** What is kept for a card once it has been evaluated. */
  datatype SavedCardState = SavedCardState(userInput: string, evaluation: Evaluation, timestamp: int)

  /** The storage entry: absent (or empty), a record keyed by card id, or text that does
      not parse (every read of it fails and is only logged). */
  datatype Storage =
    | Missing
    | Records(states: map<Id, SavedCardState>)
    | Unreadable

  /** The saved state of one card, if the storage holds one. */
  function LoadEntry(st: Storage, cardId: Id): (e: Option<SavedCardState>)
    ensures e.Some? <==> st.Records? && cardId in st.states
    ensures e.Some? ==> e.value == st.states[cardId]
  {
    if st.Records? && cardId in st.states then Some(st.states[cardId]) else None
  }

  /** Records one card's input and evaluation; a missing entry starts a new record, an
      unreadable one is left as it is. */
  function SaveEntry(st: Storage, cardId: Id, input: string, eval: Evaluation, now: int): (r: Storage)
    ensures st.Unreadable? <==> r.Unreadable?
    ensures r.Records? ==> r.states.Keys == (if st.Records? then st.states.Keys else {}) + {cardId}
  {
    match st
    case Missing => Records(map[cardId := SavedCardState(input, eval, now)])
    case Records(states) => Records(states[cardId := SavedCardState(input, eval, now)])
    case Unreadable => Unreadable
  }

  /** Removes one card's entry; an absent or unreadable entry is left as it is. */
  function ClearEntry(st: Storage, cardId: Id): (r: Storage)
    ensures r.Records? <==> st.Records?
    ensures r.Records? ==> r.states.Keys == st.states.Keys - {cardId}
  {
    match st
    case Records(states) => Records(states - {cardId})
    case _ => st
  }

  /** A saved evaluation is what the card shows when it is loaded again, unless the
      storage cannot be read. */
  lemma LoadAfterSave(st: Storage, cardId: Id, input: string, eval: Evaluation, now: int)
    requires !st.Unreadable?
    ensures LoadEntry(SaveEntry(st, cardId, input, eval, now), cardId) == Some(SavedCardState(input, eval, now))
  {
  }

  /** After a refresh the card has no saved state. */
  lemma LoadAfterClear(st: Storage, cardId: Id)
    ensures LoadEntry(ClearEntry(st, cardId), cardId) == None
  {
  }

  /** Saving or clearing one card leaves every other card's saved state alone. */
  lemma OtherCardsUntouched(st: Storage, cardId: Id, other: Id, input: string, eval: Evaluation, now: int)
    requires other != cardId
    ensures LoadEntry(SaveEntry(st, cardId, input, eval, now), other) == LoadEntry(st, other)
    ensures LoadEntry(ClearEntry(st, cardId), other) == LoadEntry(st, other)
  {
  }

  // ---------------------------------------------------------------------------------
  // The card's state machine
  // ---------------------------------------------------------------------------------

  datatype Phase = Idle | Input | Evaluating | Result

  /** What `onSubmit` produced: an evaluation, a null result, or a thrown error. */
  datatype SubmitOutcome = Evaluated(eval: Evaluation) | NoEvaluation | Threw

  const NoEvaluationMessage: string :=
    "Failed to get AI evaluation. The AI service may be temporarily unavailable. Please try again."
  const ThrewMessage: string := "An error occurred during evaluation. Please check your network connection."

  class FlashcardView {
    var card: Option<Id>
    var phase: Phase
    var userInput: string
    var evaluation: Option<Evaluation>
    var evaluationError: Option<string>
    var storage: Storage
    /** Counts the mounts of the view: a continuation started under an earlier mount
        belongs to an instance that is gone. */
    var generation: nat

    /** The result view always has an evaluation to show. */
    predicate Valid()
      reads this
    {
      phase == Result ==> evaluation.Some?
    }

    constructor(storage: Storage)
      ensures Valid()
      ensures card == None && phase == Idle && userInput == "" && evaluation == None
      ensures evaluationError == None && this.storage == storage && generation == 0
    {
      card := None;
      phase := Idle;
      userInput := "";
      evaluation := None;
      evaluationError := None;
      this.storage := storage;
      generation := 0;
    }

    /** The effect run when the card changes: a saved result is restored in the result
        view; otherwise the card starts idle and blank. Without a card nothing is reset. */
    method Load(newCard: Option<Id>)
      requires Valid()
      modifies this
      ensures Valid()
      ensures card == newCard && storage == old(storage) && generation == old(generation)
      ensures newCard.None? ==>
        && phase == old(phase) && userInput == old(userInput)
        && evaluation == old(evaluation) && evaluationError == old(evaluationError)
      ensures newCard.Some? && LoadEntry(storage, newCard.value).Some? ==>
        && phase == Result
        && userInput == LoadEntry(storage, newCard.value).value.userInput
        && evaluation == Some(LoadEntry(storage, newCard.value).value.evaluation)
        && evaluationError == old(evaluationError)
      ensures newCard.Some? && LoadEntry(storage, newCard.value).None? ==>
        phase == Idle && userInput == "" && evaluation == None && evaluationError == None
    {
      card := newCard;
      if newCard.None? {
        return;
      }
      var saved := LoadEntry(storage, newCard.value);
      if saved.Some? {
        userInput := saved.value.userInput;
        evaluation := Some(saved.value.evaluation);
        phase := Result;
        return;
      }
      phase := Idle;
      userInput := "";
      evaluation := None;
      evaluationError := None;
    }

    /** A change of the view's `key`: the instance is dropped and a fresh one is mounted,
        idle and blank, whose load effect then runs for `newCard`. Both pages key the view
        by the card index and a counter, so next, previous and go-to, picking a deck and
        Review Again remount it. A new card under the same key (the cards of a fetch
        arriving, or a transfer that keeps the index) is `Load` on the mounted view; none
        of these can meet a view that is evaluating, which shows no transfer button and
        is remounted when a deck is picked. */
    method Remount(newCard: Option<Id>)
      requires Valid()
      modifies this
      ensures Valid()
      ensures generation == old(generation) + 1 && card == newCard && storage == old(storage)
      ensures newCard.Some? && LoadEntry(storage, newCard.value).Some? ==>
        && phase == Result
        && userInput == LoadEntry(storage, newCard.value).value.userInput
        && evaluation == Some(LoadEntry(storage, newCard.value).value.evaluation)
        && evaluationError == None
      ensures !(newCard.Some? && LoadEntry(storage, newCard.value).Some?) ==>
        phase == Idle && userInput == "" && evaluation == None && evaluationError == None
    {
      generation := generation + 1;
      phase, userInput, evaluation, evaluationError := Idle, "", None, None;
      Load(newCard);
    }

    /** Refresh: forget the card's saved result and start over. */
    method Refresh()
      requires Valid()
      modifies this
      ensures Valid()
      ensures card == old(card) && generation == old(generation)
      ensures storage == (if old(card).Some? then ClearEntry(old(storage), old(card).value) else old(storage))
      ensures phase == Idle && userInput == "" && evaluation == None && evaluationError == None
    {
      if card.Some? {
        storage := ClearEntry(storage, card.value);
      }
      phase := Idle;
      userInput := "";
      evaluation := None;
      evaluationError := None;
    }

    /** Start writing: a blank input. */
    method StartWriting()
      requires Valid()
      modifies this
      ensures Valid()
      ensures card == old(card) && storage == old(storage) && generation == old(generation)
      ensures phase == Input && userInput == "" && evaluation == None && evaluationError == None
    {
      phase := Input;
      userInput := "";
      evaluation := None;
      evaluationError := None;
    }

    /** Typing in the text area. */
    method Type(text: string)
      requires Valid()
      modifies this
      ensures Valid()
      ensures userInput == text
      ensures card == old(card) && phase == old(phase) && evaluation == old(evaluation)
      ensures evaluationError == old(evaluationError) && storage == old(storage)
      ensures generation == old(generation)
    {
      userInput := text;
    }

    /** The Back button of the input view. */
    method Back()
      requires Valid()
      modifies this
      ensures Valid()
      ensures phase == Idle
      ensures card == old(card) && userInput == old(userInput) && evaluation == old(evaluation)
      ensures evaluationError == old(evaluationError) && storage == old(storage)
      ensures generation == old(generation)
    {
      phase := Idle;
    }

    /** The synchronous part of a submission: nothing happens for blank input or without a
        card; otherwise the view waits, and the card, the input and the mount are captured
        for the continuation. */
    method BeginSubmit() returns (started: bool, cardId: Id, input: string, mount: nat)
      requires Valid()
      modifies this
      ensures Valid()
      ensures started <==> !IsBlank(old(userInput)) && old(card).Some?
      ensures !started ==>
        && phase == old(phase) && evaluationError == old(evaluationError)
      ensures started ==>
        && phase == Evaluating && evaluationError == None
        && cardId == old(card).value && input == old(userInput)
      ensures card == old(card) && userInput == old(userInput)
      ensures evaluation == old(evaluation) && storage == old(storage)
      ensures generation == old(generation) && mount == generation
    {
      cardId, input, mount := "", userInput, generation;
      if IsBlank(userInput) || card.None? {
        return false, cardId, input, mount;
      }
      started, cardId := true, card.value;
      phase := Evaluating;
      evaluationError := None;
    }

    /** The continuation of a submission for `cardId` with `input`, started under `mount`:
        an evaluation is saved under the captured card whether or not the view is still
        mounted. Only the instance that started it shows the outcome: the evaluation in the
        result view, or the input view with a message. */
    method FinishSubmit(cardId: Id, input: string, outcome: SubmitOutcome, now: int, mount: nat)
      requires Valid()
      modifies this
      ensures Valid()
      ensures card == old(card) && userInput == old(userInput) && generation == old(generation)
      ensures storage == if outcome.Evaluated? then SaveEntry(old(storage), cardId, input, outcome.eval, now)
                         else old(storage)
      ensures mount != generation ==>
        phase == old(phase) && evaluation == old(evaluation) && evaluationError == old(evaluationError)
      ensures mount == generation && outcome.Evaluated? ==>
        phase == Result && evaluation == Some(outcome.eval) && evaluationError == old(evaluationError)
      ensures mount == generation && outcome.NoEvaluation? ==>
        phase == Input && evaluationError == Some(NoEvaluationMessage) && evaluation == old(evaluation)
      ensures mount == generation && outcome.Threw? ==>
        phase == Input && evaluationError == Some(ThrewMessage) && evaluation == old(evaluation)
    {
      if outcome.Evaluated? {
        storage := SaveEntry(storage, cardId, input, outcome.eval, now);
      }
      if mount != generation {
        return;
      }
      match outcome
      case Evaluated(e) =>
        evaluation := Some(e);
        phase := Result;
      case NoEvaluation =>
        evaluationError := Some(NoEvaluationMessage);
        phase := Input;
      case Threw =>
        evaluationError := Some(ThrewMessage);
        phase := Input;
    }
  }

  /** Card "a" is submitted and the user moves on to card "b" before the answer arrives:
      "b" is shown idle and blank, and "a"'s result is kept for when it is shown again. */
  method SwitchDuringEvaluation(e: Evaluation, now: int) returns (view: FlashcardView)
    ensures view.card == Some("b") && view.phase == Idle && view.evaluation == None
    ensures LoadEntry(view.storage, "a") == Some(SavedCardState("x", e, now))
  {
    view := new FlashcardView(Missing);
    view.Remount(Some("a"));
    view.StartWriting();
    view.Type("x");
    assert !IsSpace("x"[0]);
    var started, cardId, input, mount := view.BeginSubmit();
    assert started && cardId == "a" && input == "x" && view.storage == Missing;
    view.Remount(Some("b"));
    view.FinishSubmit(cardId, input, Evaluated(e), now, mount);
  }
}
