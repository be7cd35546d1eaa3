/** The deck dialogs: the manual card upload form with its editable anchor list, the target
    lists of the merge and transfer dialogs, and the rename guard. The upload, merge,
    transfer and rename calls themselves are oracles. */
module DeckDialogs {
  import opened Base

  // ---------------------------------------------------------------------------------
  // Upload form
  // ---------------------------------------------------------------------------------

  /** The two empty rows the form starts with and returns to after an upload. */
  function InitialAnchors(): seq<Anchor> {
    [Anchor("", "Formal"), Anchor("", "Academic")]
  }

  /** An anchor whose text is not blank. */
  predicate Filled(a: Anchor) {
    !IsBlank(a.text)
  }

  /** `anchors.some(a => a.text.trim())`. */
  predicate HasFilledAnchor(anchors: seq<Anchor>) {
    exists i :: 0 <= i < |anchors| && Filled(anchors[i])
  }

  /** `selectedDeckId || deckId`: the chosen deck, or the dialog's own deck when none is
      chosen. */
  function TargetDeck(selectedDeckId: string, deckId: Option<Id>): (t: Option<Id>)
    ensures selectedDeckId != "" ==> t == Some(selectedDeckId)
    ensures selectedDeckId == "" ==> t == deckId
  {
    if selectedDeckId != "" then Some(selectedDeckId) else deckId
  }

  /** The upload guard, which is also the enabling condition of the button: a target deck,
      a concept that is not blank and at least one filled anchor. */
  predicate CanUpload(selectedDeckId: string, deckId: Option<Id>, concept: string, anchors: seq<Anchor>) {
    && Truthy(TargetDeck(selectedDeckId, deckId))
    && !IsBlank(concept)
    && HasFilledAnchor(anchors)
  }

  /** `anchors.filter((_, i) => i !== index)`. */
  function RemoveAt(anchors: seq<Anchor>, index: nat): (r: seq<Anchor>)
    ensures index < |anchors| ==> |r| == |anchors| - 1
    ensures index < |anchors| ==> forall i :: 0 <= i < index ==> r[i] == anchors[i]
    ensures index < |anchors| ==> forall i :: index <= i < |r| ==> r[i] == anchors[i + 1]
    ensures index >= |anchors| ==> r == anchors
  {
    if index < |anchors| then anchors[..index] + anchors[index + 1..] else anchors
  }

  /** Which field of an anchor row is edited. */
  datatype AnchorField = TextField | TagField

  /** What is sent to the upload callback. */
  datatype UploadRequest = UploadRequest(deckId: Id, concept: string, contextHint: string, anchors: seq<Anchor>)

  /** The uploaded anchors are the filled rows, and there is at least one of them. */
  lemma UploadedAnchors(anchors: seq<Anchor>)
    requires HasFilledAnchor(anchors)
    ensures |Filter(anchors, Filled)| > 0
    ensures forall i :: 0 <= i < |Filter(anchors, Filled)| ==>
      Filter(anchors, Filled)[i] in anchors && !IsBlank(Filter(anchors, Filled)[i].text)
  {
    var i :| 0 <= i < |anchors| && Filled(anchors[i]);
    assert anchors[i] in Filter(anchors, Filled);
  }

  class UploadForm {
    const deckId: Option<Id>
    var selectedDeckId: string
    var concept: string
    var contextHint: string
    var anchors: seq<Anchor>
    var open: bool

    /** The anchor list is never empty. */
    predicate Valid()
      reads this
    {
      |anchors| >= 1
    }

    constructor(deckId: Option<Id>)
      ensures Valid()
      ensures this.deckId == deckId && open
      ensures selectedDeckId == (if Truthy(deckId) then deckId.value else "")
      ensures concept == "" && contextHint == "" && anchors == InitialAnchors()
    {
      this.deckId := deckId;
      selectedDeckId := if Truthy(deckId) then deckId.value else "";
      concept, contextHint := "", "";
      anchors := InitialAnchors();
      open := true;
    }

    /** Appends one empty row tagged Neutral. */
    method AddAnchor()
      requires Valid()
      modifies this
      ensures Valid()
      ensures anchors == old(anchors) + [Anchor("", "Neutral")]
      ensures selectedDeckId == old(selectedDeckId) && concept == old(concept)
      ensures contextHint == old(contextHint) && open == old(open)
    {
      anchors := anchors + [Anchor("", "Neutral")];
    }

    /** Removes the row at `index`, unless it is the only row. */
    method RemoveAnchor(index: nat)
      requires Valid()
      modifies this
      ensures Valid()
      ensures |old(anchors)| > 1 ==> anchors == RemoveAt(old(anchors), index)
      ensures |old(anchors)| <= 1 ==> anchors == old(anchors)
      ensures selectedDeckId == old(selectedDeckId) && concept == old(concept)
      ensures contextHint == old(contextHint) && open == old(open)
    {
      if |anchors| > 1 {
        anchors := RemoveAt(anchors, index);
      }
    }

    /** Edits one field of the row at `index` (an index past the end makes the source
        throw; the handler is only attached to existing rows). */
    method ChangeAnchor(index: nat, field: AnchorField, value: string)
      requires Valid()
      requires index < |anchors|
      modifies this
      ensures Valid()
      ensures |anchors| == |old(anchors)|
      ensures forall i :: 0 <= i < |anchors| && i != index ==> anchors[i] == old(anchors)[i]
      ensures field == TextField ==> anchors[index] == Anchor(value, old(anchors)[index].tag)
      ensures field == TagField ==> anchors[index] == Anchor(old(anchors)[index].text, value)
      ensures selectedDeckId == old(selectedDeckId) && concept == old(concept)
      ensures contextHint == old(contextHint) && open == old(open)
    {
      var row := anchors[index];
      var newRow := if field == TextField then row.(text := value) else row.(tag := value);
      anchors := anchors[index := newRow];
    }

    /** Submits the form. `succeeds` is the upload callback's answer; `request` is what
        was sent, none when the guard stops the upload. A success empties the form and
        closes the dialog; the chosen deck is kept. */
    method Upload(succeeds: bool) returns (request: Option<UploadRequest>)
      requires Valid()
      modifies this
      ensures Valid()
      ensures request.Some? <==> CanUpload(old(selectedDeckId), deckId, old(concept), old(anchors))
      ensures request.Some? ==>
        && request.value.deckId == TargetDeck(old(selectedDeckId), deckId).value
        && request.value.concept == old(concept) && request.value.contextHint == old(contextHint)
        && request.value.anchors == Filter(old(anchors), Filled)
      ensures request.Some? && succeeds ==>
        && concept == "" && contextHint == "" && anchors == InitialAnchors() && !open
      ensures request.None? || !succeeds ==>
        && concept == old(concept) && contextHint == old(contextHint)
        && anchors == old(anchors) && open == old(open)
      ensures selectedDeckId == old(selectedDeckId)
    {
      if !CanUpload(selectedDeckId, deckId, concept, anchors) {
        return None;
      }
      var sent := Filter(anchors, Filled);
      request := Some(UploadRequest(TargetDeck(selectedDeckId, deckId).value, concept, contextHint, sent));
      if succeeds {
        concept, contextHint := "", "";
        anchors := InitialAnchors();
        open := false;
      }
    }
  }

  // ---------------------------------------------------------------------------------
  // Merge and transfer targets
  // ---------------------------------------------------------------------------------

  datatype DeckOption = DeckOption(id: Id, title: string)

  /** The test of `decks.filter(d => d.id !== exclude)`; with nothing to exclude, every
      deck passes. */
  function Offered(exclude: Option<Id>): DeckOption -> bool {
    (d: DeckOption) => exclude.None? || d.id != exclude.value
  }

  /** The decks offered as a target: every deck but the source (merge) or the card's
      current deck (transfer); without one, every deck. Each offered deck appears as often
      as in `decks`, and `AvailableAppend` shows the list keeps their order. */
  function AvailableDecks(decks: seq<DeckOption>, exclude: Option<Id>): (r: seq<DeckOption>)
    ensures |r| <= |decks|
    ensures forall i :: 0 <= i < |r| ==> r[i] in decks
    ensures exclude.Some? ==> forall i :: 0 <= i < |r| ==> r[i].id != exclude.value
    ensures forall i :: 0 <= i < |decks| && (exclude.None? || decks[i].id != exclude.value) ==> decks[i] in r
    ensures forall x :: multiset(r)[x] == if exclude.None? || x.id != exclude.value then multiset(decks)[x] else 0
  {
    var r := Filter(decks, Offered(exclude));
    assert forall x :: multiset(r)[x] == if Offered(exclude)(x) then multiset(decks)[x] else 0 by {
      forall x ensures multiset(r)[x] == if Offered(exclude)(x) then multiset(decks)[x] else 0 {
        FilterCount(decks, Offered(exclude), x);
      }
    }
    r
  }

  /** The offered list follows the order of `decks`: a deck appended to the user's decks is
      appended to the list exactly when it is offered. */
  lemma AvailableAppend(decks: seq<DeckOption>, d: DeckOption, exclude: Option<Id>)
    ensures AvailableDecks(decks + [d], exclude) ==
      AvailableDecks(decks, exclude) + (if exclude.None? || d.id != exclude.value then [d] else [])
  {
    var offered := Offered(exclude);
    FilterAppend(decks, [d], offered);
    assert Filter([d], offered) == if offered(d) then [d] else [] by {
      assert [d][1..] == [];
    }
  }

  /** A target picked from the offered list is never the deck it is merged from or moved
      out of, and is one of the user's decks. */
  lemma PickedTargetDiffers(decks: seq<DeckOption>, exclude: Id, i: nat)
    requires i < |AvailableDecks(decks, Some(exclude))|
    ensures AvailableDecks(decks, Some(exclude))[i].id != exclude
    ensures AvailableDecks(decks, Some(exclude))[i] in decks
  {
  }

  // ---------------------------------------------------------------------------------
  // Rename
  // ---------------------------------------------------------------------------------

  /** The Save button: enabled for a title that is neither blank nor the current one. */
  predicate RenameEnabled(newTitle: string, currentTitle: string) {
    !IsBlank(newTitle) && newTitle != currentTitle
  }

  /** What the rename handler sends: the deck and the trimmed title, for a deck and a
      title that is not blank. */
  function RenameRequest(deckId: Option<Id>, newTitle: string): (r: Option<(Id, string)>)
    ensures r.Some? <==> Truthy(deckId) && !IsBlank(newTitle)
    ensures r.Some? ==> r.value == (deckId.value, Trim(newTitle))
  {
    if !Truthy(deckId) || IsBlank(newTitle) then None else Some((deckId.value, Trim(newTitle)))
  }

  /** The title sent is never empty and has no surrounding whitespace. */
  lemma SentTitleTrimmed(deckId: Option<Id>, newTitle: string)
    requires RenameRequest(deckId, newTitle).Some?
    ensures var t := RenameRequest(deckId, newTitle).value.1;
      t != [] && !IsSpace(t[0]) && !IsSpace(t[|t| - 1])
  {
    BlankIffTrimEmpty(newTitle);
    TrimEnds(newTitle);
  }

  /** Through the button, a rename always reaches the callback when there is a deck. */
  lemma ButtonReachesCallback(deckId: Option<Id>, newTitle: string, currentTitle: string)
    requires Truthy(deckId) && RenameEnabled(newTitle, currentTitle)
    ensures RenameRequest(deckId, newTitle).Some?
  {
  }

  /** The Enter key calls the handler directly: an unchanged title the button refuses is
      still sent. */
  lemma EnterSkipsUnchangedCheck(deckId: Id, title: string)
    requires deckId != "" && !IsBlank(title)
    ensures !RenameEnabled(title, title)
    ensures RenameRequest(Some(deckId), title) == Some((deckId, Trim(title)))
  {
  }
}
