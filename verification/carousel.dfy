/** The card carousel page (js/cards.js): the carousel layout and its
    wrap-around sliding, swipe gestures, the card modal with its arrow keys,
    and replacing a card once the backend has saved it. */
module Carousel {
  import opened Common
  import opened Flashcard
  import Html
  import Cyclic

  /** Horizontal distance, in pixels, between neighbouring cards. */
  const CardSpacing: int := 380
  /** A touch must travel more than this many pixels to count as a swipe. */
  const SwipeThreshold: int := 60

  /** One rendered card: its horizontal offset, whether it is the centred
      card, and its escaped front and back text. */
  datatype Slot = Slot(offset: int, isCenter: bool, front: string, back: string)

  /** `renderCarousel` for a non-empty card list (an empty one shows "No cards"). */
  function Layout(cards: seq<Card>, center: nat): (slots: seq<Slot>)
    ensures |slots| == |cards|
  {
    seq(|cards|, i requires 0 <= i < |cards| =>
      Slot((i - center) * CardSpacing, i == center,
           Html.EscapeHtml(FrontText(cards[i])), Html.EscapeHtml(BackText(cards[i]))))
  }

  /** The centred card sits at offset 0, cards are laid out left to right
      380 pixels apart, and no card text carries markup. */
  lemma LayoutGeometry(cards: seq<Card>, center: nat)
    requires center < |cards|
    ensures Layout(cards, center)[center].offset == 0
    ensures forall i :: 0 <= i < |cards| - 1 ==>
      Layout(cards, center)[i + 1].offset == Layout(cards, center)[i].offset + CardSpacing
    ensures forall i :: 0 <= i < |cards| ==>
      && '<' !in Layout(cards, center)[i].front && '>' !in Layout(cards, center)[i].front
      && '<' !in Layout(cards, center)[i].back && '>' !in Layout(cards, center)[i].back
  {
  }

  /** Exactly one card, the one at `center`, is marked as the centre. */
  lemma ExactlyOneCenter(cards: seq<Card>, center: nat)
    requires center < |cards|
    ensures (set i | 0 <= i < |cards| && Layout(cards, center)[i].isCenter) == {center}
    ensures |set i | 0 <= i < |cards| && Layout(cards, center)[i].isCenter| == 1
  {
    var slots := Layout(cards, center);
    assert (set i | 0 <= i < |cards| && slots[i].isCenter) == {center};
  }

  /** The touchend rule: 1 (next) for a leftward swipe of more than 60 pixels,
      -1 (previous) for a rightward one, 0 (nothing) otherwise. */
  function SwipeDirection(dx: int): (d: int)
    ensures d == 1 <==> dx < -SwipeThreshold
    ensures d == -1 <==> dx > SwipeThreshold
    ensures d == 0 <==> -SwipeThreshold <= dx <= SwipeThreshold
  {
    if dx < -SwipeThreshold then 1 else if dx > SwipeThreshold then -1 else 0
  }

  /** The progress popup after a slide as the code computes it: `showProgress`
      prints `currentIndex`, the modal's card, not `centerIndex`. The unused
      `centerIndex` is kept so the signature matches `SlidePopup`. */
  function SlidePopupAsWritten(cards: seq<Card>, centerIndex: nat, currentIndex: nat): (p: Position)
    ensures p.total == |cards|
    ensures p.ordinal == currentIndex + 1
  {
    PositionOf(currentIndex, |cards|)
  }

  /** The popup after a slide, naming the card that is now centred. */
  function SlidePopup(cards: seq<Card>, centerIndex: nat): (p: Position)
    requires centerIndex < |cards|
    ensures 1 <= p.ordinal <= p.total == |cards|
    ensures Layout(cards, centerIndex)[p.ordinal - 1].isCenter
  {
    PositionOf(centerIndex, |cards|)
  }

  /** The written popup names the centred card exactly when the modal's card
      is the centred one. */
  lemma SlidePopupAgreement(cards: seq<Card>, centerIndex: nat, currentIndex: nat)
    requires centerIndex < |cards|
    ensures SlidePopupAsWritten(cards, centerIndex, currentIndex) == SlidePopup(cards, centerIndex)
      <==> currentIndex == centerIndex
    ensures currentIndex < |cards| ==>
      (Layout(cards, centerIndex)[SlidePopupAsWritten(cards, centerIndex, currentIndex).ordinal - 1].isCenter
       <==> currentIndex == centerIndex)
  {
  }

  /** The written popup can name a card other than the centred one: with three
      cards and the modal never opened, one slide forward centres the second
      card while the popup still says "Card 1 of 3". */
  lemma SlidePopupMisnamesCentre(cards: seq<Card>)
    requires |cards| == 3
    ensures var center := Cyclic.Rotate(0, 1, |cards|);
      && center == 1
      && SlidePopupAsWritten(cards, center, 0) == Position(1, 3)
      && !Layout(cards, center)[SlidePopupAsWritten(cards, center, 0).ordinal - 1].isCenter
      && SlidePopup(cards, center) == Position(2, 3)
  {
  }

  /** `slide(1)` then `slide(-1)`, or the reverse, restores the centred card. */
  lemma SlideRoundTrip(center: nat, count: nat)
    requires center < count
    ensures Cyclic.Rotate(Cyclic.Rotate(center, 1, count), -1, count) == center
    ensures Cyclic.Rotate(Cyclic.Rotate(center, -1, count), 1, count) == center
  {
    Cyclic.RotateSteps(center, count);
    Cyclic.RotateSteps(Cyclic.Rotate(center, 1, count), count);
    Cyclic.RotateSteps(Cyclic.Rotate(center, -1, count), count);
    Cyclic.NextPrevInverse(center, count);
  }

  /** What pressing the save button did. */
  datatype SaveOutcome = SaveFailed | AlreadySaved | Replaced | SavedNothingReturned

  /** The save handler on the card list. `index` is `currentIndex` and
      `response` the `created` list the backend returned. A missing card makes
      the handler throw, which it reports as a failed save. */
  function SaveResult(cards: seq<Card>, index: nat, response: Response<seq<Card>>)
    : (r: (seq<Card>, SaveOutcome))
    ensures |r.0| == |cards|
    ensures forall j :: 0 <= j < |cards| && j != index ==> r.0[j] == cards[j]
    ensures r.1 == Replaced <==>
      index < |cards| && !Truthy(cards[index].id) && response.Body? && |response.value| > 0
    ensures r.1 == Replaced ==> r.0[index] == response.value[0]
    ensures r.1 != Replaced ==> r.0 == cards
    ensures index < |cards| && Truthy(cards[index].id) ==> r.1 == AlreadySaved
  {
    if index >= |cards| then (cards, SaveFailed)
    else if Truthy(cards[index].id) then (cards, AlreadySaved)
    else if response.Failed? then (cards, SaveFailed)
    else if |response.value| > 0 then (cards[index := response.value[0]], Replaced)
    else (cards, SavedNothingReturned)
  }

  class CarouselPage {
    var cards: seq<Card>
    /** The card in the middle of the carousel. */
    var centerIndex: nat
    /** The card shown in the modal. */
    var currentIndex: nat
    var modalHidden: bool
    /** Where the current touch started, None between touches. */
    var startX: Option<int>

    ghost predicate Valid()
      reads this
    {
      (centerIndex < |cards| || centerIndex == 0) && (!modalHidden ==> currentIndex < |cards|)
    }

    /** Page load, with the cards cached in local storage. */
    constructor (cached: seq<Card>)
      ensures Valid()
      ensures cards == cached && centerIndex == 0 && currentIndex == 0 && modalHidden && startX == None
    {
      cards, centerIndex, currentIndex, modalHidden, startX := cached, 0, 0, true, None;
    }

    /** `init`: with no cached cards, load the saved ones (none if the request fails). */
    method Init(response: Response<seq<Card>>)
      requires Valid()
      modifies this`cards
      ensures Valid()
      ensures old(cards) != [] ==> cards == old(cards)
      ensures old(cards) == [] ==> cards == (if response.Body? then response.value else [])
    {
      if |cards| == 0 {
        cards := if response.Body? then response.value else [];
      }
    }

    /** `slide(direction)`; returns the progress popup, if any. */
    method Slide(direction: int) returns (popup: Option<Position>)
      requires Valid()
      requires direction == 1 || direction == -1
      modifies this`centerIndex
      ensures Valid()
      ensures old(cards) == [] ==> centerIndex == old(centerIndex) && popup == None
      ensures cards != [] ==> centerIndex == Cyclic.Rotate(old(centerIndex), direction, |cards|)
                              && popup == Some(SlidePopupAsWritten(cards, centerIndex, currentIndex))
    {
      if |cards| == 0 {
        return None;
      }
      centerIndex := (centerIndex + direction + |cards|) % |cards|;
      popup := Some(SlidePopupAsWritten(cards, centerIndex, currentIndex));
    }

    method TouchStart(x: int)
      modifies this`startX
      ensures startX == Some(x)
    {
      startX := Some(x);
    }

    /** The touchend handler: a swipe slides the carousel, a short touch does not,
        and a touchend without a recorded start is ignored. */
    method TouchEnd(x: int)
      requires Valid()
      modifies this`startX, this`centerIndex
      ensures Valid()
      ensures startX == None
      ensures old(startX) == None ==> centerIndex == old(centerIndex)
      ensures old(startX).Some? ==>
        var d := SwipeDirection(x - old(startX).value);
        centerIndex == if d == 0 || cards == [] then old(centerIndex) else Cyclic.Rotate(old(centerIndex), d, |cards|)
    {
      if startX == None {
        return;
      }
      var dx := x - startX.value;
      startX := None;
      if dx < -SwipeThreshold {
        var _ := Slide(1);
      } else if dx > SwipeThreshold {
        var _ := Slide(-1);
      }
    }

    /** `openModal(idx)`, the click handler of carousel card `idx`. */
    method OpenModal(idx: nat)
      requires Valid() && idx < |cards|
      modifies this`currentIndex, this`modalHidden
      ensures Valid()
      ensures currentIndex == idx && !modalHidden
    {
      currentIndex := idx;
      modalHidden := false;
    }

    method CloseModal()
      requires Valid()
      modifies this`modalHidden
      ensures Valid() && modalHidden
    {
      modalHidden := true;
    }

    /** The keydown handler: arrows move the modal's card with wrap-around;
        nothing happens while the modal is hidden. */
    method ModalKey(key: Key)
      requires Valid()
      modifies this`currentIndex
      ensures Valid()
      ensures currentIndex == if modalHidden then old(currentIndex)
                              else if key == ArrowRight then Cyclic.WrapNext(old(currentIndex), |cards|)
                              else if key == ArrowLeft then Cyclic.WrapPrev(old(currentIndex), |cards|)
                              else old(currentIndex)
    {
      if modalHidden {
        return;
      }
      if key == ArrowRight {
        currentIndex := (currentIndex + 1) % |cards|;
      }
      if key == ArrowLeft {
        currentIndex := (currentIndex - 1 + |cards|) % |cards|;
      }
    }

    /** The save button: a card that has an `_id` is not saved again; otherwise
        the first created card replaces it in place. */
    method Save(response: Response<seq<Card>>) returns (outcome: SaveOutcome)
      requires Valid()
      modifies this`cards
      ensures Valid()
      ensures (cards, outcome) == SaveResult(old(cards), currentIndex, response)
    {
      if currentIndex >= |cards| {
        return SaveFailed;
      }
      if Truthy(cards[currentIndex].id) {
        return AlreadySaved;
      }
      if response.Failed? {
        return SaveFailed;
      }
      if |response.value| > 0 {
        cards := cards[currentIndex := response.value[0]];
        outcome := Replaced;
      } else {
        outcome := SavedNothingReturned;
      }
    }
  }
}
