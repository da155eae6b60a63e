/** The dashboard page (js/dashboard.js): the preview of recent cards and the
    flashcard modal with wrap-around navigation. */
module Dashboard {
  import opened Common
  import opened Flashcard
  import Html
  import Cyclic

  /** At most this many recent cards are previewed. */
  const PreviewLimit: nat := 8
  /** Preview titles and bodies are cut to these many characters. */
  const TitleLimit: nat := 60
  const BodyLimit: nat := 100

  /** One preview tile: escaped question and answer, cut to length. */
  datatype Tile = Tile(title: string, body: string)

  /** `renderRecentPreview(cards.slice(0, 8))`: note the tiles use `question`
      and `answer` only, and cut the text after escaping it. */
  function PreviewTiles(cards: seq<Card>): (tiles: seq<Tile>)
    ensures |tiles| == Min(|cards|, PreviewLimit)
    ensures forall i :: 0 <= i < |tiles| ==>
      && tiles[i].title <= Html.EscapeInput(cards[i].question)
      && |tiles[i].title| == Min(|Html.EscapeInput(cards[i].question)|, TitleLimit)
      && tiles[i].body <= Html.EscapeInput(cards[i].answer)
      && |tiles[i].body| == Min(|Html.EscapeInput(cards[i].answer)|, BodyLimit)
    ensures forall i :: 0 <= i < |tiles| ==>
      '<' !in tiles[i].title && '>' !in tiles[i].title && '<' !in tiles[i].body && '>' !in tiles[i].body
  {
    var shown := Take(cards, PreviewLimit);
    seq(|shown|, i requires 0 <= i < |shown| =>
      Tile(Take(Html.EscapeInput(shown[i].question), TitleLimit),
           Take(Html.EscapeInput(shown[i].answer), BodyLimit)))
  }

  /** `c.question || c.frontText || c._id || "No question"`: never blank. */
  function ModalFront(c: Card): (s: string)
    ensures s != ""
    ensures Truthy(c.question) ==> s == c.question.value
    ensures !Truthy(c.question) && Truthy(c.frontText) ==> s == c.frontText.value
    ensures !Truthy(c.question) && !Truthy(c.frontText) && Truthy(c.id) ==> s == c.id.value
    ensures !Truthy(c.question) && !Truthy(c.frontText) && !Truthy(c.id) ==> s == "No question"
  {
    var fields := [c.question, c.frontText, c.id];
    assert NoneTruthyBelow(fields, 0);
    assert !Truthy(c.question) ==> NoneTruthyBelow(fields, 1);
    assert !Truthy(c.question) && !Truthy(c.frontText) ==> NoneTruthyBelow(fields, 2);
    FirstNonEmpty(fields, "No question")
  }

  /** What `updateModalCard` shows: front, back and the "N / M" counter. */
  datatype View = View(front: string, back: string, counter: Position)

  function ViewOf(cards: seq<Card>, index: nat): (v: View)
    requires index < |cards|
    ensures v.front != ""
    ensures 1 <= v.counter.ordinal <= v.counter.total == |cards|
    ensures v.counter.ordinal == index + 1
  {
    View(ModalFront(cards[index]), BackText(cards[index]), PositionOf(index, |cards|))
  }

  class DashboardPage {
    var cards: seq<Card>
    var currentIndex: nat
    var hidden: bool
    /** The list the preview tiles were rendered from; a tile click opens the modal on it. */
    var previewList: seq<Card>

    ghost predicate Valid()
      reads this
    {
      !hidden ==> currentIndex < |cards|
    }

    constructor ()
      ensures Valid()
      ensures cards == [] && currentIndex == 0 && hidden && previewList == []
    {
      cards, currentIndex, hidden, previewList := [], 0, true, [];
    }

    /** `loadRecentCards`, run once at page load while the modal is closed.
        `response` is the card request; its body is None when it is not an array.
        Returns the rendered tiles, None when the request failed. */
    method LoadRecentCards(response: Response<Option<seq<Card>>>) returns (tiles: Option<seq<Tile>>)
      requires Valid() && hidden
      modifies this`cards, this`previewList
      ensures Valid()
      ensures response.Failed? ==> cards == old(cards) && previewList == old(previewList) && tiles == None
      ensures response.Body? ==>
        && cards == response.value.GetOr([])
        && previewList == Take(cards, PreviewLimit)
        && tiles == Some(PreviewTiles(cards))
    {
      if response.Failed? {
        return None;
      }
      cards := response.value.GetOr([]);
      previewList := Take(cards, PreviewLimit);
      tiles := Some(PreviewTiles(cards));
    }

    /** `openFlashcardModal(list, startIndex = 0)`: ignored for a value that is
        not an array (None) or an empty list. */
    method OpenFlashcardModal(list: Option<seq<Card>>, startIndex: Option<nat>) returns (view: Option<View>)
      requires Valid()
      requires list.Some? && |list.value| > 0 ==> startIndex.GetOr(0) < |list.value|
      modifies this`cards, this`currentIndex, this`hidden
      ensures Valid()
      ensures list == None || list == Some([]) ==>
        cards == old(cards) && currentIndex == old(currentIndex) && hidden == old(hidden) && view == None
      ensures list.Some? && |list.value| > 0 ==>
        && cards == list.value && currentIndex == startIndex.GetOr(0) && !hidden
        && view == Some(ViewOf(cards, currentIndex))
    {
      if list == None || |list.value| == 0 {
        return None;
      }
      cards := list.value;
      currentIndex := startIndex.GetOr(0);
      hidden := false;
      view := Some(ViewOf(cards, currentIndex));
    }

    /** A click on preview tile `i`. */
    method ClickTile(i: nat) returns (view: Option<View>)
      requires Valid() && i < |previewList|
      modifies this`cards, this`currentIndex, this`hidden
      ensures Valid()
      ensures cards == previewList && currentIndex == i && !hidden
      ensures view == Some(ViewOf(cards, i))
    {
      view := OpenFlashcardModal(Some(previewList), Some(i));
    }

    method Close()
      requires Valid()
      modifies this`hidden
      ensures Valid() && hidden
    {
      hidden := true;
    }

    /** The previous button. */
    method Prev() returns (view: View)
      requires Valid() && !hidden
      modifies this`currentIndex
      ensures Valid()
      ensures currentIndex == Cyclic.WrapPrev(old(currentIndex), |cards|)
      ensures view == ViewOf(cards, currentIndex)
    {
      currentIndex := (currentIndex - 1 + |cards|) % |cards|;
      view := ViewOf(cards, currentIndex);
    }

    /** The next button. */
    method Next() returns (view: View)
      requires Valid() && !hidden
      modifies this`currentIndex
      ensures Valid()
      ensures currentIndex == Cyclic.WrapNext(old(currentIndex), |cards|)
      ensures view == ViewOf(cards, currentIndex)
    {
      currentIndex := (currentIndex + 1) % |cards|;
      view := ViewOf(cards, currentIndex);
    }

    /** The keydown handler: ignored while the modal is hidden; Escape hides
        it, the arrows move with wrap-around. */
    method KeyDown(key: Key) returns (view: Option<View>)
      requires Valid()
      modifies this`currentIndex, this`hidden
      ensures Valid()
      ensures old(hidden) ==> currentIndex == old(currentIndex) && hidden && view == None
      ensures !old(hidden) ==>
        && hidden == (key == Escape)
        && currentIndex == (if key == ArrowRight then Cyclic.WrapNext(old(currentIndex), |cards|)
                            else if key == ArrowLeft then Cyclic.WrapPrev(old(currentIndex), |cards|)
                            else old(currentIndex))
        && view == (if key == ArrowRight || key == ArrowLeft then Some(ViewOf(cards, currentIndex)) else None)
    {
      view := None;
      if hidden {
        return;
      }
      if key == Escape {
        hidden := true;
      } else if key == ArrowRight {
        var v := Next();
        view := Some(v);
      } else if key == ArrowLeft {
        var v := Prev();
        view := Some(v);
      }
    }
  }
}
