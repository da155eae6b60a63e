/** The card record both card pages display, and the field fallbacks they
    use to pick its text. */
module Flashcard {
  import opened Common

  /** A card as the backend or the local cache hands it over. Generated cards
      carry `question`/`answer`; saved ones carry `frontText`/`backText` and an
      `_id`. A field the JSON object lacks is None. */
  datatype Card = Card(
    id: Option<string>,
    question: Option<string>,
    answer: Option<string>,
    frontText: Option<string>,
    backText: Option<string>,
    favorited: bool)

  /** JavaScript truthiness of a text field: present and not the empty string. */
  predicate Truthy(field: Option<string>) {
    field.Some? && field.value != ""
  }

  /** The position of the first truthy field, or `|fields|` when there is none. */
  function FirstTruthy(fields: seq<Option<string>>): (k: nat)
    ensures k <= |fields|
    ensures k < |fields| ==> Truthy(fields[k])
    ensures forall j :: 0 <= j < k ==> !Truthy(fields[j])
  {
    if fields == [] then 0
    else if Truthy(fields[0]) then 0
    else 1 + FirstTruthy(fields[1..])
  }

  /** No field before position `k` is truthy. */
  predicate NoneTruthyBelow(fields: seq<Option<string>>, k: nat)
    requires k <= |fields|
  {
    forall j :: 0 <= j < k ==> !Truthy(fields[j])
  }

  /** `f0 || f1 || ... || fallback` over text fields. */
  function FirstNonEmpty(fields: seq<Option<string>>, fallback: string): (s: string)
    ensures (forall j :: 0 <= j < |fields| ==> !Truthy(fields[j])) ==> s == fallback
    ensures FirstTruthy(fields) < |fields| ==> s == fields[FirstTruthy(fields)].value
    ensures forall k :: 0 <= k < |fields| && Truthy(fields[k]) && NoneTruthyBelow(fields, k) ==> s == fields[k].value
    ensures s == fallback || s != ""
  {
    var k := FirstTruthy(fields);
    if k < |fields| then fields[k].value else fallback
  }

  /** `c.question || c.frontText`, read as text (a missing value shows as ""). */
  function FrontText(c: Card): (s: string)
    ensures Truthy(c.question) ==> s == c.question.value
    ensures !Truthy(c.question) && Truthy(c.frontText) ==> s == c.frontText.value
    ensures !Truthy(c.question) && !Truthy(c.frontText) ==> s == ""
  {
    var fields := [c.question, c.frontText];
    assert NoneTruthyBelow(fields, 0);
    assert !Truthy(c.question) ==> NoneTruthyBelow(fields, 1);
    FirstNonEmpty(fields, "")
  }

  /** `c.answer || c.backText || ""` */
  function BackText(c: Card): (s: string)
    ensures Truthy(c.answer) ==> s == c.answer.value
    ensures !Truthy(c.answer) && Truthy(c.backText) ==> s == c.backText.value
    ensures !Truthy(c.answer) && !Truthy(c.backText) ==> s == ""
  {
    var fields := [c.answer, c.backText];
    assert NoneTruthyBelow(fields, 0);
    assert !Truthy(c.answer) ==> NoneTruthyBelow(fields, 1);
    FirstNonEmpty(fields, "")
  }

  /** A "card N of M" counter: the 1-based position and the number of cards. */
  datatype Position = Position(ordinal: nat, total: nat)

  /** The counter for the card at 0-based `index`, `currentIndex + 1` of `cards.length`. */
  function PositionOf(index: nat, total: nat): (p: Position)
    ensures index < total ==> 1 <= p.ordinal <= p.total == total
    ensures p.ordinal - 1 == index
  {
    Position(index + 1, total)
  }
}
