# Flashcard client: quiz session, carousel and dashboard navigation

A model, in Dafny, of the state kept by three pages of a browser client for a
flashcard study application:

- the **quiz page** (`js/quiz.js`): picking the card source and question count,
  the session state `quiz` / `answers` / `current`, clamped previous/next
  navigation, recording a chosen option, scoring an attempt, retrying it, and
  the keyboard handler that is blocked while results are shown;
- the **card carousel page** (`js/cards.js`): the carousel layout (offsets
  380 pixels apart, one centred card), wrap-around sliding, swipe gestures with
  a 60-pixel threshold, the card modal's arrow keys, and replacing a card in
  place once the backend has saved it;
- the **dashboard page** (`js/dashboard.js`): the preview of at most 8 recent
  cards with text cut to 60 and 100 characters, the flashcard modal with
  wrap-around navigation, its field fallbacks and its "N / M" counter;
- **`escapeHtml`**, the helper all three pages use: replace `&`, then `<`,
  then `>`.

Files: `common.dfy` (Option, Result, network responses, keys, `slice(0, n)`),
`html.dfy` (escaping), `cyclic.dfy` (modulo navigation shared by the carousel
and the dashboard), `flashcard.dfy` (the card record and its text fallbacks),
`quiz.dfy`, `carousel.dfy`, `dashboard.dfy`.

Each page's module-level variables become the fields of a class
(`Quiz.QuizSession`, `Carousel.CarouselPage`, `Dashboard.DashboardPage`), whose
event handlers are methods with `modifies` frames and a `Valid()` invariant
(the cursor stays inside the list; the modal is only open on an existing card).
The decisions those handlers make are pure functions, and the properties are
proved about those functions: escaping round-trips through `Html.Unescape` and
equals a one-pass rewrite; the wrap-around steps are inverse and a full turn
returns to the start; scoring counts exactly the right answers, and one choice
changes only its own question's row.

Network results (`fetch`, `res.json()`), the local-storage cache and the
generated quiz are parameters of the methods that use them. A `Response` is
`Failed` when the request threw or `res.ok` was false where the page checks it.

The quiz page loads whatever list the generator returns, an empty one
included, and never checks the shape of a question; there is no operation
that jumps to an arbitrary question. The model follows this: the shape of a
question is a precondition (`Quiz.WellFormedQuiz`), and an empty quiz loads
like any other. Loading an empty quiz does not clear the previous quiz's
option buttons (`renderQuestion` returns before it empties them), and those
buttons still record answers at their old positions; the model lets
`Quiz.QuizSession.ChooseOption` record an answer past the end of the quiz,
and `Quiz.StaleChoiceKeepsScore` shows that such an answer never changes the
score.

## Model

| member | source | states |
|---|---|---|
| `Html.ReplaceAll` | js/quiz.js:169 | one global `replace`: the replaced character is gone when its replacement does not contain it, and every other character not in the replacement is present exactly when it was before |
| `Html.EscapeHtml` | js/quiz.js:169 | the escaped text contains no `<` and no `>` |
| `Html.EscapeInput` | js/cards.js:54 | `(s || '')`: a missing value escapes to the empty string; the result has no `<` or `>` |
| `Html.EscapeHtmlIsOnePass` | js/quiz.js:169 | the three successive replacements equal a one-pass, character-by-character rewrite, so the `&` of a produced `&lt;` or `&gt;` is never escaped again |
| `Html.EscapeHtmlAppend` | js/dashboard.js:165 | escaping a concatenation is the concatenation of the escaped parts, so characters keep their order |
| `Html.UnescapeEscape` | js/dashboard.js:165 | round trip: reading the entities back gives the original text |
| `Html.EscapeHtmlInjective` | js/dashboard.js:165 | two texts that escape alike are equal |
| `Html.PlainTextUnchanged` | js/dashboard.js:165 | text without `&`, `<`, `>` is returned unchanged |
| `Html.EscapeHtmlLength` | js/cards.js:54 | each `&` adds four characters and each `<` or `>` adds three |
| `Cyclic.WrapNext` | js/dashboard.js:117 | `(i + 1) % len` stays in `[0, len)` and moves from the last card to the first |
| `Cyclic.WrapPrev` | js/dashboard.js:113 | `(i - 1 + len) % len` stays in `[0, len)` and moves from the first card to the last |
| `Cyclic.Rotate` | js/cards.js:42 | `slide(±1)` stays in `[0, len)` |
| `Cyclic.RotateSteps` | js/cards.js:42 | from a card of the list, `slide(1)` is the next step and `slide(-1)` the previous one |
| `Cyclic.NextPrevInverse` | js/dashboard.js:112-119 | next then previous, and previous then next, restore the index |
| `Cyclic.NextTimesValue` | js/cards.js:42 | `k <= len` forward steps from `i` reach `i + k`, less `len` once past the end |
| `Cyclic.FullTurn` | js/cards.js:42 | `len` forward steps return to the starting card |
| `Flashcard.FirstTruthy` | js/dashboard.js:95 | `a || b || ...` picks the first present, non-empty field; all fields before it are missing or empty |
| `Flashcard.FirstNonEmpty` | js/dashboard.js:95-96 | the chosen text is the first non-empty field, or the fallback when every field is missing or empty |
| `Common.Take` | js/dashboard.js:41 | `slice(0, n)` keeps the first `min(length, n)` elements, a prefix of the list |
| `Flashcard.FrontText` | js/cards.js:34 | `c.question || c.frontText`: the question when non-empty, else the front text when non-empty, else the empty string that `escapeHtml` makes of a missing value |
| `Flashcard.BackText` | js/dashboard.js:96 | `c.answer || c.backText || ""`: the answer when non-empty, else the back text when non-empty, else the empty string |
| `Flashcard.PositionOf` | js/dashboard.js:148 | the counter `currentIndex + 1` of `cards.length` lies between 1 and the card count |
| `Quiz.QuestionCount` | js/quiz.js:43 | `Number(...) || 5`: 5 for 0 or NaN, the number otherwise, never 0 |
| `Quiz.PlanQuiz` | js/quiz.js:52-67 | the cache is used only for the "generated" source with a non-empty cache; otherwise the saved cards are fetched; a failed fetch or an empty card list stops before generation; the request carries the question count |
| `Quiz.StepForward` | js/quiz.js:121 | `showNext` advances exactly when not on the last question and stays inside the quiz |
| `Quiz.StepBack` | js/quiz.js:120 | `showPrev` goes back exactly when not on the first question |
| `Quiz.StepsInverse` | js/quiz.js:120-121 | from an inner question next-then-previous and previous-then-next return to it; there is no wrap-around at either end |
| `Quiz.Scored` | js/quiz.js:125-135 | total is the number of questions; correct counts the questions whose recorded option is the right one, is at most the total and equals the number of rows marked correct; one row per question, in order, with the chosen option's text (none when unanswered) and the right option's text |
| `Quiz.CorrectBelowStep` | js/quiz.js:131-133 | each further question joins the set of right answers exactly when its recorded option is the right one |
| `Quiz.ScoreQuiz` | js/quiz.js:129-135 | the scoring loop computes exactly `Scored` of the session state, without changing it |
| `Quiz.ChoiceIsLocal` | js/quiz.js:109-110 | choosing an option changes no other question's row, and marks that row correct exactly when the option is the right one |
| `Quiz.RightChoiceAddsOne` | js/quiz.js:132-133 | choosing the right option for a wrong or unanswered question raises the score by exactly one |
| `Quiz.WrongChoiceRemovesOne` | js/quiz.js:132-133 | replacing a right answer with a wrong option lowers the score by exactly one |
| `Quiz.StaleChoiceKeepsScore` | js/quiz.js:99-110 | an answer recorded past the end of the quiz, by an option button left over from an earlier quiz, leaves the whole score unchanged |
| `Quiz.RepeatChoice` | js/quiz.js:110 | choosing the same option twice is the same as choosing it once |
| `Quiz.NothingAnsweredScoresZero` | js/quiz.js:131-133 | unanswered questions count as wrong |
| `Quiz.AnswerKeyScoresTotal` | js/quiz.js:129-133 | answering every question right scores full marks |
| `Quiz.TwoQuestionExample` | js/quiz.js:125-134 | two questions, one answered right and one wrong, score 1 of 2 with the expected rows |
| `Quiz.QuizKeyCommand` | js/quiz.js:172-177 | keys are ignored while a quiz exists and results are shown; otherwise right arrow, left arrow and Enter mean next, previous and submit |
| `Quiz.QuizSession.constructor` | js/quiz.js:29-31 | no questions, no answers, cursor 0 |
| `Quiz.QuizSession.StartQuiz` | js/quiz.js:41-95 | on success the new quiz is loaded with answers cleared, cursor 0 and results hidden; on any failure the previous session is untouched |
| `Quiz.QuizSession.ShowPrev` | js/quiz.js:120 | the cursor becomes `StepBack` of itself; nothing else changes |
| `Quiz.QuizSession.ShowNext` | js/quiz.js:121 | the cursor becomes `StepForward` of itself; nothing else changes |
| `Quiz.QuizSession.ChooseOption` | js/quiz.js:99-110 | `answers[i] = idx`, every other entry kept; `idx` is an option of question `i` when `i` is in the quiz, and `i` may lie past the quiz for a button left over from an earlier one |
| `Quiz.QuizSession.SubmitQuiz` | js/quiz.js:123-151 | returns `Scored` of the unchanged questions and answers and shows the results |
| `Quiz.QuizSession.RetryQuiz` | js/quiz.js:153-159 | answers cleared, cursor 0, results hidden, questions kept |
| `Quiz.QuizSession.KeyDown` | js/quiz.js:172-177 | applies `QuizKeyCommand`: next, previous, submit or nothing |
| `Carousel.Layout` | js/cards.js:28-34 | one slot per card |
| `Carousel.LayoutGeometry` | js/cards.js:31-34 | card `i` is offset by `(i - centerIndex) * 380`: the centred card at 0, neighbours 380 pixels apart; neither the front nor the back text of any card carries `<` or `>` |
| `Carousel.ExactlyOneCenter` | js/cards.js:33 | exactly one card, the one at `centerIndex`, is marked as the centre |
| `Carousel.SwipeDirection` | js/cards.js:149-150 | a swipe left of more than 60 pixels means next, right of more than 60 means previous, anything else nothing |
| `Carousel.SlidePopupAsWritten` | js/cards.js:135-137 | the popup reads `currentIndex + 1` of `cards.length`, the modal's card rather than the centred one |
| `Carousel.SlidePopup` | js/cards.js:44 | corrected popup after a slide: it names the card the layout marks as centred, between 1 and the card count |
| `Carousel.SlidePopupAgreement` | js/cards.js:44 | the written popup equals the corrected one, and names the centred card, exactly when the modal's card is the centred card |
| `Carousel.SlidePopupMisnamesCentre` | js/cards.js:40-45 | with three cards, one slide forward centres card 2 while the written popup says card 1 |
| `Carousel.SlideRoundTrip` | js/cards.js:42 | `slide(1)` then `slide(-1)`, and the reverse, restore `centerIndex` |
| `Carousel.SaveResult` | js/cards.js:117-133 | a card with an `_id` is not saved again; on success `cards[currentIndex]` becomes `created[0]`; the length and every other card are unchanged; any other outcome leaves the list as it was |
| `Carousel.CarouselPage.constructor` | js/cards.js:10-11 | cards from the cache, centre 0, modal hidden, no touch in progress |
| `Carousel.CarouselPage.Init` | js/cards.js:13-22 | the saved cards (none on failure) are loaded only when there were no cached cards |
| `Carousel.CarouselPage.Slide` | js/cards.js:40-45 | no change and no popup on an empty list; otherwise `centerIndex` rotates by the direction and the popup is the written one, `currentIndex + 1` of the card count |
| `Carousel.CarouselPage.TouchStart` | js/cards.js:144 | records where the touch began |
| `Carousel.CarouselPage.TouchEnd` | js/cards.js:145-151 | ignored without a start; otherwise clears the start and slides by `SwipeDirection` of the distance |
| `Carousel.CarouselPage.OpenModal` | js/cards.js:68-72 | the modal opens on the clicked card |
| `Carousel.CarouselPage.CloseModal` | js/cards.js:73 | the modal is hidden |
| `Carousel.CarouselPage.ModalKey` | js/cards.js:86-91 | arrows move `currentIndex` modulo the card count; nothing happens while the modal is hidden |
| `Carousel.CarouselPage.Save` | js/cards.js:117-133 | the card list and outcome are `SaveResult` of the old list |
| `Dashboard.PreviewTiles` | js/dashboard.js:55-72 | at most the first 8 cards, in order; each title is the first `min(length, 60)` characters of the escaped question, each body the first `min(length, 100)` characters of the escaped answer, neither containing `<` or `>` |
| `Dashboard.ModalFront` | js/dashboard.js:95 | the front is the question when present, else the front text when present, else the id, "No question" when question, front text and id are all missing or empty, and never blank |
| `Dashboard.ViewOf` | js/dashboard.js:92-103 | the modal shows a non-blank front and the counter `currentIndex + 1` of `cards.length` |
| `Dashboard.DashboardPage.constructor` | js/dashboard.js:25-26 | no cards, index 0, modal hidden |
| `Dashboard.DashboardPage.LoadRecentCards` | js/dashboard.js:29-53 | on success the cards are the array received (none when the body is not an array) and the tiles are `PreviewTiles` of them; on failure nothing changes |
| `Dashboard.DashboardPage.OpenFlashcardModal` | js/dashboard.js:75-83 | ignored for a non-array or empty list; otherwise the modal opens on that list at `startIndex`, 0 by default |
| `Dashboard.DashboardPage.ClickTile` | js/dashboard.js:69 | a tile opens the modal on the previewed list at its own position |
| `Dashboard.DashboardPage.Close` | js/dashboard.js:86-89 | the modal is hidden |
| `Dashboard.DashboardPage.Prev` | js/dashboard.js:112-115 | the index becomes `WrapPrev` of itself and the view is refreshed |
| `Dashboard.DashboardPage.Next` | js/dashboard.js:116-119 | the index becomes `WrapNext` of itself and the view is refreshed |
| `Dashboard.DashboardPage.KeyDown` | js/dashboard.js:131-143 | keys are ignored while hidden; Escape hides the modal; the arrows move with wrap-around |

## Left out

- Network and browser I/O: every `fetch`, `res.json()`, `localStorage` read and write, `alert`, `console`, redirects through `window.location`, logout and the theme toggles. Their results are method parameters.
- DOM construction, class toggling, card flipping (space key, card click, flip button), `setTimeout` popups and text-to-speech. They change no state the model keeps; the one way leftover DOM reaches that state, option buttons that survive an empty quiz, is modelled by `Quiz.QuizSession.ChooseOption`.
- The favourite button of the carousel modal (js/cards.js:103-114). It only copies the backend's `favorited` flag onto the card, and the flag is network I/O.
- The rendering of a question (progress text, the highlighted option) and of the result list. The model keeps the state they display, not the markup.
- The text form of numbers in counters and popups. `Flashcard.Position` keeps the two numbers.
- `escapeHtml` applied to values that are not strings (`.toString()`). The model escapes text only.
- JSON bodies of the wrong shape on the quiz and carousel pages, such as a non-array card list or a missing `data.quiz`. Only the dashboard's `Array.isArray` check is modelled.
- The JavaScript quirk where a question without `answerIndex` counts an unanswered slot as correct. Questions are well formed by precondition, because the page trusts the generator.
- Dashboard.PreviewTiles: cuts titles and bodies after 60 and 100 Unicode characters, while `slice` counts UTF-16 code units; for text with characters outside the Basic Multilingual Plane (emoji, say) the page keeps fewer characters and can split a surrogate pair, which the model does not capture.
- Touch coordinates and the question-count input are integers. The model has no fractional pixels and no fractional counts.
- `Quiz.PlanQuiz`: the saved-card response is a parameter even when the cache is used and no request is made; it is then ignored. The generated quiz is also a parameter, so the model does not relate it to the request.
- Asynchronous interleaving, such as an event arriving while `startQuiz` or `init` is waiting on the network. `Dashboard.DashboardPage.LoadRecentCards` therefore requires the modal to be closed, as it is at page load.
- js/flashcards.js, js/view.js, js/progress.js, js/login.js and js/register.js are not part of this model. They are upload, form and fetch-and-render code, and flashcards.js repeats the same `escapeHtml`.

## Findings

| source | as written | input that shows it | evidently intended | confidence | as-written member | corrected member |
|---|---|---|---|---|---|---|
| js/cards.js:44 | after a slide, `showProgress` prints `currentIndex + 1`, the card last opened in the modal, not the carousel's `centerIndex` | three cards, modal never opened, one `slide(1)`: card 2 is centred and the popup reads "Card 1 of 3" | the popup names the centred card, `centerIndex + 1` | medium; not executed | `Carousel.SlidePopupAsWritten`, shown by `Carousel.SlidePopupMisnamesCentre` | `Carousel.SlidePopup`, related to the written popup by `Carousel.SlidePopupAgreement` |
