# Hackathon social-skills game: scoring and analysis prompt

The game lets a player talk to three characters: a teammate with an
annoyingly pitched good idea, a disengaged teammate and a sharp-tongued
judge. Each conversation has a list of objectives, and the browser stores
each list under the key `objectives_<character id>`. This project models
three parts of the game in Dafny:

- **Home page.** It sums `scoreImpact × completion rate` over every
  character that has a stored list and rounds the sum half-up. It tells
  whether every character has been spoken to, and it picks the colour band
  of the score badge.
- **Award page.** It computes the same score and declares a win at 70 or
  more. It writes one feedback line per engaged character, in one of four
  tiers: all completed, partial, struggled, none. Its "Try Again" button
  removes every character's stored list.
- **Conversation-analysis endpoint.** It renders the transcript as
  `Speaker: text` lines, renders the objectives as
  `- ID: "<id>" | Description: <description>` lines, and frames both in the
  prompt sent to the language model.

Modules:

- `Objectives` (`objectives.dfy`) holds the shared pieces: objectives, characters and the store, the storage key, the completed count and the completion rate.
- `Scoring` (`scoring.dfy`) holds the award page.
- `Home` (`home.dfy`) holds the home page.
- `Prompt` (`prompt.dfy`) holds the endpoint's prompt text.
- `MissingImpact` (`missing_impact.dfy`) holds the score as the code computes it against the character configuration it imports (see Findings).
- `WorkedExamples` (`worked_examples.dfy`) pins concrete numbers.

Modelling decisions:

- The browser store becomes a map from key to an already-parsed objective list. A key is present exactly when the page's truthiness test on the stored string succeeds, because a saved JSON array is never the empty string.
- Numbers are exact reals. `Math.round` is `(x + 0.5).Floor`, which agrees with JavaScript's half-up rounding on every real.
- Each character's weight (`scoreImpact`) is an explicit field of `Character`. The configuration record does not have this field (see Findings).
- The pages' `forEach` loops are methods, `Scoring.Accumulate` (called by `Scoring.ComputeAward`, which then rounds) and `Home.HomeSummary`. Each method is proved equal to a recursive reference definition.

## Model

| member | source | states |
|---|---|---|
| Objectives.Key | app/page.tsx:18 | a storage key is the prefix `objectives_` followed by the id, and nothing else |
| Objectives.IdOfKey | app/award-ceremony/page.tsx:124 | the inverse of the key built here: a key yields an id exactly when it starts with `objectives_`, and the prefix followed by that id is the key |
| Objectives.KeyRoundTrip | app/page.tsx:18 | the id read back from a character's key is that character's id |
| Objectives.KeyOfDecodedId | app/award-ceremony/page.tsx:19 | a key that reads back as an id is that id's key, so keys and ids correspond one to one |
| Objectives.KeyInjective | app/page.tsx:18 | two ids share a key if and only if they are equal |
| Objectives.CompletedCount | app/award-ceremony/page.tsx:24 | the filtered count is at most the list length; it equals the length iff every objective is completed, and it is 0 iff none is |
| Objectives.CompletedCountMark | app/award-ceremony/page.tsx:24 | marking one objective completed raises the count by one if it was open, and leaves it alone otherwise |
| Objectives.Rate | app/award-ceremony/page.tsx:25 | the completion rate always lies in [0, 1], and it is 0 for an empty list |
| Objectives.RateIsQuotient | app/award-ceremony/page.tsx:25 | on a non-empty list the rate is the completed count divided by the length |
| Objectives.RateMeaning | app/award-ceremony/page.tsx:25 | the rate is 1 iff the list is non-empty and fully completed; it is 0 iff nothing is completed, an empty list included; it exceeds 0.5 iff more than half the objectives are completed |
| Objectives.Configured | app/config/characters.ts:12-43 | the three configured characters, in order, have pairwise distinct ids and carry the weights given |
| Scoring.TierOfObjectives | app/award-ceremony/page.tsx:30-38 | the tier, told by counts alone: all completed and non-empty; more than half but not all; at least one but at most half (so exactly half is "struggled"); none completed |
| Scoring.FeedbackLine | app/award-ceremony/page.tsx:31-37 | each feedback sentence names the character: it ends with the name, or, for "struggled", with the name followed by `'s objectives` |
| Scoring.FeedbackLineInjective | app/award-ceremony/page.tsx:31-37 | for one character, the four sentences are pairwise different, so the line tells the tier |
| Scoring.CharacterScore | app/award-ceremony/page.tsx:26 | with a non-negative weight, a character's score lies between 0 and that weight, and with a negative one between the weight and 0; it is the full weight when everything is completed and 0 when nothing is |
| Scoring.Contribution | app/award-ceremony/page.tsx:19-27 | a character without a stored list adds 0; a character with a non-negative weight adds between 0 and that weight |
| Scoring.Total | app/award-ceremony/page.tsx:15-27 | with non-negative weights the unrounded total lies between 0 and the sum of the weights |
| Scoring.Round | app/award-ceremony/page.tsx:42 | the rounded score is the integer n with n - 0.5 <= x < n + 0.5, so ties round up |
| Scoring.RoundUnique | app/award-ceremony/page.tsx:42 | exactly one integer satisfies the rounding bounds |
| Scoring.WonIffTotalReaches | app/award-ceremony/page.tsx:42-44 | the rounded score is at least 70 iff the unrounded total is at least 69.5 |
| Scoring.Engaged | app/award-ceremony/page.tsx:18-22 | the engaged characters are exactly the configured ones with a stored list, and there are no more of them than configured characters (their order is fixed by `Scoring.EngagedAppend`) |
| Scoring.Feedback | app/award-ceremony/page.tsx:18-39 | there is one feedback line per engaged character, and line i is the tier line of the i-th engaged character |
| Scoring.ComputeAward | app/award-ceremony/page.tsx:14-46 | the page's result equals the reference award, and it is a win iff the unrounded total reaches 69.5 |
| Scoring.Accumulate | app/award-ceremony/page.tsx:15-40 | the loop ends with the total and the feedback lines of all configured characters, in configuration order |
| Scoring.VisitCharacter | app/award-ceremony/page.tsx:19-39 | one loop step changes nothing for a character without a stored list; otherwise it appends exactly one line, that character's tier line, and with a non-negative weight it raises the running total by at most the weight |
| Scoring.PrefixStep | app/award-ceremony/page.tsx:18 | going one character further in configuration order adds that character's contribution and line |
| Scoring.EngagedAppend | app/award-ceremony/page.tsx:18-22 | engagement filtering keeps order across concatenation |
| Scoring.FeedbackAppend | app/award-ceremony/page.tsx:18-39 | the feedback of earlier characters comes before that of later ones |
| Scoring.TotalAppend | app/award-ceremony/page.tsx:15-27 | the total of a concatenation is the sum of the totals of its parts |
| Scoring.TotalOverEngaged | app/award-ceremony/page.tsx:22 | characters without a stored list add nothing: the total over the engaged characters is the whole total |
| Scoring.NothingEngaged | app/award-ceremony/page.tsx:15-16 | with no stored list at all, the total is 0 and there is no feedback |
| Scoring.AllDoneScoresFullWeight | app/award-ceremony/page.tsx:24-27 | when every character has a non-empty, fully completed list, the total is the sum of the weights |
| Scoring.FullCompletionWins | app/award-ceremony/page.tsx:42-44 | with everything completed, the score is the rounded sum of the weights, and the player wins iff that sum is at least 69.5 |
| Scoring.TotalMonotone | app/award-ceremony/page.tsx:24-27 | with non-negative weights, completing one more stored objective never lowers the total |
| Scoring.ContributionMonotone | app/award-ceremony/page.tsx:26 | completing a stored objective never lowers the contribution of a character with a non-negative weight |
| Scoring.CharacterScoreMonotone | app/award-ceremony/page.tsx:26 | with a non-negative weight, completing an objective never lowers the character's score |
| Scoring.RateMarkMonotone | app/award-ceremony/page.tsx:25 | completing an objective never lowers the rate |
| Scoring.Reset | app/award-ceremony/page.tsx:121-125 | after "Try Again" a key remains iff it was stored and belongs to no configured character; remaining keys keep their values |
| Scoring.ResetForgetsProgress | app/award-ceremony/page.tsx:121-125 | after "Try Again" the award is a score of 0, a loss and no feedback |
| Home.SpokenTo | app/page.tsx:15-22 | an id is in the spoken-to set iff some configured character has that id and a stored list |
| Home.SpokenToSize | app/page.tsx:31 | the set is never larger than the roster; it is as large only if every character is engaged and the ids are distinct; with distinct ids, engaging everyone makes it that large |
| Home.SpokenToBound | app/page.tsx:15-22 | the spoken-to set has at most one id per configured character |
| Home.SpokenToFull | app/page.tsx:31 | a full-size spoken-to set means every character is engaged and the ids are distinct |
| Home.SpokenToAll | app/page.tsx:31 | with distinct ids, engaging every character fills the set |
| Home.SpokenToIgnoresContents | app/page.tsx:21-22 | only the presence of a stored list counts, not how much of it is completed |
| Home.HomeSummary | app/page.tsx:13-31 | the home score equals the award page's score for the same store; spoken-to-all implies every character is engaged, and with distinct ids the converse holds |
| Home.VisitForHome | app/page.tsx:18-27 | one loop step only ever adds this character's id to the set, and the id is in the set afterwards iff it was before or the character has a stored list; it changes nothing without a stored list, and with a non-negative weight it raises the total by at most the weight |
| Home.ScoreBand | app/page.tsx:35-39 | every score falls in exactly one band: red below 33, orange from 33 to 65, green from 66 |
| Home.ScoreColor | app/page.tsx:35-39 | both end points of the gradient are the red, orange or green pair iff the score is in that band |
| Home.ScoreBandMonotone | app/page.tsx:35-39 | a higher score never shows a lower band |
| Prompt.JoinLines | app/api/analyze-conversation/route.ts:15 | joining no parts gives "", one part gives that part, and a join always opens with its first part |
| Prompt.SplitLines | app/api/analyze-conversation/route.ts:15 | cutting at line breaks always yields at least one line |
| Prompt.SplitSingleLine | app/api/analyze-conversation/route.ts:15 | text without a line break is one line |
| Prompt.SplitAfterLine | app/api/analyze-conversation/route.ts:15 | one separator sits between a line and the rest |
| Prompt.SplitJoin | app/api/analyze-conversation/route.ts:15 | single-line parts joined by "\n" split back into exactly those parts, so there is no trailing separator |
| Prompt.HistoryLines | app/api/analyze-conversation/route.ts:13-14 | there is one rendered line per message |
| Prompt.History | app/api/analyze-conversation/route.ts:13-15 | the history is empty iff there are no messages, and otherwise opens with the first message's line |
| Prompt.ParseHistoryLineRoundTrip | app/api/analyze-conversation/route.ts:14 | a rendered line gives back whether the source was "user" and the exact message text, so the label is "User" iff the source is "user" and nothing is added to or removed from the text |
| Prompt.NotPlayerLine | app/api/analyze-conversation/route.ts:14 | a line labelled with a name that cannot pose as the player never starts with "User: " |
| Prompt.HistoryLayout | app/api/analyze-conversation/route.ts:13-15 | with single-line names and messages, the history has exactly one line per message, in message order, each label + ": " + text |
| Prompt.ObjectiveLines | app/api/analyze-conversation/route.ts:26 | there is one rendered line per objective |
| Prompt.SplitAtQuote | app/api/analyze-conversation/route.ts:26 | cutting at the first quote gives back the whole text, with no quote before the cut |
| Prompt.SplitAtQuoteOf | app/api/analyze-conversation/route.ts:26 | a quote-free id ends at its closing quote |
| Prompt.ParseObjectiveLineRoundTrip | app/api/analyze-conversation/route.ts:26 | an objective line gives back the exact id and description |
| Prompt.ObjectiveListLayout | app/api/analyze-conversation/route.ts:26 | with single-line ids and descriptions, the list has one line per objective, in order |
| Prompt.ObjectiveListIgnoresCompletion | app/api/analyze-conversation/route.ts:26 | the rendered list depends only on ids and descriptions, never on completion |
| Prompt.PromptLayout | app/api/analyze-conversation/route.ts:18-45 | the prompt holds the character name, the history and the objective list verbatim, in that order and each after its heading, followed by the fixed instructions |
| MissingImpact.AsWrittenTotal | app/award-ceremony/page.tsx:26-27 | with the weight field missing, the sum is NaN iff some character is engaged, and 0 otherwise |
| MissingImpact.AsWrittenNeverWins | app/award-ceremony/page.tsx:42-44 | as written, any engagement makes the score NaN, the verdict a loss and the badge green; with no engagement the score is 0 |
| MissingImpact.FullMarksLoseAsWritten | app/config/characters.ts:1-10 | on one input with everything completed, the code as written loses with NaN, while weights 40/30/30 give 100 and a win |
| WorkedExamples.RateAllDone | app/award-ceremony/page.tsx:25 | a fully completed non-empty list has rate 1 |
| WorkedExamples.RateOneOfThree | app/award-ceremony/page.tsx:25-35 | 1 of 3 completed is a rate of one third, in the "struggled" tier |
| WorkedExamples.TwoEngaged | app/award-ceremony/page.tsx:18-39 | two engaged characters contribute in order to the total and the feedback |
| WorkedExamples.ThreeEngaged | app/award-ceremony/page.tsx:18-39 | three engaged characters contribute in order to the total and the feedback |
| WorkedExamples.FiftyFifty | app/award-ceremony/page.tsx:24-44 | weights 50/50 with 2/2 and 1/3 completed give 67 and a loss, with a success line then a struggled line |
| WorkedExamples.FortyThirtyThirty | app/award-ceremony/page.tsx:24-44 | weights 40/30/30 with 3/3, 2/2 and 1/3 completed give 80 and a win, with two success lines then a struggled line |
| WorkedExamples.HalfIsStruggled | app/award-ceremony/page.tsx:30-38 | a rate of exactly 0.5 is "struggled"; 0.6 is partial; 1 is all completed; 0 is none |
| WorkedExamples.ThresholdEdges | app/award-ceremony/page.tsx:42-44 | 69.49 rounds to 69 and loses; 69.5 rounds to 70 and wins |

## Left out

- Browser storage I/O and `JSON.parse` of stored values. The store is a map of already-parsed objective lists. A stored string that is not a JSON array is outside the model.
- React rendering, styling, animation, links, images and the `window.location` navigation after "Try Again". These are presentation.
- The call to the language model: the client, model choice, temperature, response format and the parsing of its reply. Its judgement is not a function of the prompt.
- The endpoint's request and response plumbing, and its HTTP 500 error response (`app/api/analyze-conversation/route.ts:60-66`).
- IEEE-754 rounding of the JavaScript sums. The model uses exact reals, so a double-precision sum that lands just beside a .5 boundary could round differently in the browser.
- The presentation fields of the character configuration: title, model URL, agent id, goal, description and map position.
- Saving objective lists, and merging the language model's replies into them. Both happen outside the three files this model covers, so the model takes the store as given.
- Scoring.FeedbackLine: its contract only says where the name sits in the sentence. The rest of each sentence is fixed by its definition, and `Scoring.FeedbackLineInjective` states that the four sentences differ.
- Prompt.HistoryLayout: only covers single-line names and messages. A message containing a line break makes the rendered lines no longer one per message, which the source does nothing about.
- Prompt.ParseHistoryLineRoundTrip: assumes a character name for which `name + ": "` does not start with `User: `. With a character literally named "User", the source's labels cannot tell the player from the character.
- Prompt.ObjectiveListLayout: only covers single-line ids and descriptions. The source does not escape line breaks, so a description containing one renders as more than one line.
- Prompt.ParseObjectiveLineRoundTrip: assumes ids without a double quote. The source does not escape quotes inside the id.
- Home.HomeSummary: the converse of its spoken-to-all contract needs distinct ids. With a repeated id the source's set-size test reports false even when everyone is engaged.

## Findings

| source | as written | input that shows it | evidently intended | confidence | as-written member | corrected member |
|---|---|---|---|---|---|---|
| app/config/characters.ts:1-10 with app/award-ceremony/page.tsx:26 and app/page.tsx:26 | the `Character` records declare no `scoreImpact`; a type-checked build rejects the access, and where it runs `character.scoreImpact * completionRate` is `undefined * rate`, which is NaN; the total, the rounded score and the badge all become NaN as soon as one character is engaged, the `>= 70` test is false and the badge falls through to green | the three configured characters, each with one completed objective | each character carries a weight (for instance 40/30/30), and full completion yields 100 and a win | not executed | MissingImpact.FullMarksLoseAsWritten | Scoring.FullCompletionWins |
