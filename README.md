# MediMatch Admission — a verified model of the recommendation and chat core

MediMatch helps a student who sat JEE, NEET or CUET find colleges. The
student fills in a profile form: exam, rank, budget, state, course and
college type. The backend then does four things:

- It filters a table of colleges against that profile.
- It scores each eligible college, from 0 to 100, on rank proximity, NIRF
  ranking, placements and budget fit.
- It tags each college Safe, Target or Dream.
- It ranks the colleges, keeps the ten best and explains each choice. The
  explanation comes from a language model or from fixed sentences.

The frontend shows the results with analytics charts. It also offers a chat
about one college: the server streams the language model's answer as
Server-Sent Events, the browser reads them into a growing assistant message,
and a small formatter turns the text into lists, headings, paragraphs and
bold or italic spans. The sign-up page has a password-strength meter.

The project models that core in Dafny, one module per source file. Each
module gets its own form:

| module | source | form |
|---|---|---|
| `Strings` | — | The string operations of Python and JavaScript that the core relies on: trimming, splitting on a character, joining, decimal and comma-grouped number text, lexicographic order, sorted-unique lists. |
| `Recommend` | `backend/main.py` | Functions for chance, score, filter and the rule-based explanation. Methods with loops for `filter_colleges`, `get_recommendations` and `get_meta`, each proved against a specification function. |
| `ChatStream` | `backend/main.py` `chat_stream` | The SSE frames `generate` writes, including the `json.dumps` escaping of the content. A JSON reader for that shape is proved to invert it. |
| `ChatSession` | `CollegeDetailModal.tsx` | A class `Conversation` whose methods update the message list the way `streamMessage`, `handleSend`, the opening overview and `handleReset` do. The read loop is proved against a function of the received text. It is the buffered reader of the second finding below: an end-to-end lemma shows it recovers exactly what the server sent. The reader as written is a function beside it, right when the body arrives in one read and shown to lose a frame cut between reads. |
| `MessageFormat` | `CollegeDetailModal.tsx` | `FormattedMessage` as a scanning method proved against a block function. `InlineFormat` as JavaScript's `split` with a capture group. |
| `FilterForm` | `FilterForm.tsx` | A class `Form` holding the form's state, with its handlers as methods. |
| `PasswordStrength` | `Signup.tsx` | `pwStrength` as a sum of four tests, plus the label and the four bars. |
| `Analytics` | `CollegeAnalyticsModal.tsx` | The chart series as functions. The rank trend is a method that adds "Your Rank" to an array in place. |

Decimal constants are exact. A threshold such as `ratio <= 0.7` is
cross-multiplied (`10 * rank <= 7 * closing`). Scores are exact reals.
Python's `round` is modelled as half-to-even and JavaScript's `Math.round`
as half-up.

Two things the code does differ from a plain reading of its intent. The
model follows the code in both:

- **Empty pieces from `InlineFormat`.** The split keeps empty leading,
  trailing and in-between pieces, so `"**bold** and *italic*"` gives five
  spans: `Text("")`, `Bold("bold")`, `Text(" and ")`, `Italic("italic")` and
  `Text("")`.
- **Lone asterisks.** A lone `*` or `**` becomes an empty italic or bold
  span, not literal text (`LoneStars`).

In two places the code is wrong, and the model states the code as written
and then uses the corrected behaviour (see "## Findings" and "## Left out"):

- **The bullet marker.** The bullet pattern holds a mis-encoded `•`.
  `FormattedMessage` uses the intended marker class; `WrittenBulletMissed`
  shows what the class as written does.
- **Reads cut inside a line.** The source splits each read on its own, so a
  line cut between two reads is lost, and its `break` on `[DONE]` leaves only
  the loop over the current read's lines. `Conversation.ReadReply` carries
  the unfinished line over and stops at `[DONE]`; `UnbufferedText` is the
  reading as written.

## Model

| member | source | states |
|---|---|---|
| Recommend.ClassifyChance | backend/main.py:259-265 | Safe exactly when rank/closing is at most 0.7, Target exactly when it is in (0.7, 1.0], Dream exactly when it is above 1.0 |
| Recommend.RatioFacts | backend/main.py:260-263 | the ratio thresholds are equivalent to the cross-multiplied integer comparisons `10*rank <= 7*closing` and `rank <= closing` |
| Recommend.ChanceMonotone | backend/main.py:259-265 | a worse (larger) rank never gets a safer chance tag at the same college |
| Recommend.WithinRankMargin | backend/main.py:278-291 | `rank > closing + 0.3*rank` fails exactly when `7*rank <= 10*closing` |
| Recommend.Keep | backend/main.py:280-293 | a kept college with a positive rank has a positive closing rank and a non-zero score divisor |
| Recommend.Filtered | backend/main.py:277-294 | every college in the result passes all six filters and comes from the table |
| Recommend.FilteredIsKeptSubsequence | backend/main.py:277-294 | the result is exactly the colleges that pass, taken at strictly increasing table positions, with every passing position present |
| Recommend.FilterColleges | backend/main.py:277-294 | the loop returns exactly `Filtered` of the table |
| Recommend.RankProximity | backend/main.py:269-270 | rank proximity is clamped to [0, 1] |
| Recommend.RankProximityMonotone | backend/main.py:269-270 | a larger student rank never increases rank proximity |
| Recommend.NirfScore | backend/main.py:271 | the NIRF component is non-negative and at most 1 for a non-negative ranking |
| Recommend.BudgetFit | backend/main.py:273 | the budget component is non-negative, 0 without a positive budget or when fees reach the budget, and at most 1 |
| Recommend.UnroundedScore | backend/main.py:274 | the weighted score lies in [0, 100] for data in range |
| Recommend.RoundHalfEven | backend/main.py:274 | Python `round`: within 0.5 of the argument, and even on an exact half |
| Recommend.ScoreCollege | backend/main.py:268-274 | the match score is the weighted score rounded to within 0.5, and in 0..100 for data in range |
| Recommend.FallbackSentences | backend/main.py:362-376 | one rank sentence first, then one sentence per condition met, so one to four sentences |
| Recommend.FallbackSentencesChosen | backend/main.py:370-375 | the fee, placement and NIRF sentences appear exactly when fees are at most 70% of the budget, placement is at least 90, and NIRF is at most 10 |
| Recommend.FallbackSentencesOrdered | backend/main.py:363-376 | the sentences keep the order rank, fees, placement, NIRF |
| Recommend.FallbackExplanation | backend/main.py:362-376 | the explanation is the rendered sentences joined by single spaces |
| Recommend.InsertByScore | backend/main.py:461 | inserting a position keeps the order sorted by descending score with ties in table order, and adds just that position |
| Recommend.StableOrder | backend/main.py:461 | the stable descending sort is an ordering of exactly the positions 0..n-1 |
| Recommend.OrderRanking | backend/main.py:461-462 | in the sorted order scores never increase, equal scores keep table order, and nothing outside the first m outscores anything inside them |
| Recommend.TopTenRanking | backend/main.py:461-492 | the results are at most ten distinct colleges by non-increasing match score, ties in filter order, and no omitted college scores higher than any shown |
| Recommend.TopTenPick | backend/main.py:461-492 | result k is the college at sorted position k with that college's score |
| Recommend.TopTen | backend/main.py:462 | min(10, eligible count) results |
| Recommend.ChanceCountsCover | backend/main.py:495-497 | the Safe, Target and Dream counts of the summary add up to the number of results |
| Recommend.ScoreAll | backend/main.py:455-459 | each eligible college is paired with its score and chance, in filter order |
| Recommend.Explain | backend/main.py:465-492 | each result copies the college, score and chance, with the LLM text when AI is on and the rule-based text otherwise |
| Recommend.GetRecommendations | backend/main.py:443-508 | the no-match response when nothing passes; otherwise the top ten, the filtered count and the summary with the chance counts |
| Recommend.CoursesByExam | backend/main.py:430-432 | each exam in the table maps to exactly the courses offered under it |
| Recommend.GetMeta | backend/main.py:427-439 | exams, each exam's courses and states are sorted without repeats and hold exactly the table's values, plus the fixed college types |
| Strings.TrimFacts | frontend/src/components/CollegeDetailModal.tsx:398-401 | trimming leaves a string unchanged exactly when its ends are not white space, and empties it exactly when it is blank |
| Strings.SplitNoSeparator | frontend/src/components/CollegeDetailModal.tsx:143 | no piece of a split contains the separator |
| Strings.JoinSplit | frontend/src/components/CollegeDetailModal.tsx:143 | joining the pieces with the separator gives back the text |
| Strings.SplitJoin | frontend/src/components/CollegeDetailModal.tsx:391 | splitting separator-free pieces joined by the separator gives back the pieces |
| Strings.SplitConcat | frontend/src/components/CollegeDetailModal.tsx:143 | splitting a concatenation equals splitting the first part and re-splitting its last piece with the second part |
| Strings.DecimalRoundTrip | backend/main.py:365-375 | the decimal text of n reads back as n |
| Strings.GroupedDigits | backend/main.py:365-375 | the `{:,}` text of n with its commas removed is the decimal text of n |
| Strings.LessTransitive | backend/main.py:429 | the string order used by `sorted` is transitive |
| Strings.LessTotal | backend/main.py:429 | any two strings are equal or ordered one way |
| Strings.SortedUnique | backend/main.py:429-433 | `sorted(set(xs))` is strictly increasing and holds exactly the elements of xs |
| ChatStream.Hex4RoundTrip | backend/main.py:554-555 | the four hex digits of a `\u` escape read back as the code unit |
| ChatStream.JsonStringPrintable | backend/main.py:554-555 | the escaped content holds only printable ASCII |
| ChatStream.UnescapePair | backend/main.py:554-555 | a surrogate pair of escapes reads back as the character above the first plane |
| ChatStream.JsonStringRoundTrip | backend/main.py:554-555 | reading back the escaped content gives the content |
| ChatStream.PayloadRoundTrip | backend/main.py:554-555 | the JSON object the server writes reads back as its delta content |
| ChatStream.PayloadShape | backend/main.py:554-555 | a payload is printable, starts with `{` and ends with `}` |
| ChatStream.Generate | backend/main.py:539-561 | the frames are exactly `StreamFrames`: one per delta with content, an error frame on failure, then `[DONE]` |
| ChatStream.StreamFramesShape | backend/main.py:550-561 | one frame per content and then a single `[DONE]` frame, which comes last and nowhere else |
| ChatStream.EmptyDeltaIgnored | backend/main.py:553 | a delta without content adds no frame |
| ChatSession.ClassifyLine | frontend/src/components/CollegeDetailModal.tsx:144-163 | only `data: ` lines count; the trimmed rest is `[DONE]`, empty, unparsable or a token, each exactly when stated; a token is the parsed `content`, or `""` when there is none |
| ChatSession.LinesTextAppend | frontend/src/components/CollegeDetailModal.tsx:143-165 | reading lines in two batches gives the same text, the second batch counting only when the first held no `[DONE]` |
| ChatSession.Outcome | frontend/src/components/CollegeDetailModal.tsx:167-185 | the final assistant message is the apology exactly when the exchange failed before `[DONE]` and the streamed text otherwise; it stays marked streaming only when aborted before `[DONE]` |
| ChatSession.Conversation.StreamMessage | frontend/src/components/CollegeDetailModal.tsx:91-186 | appends the user message (unless initial) and the settled assistant message, leaving earlier messages untouched |
| ChatSession.Conversation.ReadReply | frontend/src/components/CollegeDetailModal.tsx:133-166 | the read loop's text and `[DONE]` flag are those of all complete lines received, shown in the last message |
| ChatSession.Conversation.ReadLines | frontend/src/components/CollegeDetailModal.tsx:143-165 | the loop over lines appends each token and shows it at once, stopping at `[DONE]` |
| ChatSession.Conversation.HandleSend | frontend/src/components/CollegeDetailModal.tsx:188-198 | nothing changes when the trimmed text is blank or a reply is loading; otherwise the exchange is added, input cleared, panel idle |
| ChatSession.Conversation.OpenOverview | frontend/src/components/CollegeDetailModal.tsx:59-64 | the overview is requested once, adding only the assistant's message |
| ChatSession.Conversation.HandleReset | frontend/src/components/CollegeDetailModal.tsx:200-204 | messages cleared, not initialized, not loading |
| ChatSession.StreamTextGrows | frontend/src/components/CollegeDetailModal.tsx:138-165 | the text shown after some reads is a prefix of the text after all of them |
| ChatSession.ServerBodyLines | backend/main.py:550-555 | the body splits into a `data:` line and a blank line per content, then the `[DONE]` line |
| ChatSession.StreamRoundTrip | frontend/src/components/CollegeDetailModal.tsx:138-165 | however the reads cut the server's body, the reader's text is the concatenated contents and `[DONE]` is seen |
| ChatSession.CompleteExchange | frontend/src/components/CollegeDetailModal.tsx:167-172 | for a whole body, the settled message is the concatenated contents, no longer streaming |
| ChatSession.JsonDecodeReadsPayloads | frontend/src/components/CollegeDetailModal.tsx:150-151 | the JSON reading reads every server payload back as its content |
| ChatSession.UnbufferedAppend | frontend/src/components/CollegeDetailModal.tsx:137-166 | as written, each read is split and read on its own: the text of a run of reads is the texts of its parts in turn, even after a read that held `[DONE]` |
| ChatSession.UnbufferedSingleRead | frontend/src/components/CollegeDetailModal.tsx:138-165 | the reader as written is right when the whole body arrives in one read |
| ChatSession.SplitFrameLost | frontend/src/components/CollegeDetailModal.tsx:141-143 | a body cut inside its one frame yields no text from the reader as written, and "Hello" from the buffered reader |
| MessageFormat.FormattedMessage | frontend/src/components/CollegeDetailModal.tsx:388-458 | nothing exactly for an empty reply; otherwise the blocks of its lines |
| MessageFormat.FormatLines | frontend/src/components/CollegeDetailModal.tsx:394-455 | the scan produces exactly `Blocks` of the lines |
| MessageFormat.ReadRun | frontend/src/components/CollegeDetailModal.tsx:404-408 | the inner loop gathers the items of the run of list lines and stops right after it |
| MessageFormat.BlocksCoverLines | frontend/src/components/CollegeDetailModal.tsx:394-455 | flattening lists into one-item entries gives one entry per non-blank line in order, so no line is lost, duplicated or reordered |
| MessageFormat.RunMaximal | frontend/src/components/CollegeDetailModal.tsx:404-434 | a list takes every consecutive item line and stops at the first line that is not one |
| MessageFormat.WholeRunIsOneList | frontend/src/components/CollegeDetailModal.tsx:404-434 | lines that are all items of one kind form a single list of their texts |
| MessageFormat.LoneBullet | frontend/src/components/CollegeDetailModal.tsx:404-417 | a bullet line on its own is a list of its text after the marker and the space |
| MessageFormat.InlineFormatParts | frontend/src/components/CollegeDetailModal.tsx:460-476 | the pieces join back to the text, are odd in number, and every second piece is a bold or italic match rendered as its non-empty star-free inside |
| MessageFormat.InlineFormatFound | frontend/src/components/CollegeDetailModal.tsx:460-476 | the converse: each match piece is exactly what the pattern matches where it stands, and no position inside a plain piece starts a match, so the split is the leftmost-first one |
| MessageFormat.BoldFound | frontend/src/components/CollegeDetailModal.tsx:462-468 | `**x**` with x non-empty and star-free renders as `Bold(x)` between two empty text spans |
| MessageFormat.ItalicFound | frontend/src/components/CollegeDetailModal.tsx:462-471 | `*x*` with x non-empty and star-free renders as `Italic(x)` between two empty text spans |
| MessageFormat.LoneStars | frontend/src/components/CollegeDetailModal.tsx:465-470 | a lone `*` or `**` becomes an empty italic or bold span |
| MessageFormat.WrittenBulletMissed | frontend/src/components/CollegeDetailModal.tsx:404 | with the marker class as written, a `•` line is a paragraph while a `¢` line is a bullet |
| MessageFormat.IntendedBulletFound | frontend/src/components/CollegeDetailModal.tsx:404 | with the intended marker class, a `•` line is a bullet item |
| FilterForm.PresetsConsistent | frontend/src/components/FilterForm.tsx:16-20 | every preset has 0 < min <= defaultMax <= max and a positive step |
| FilterForm.Courses | frontend/src/data/colleges.ts:387-391 | every exam offers at least one course |
| FilterForm.Form.constructor | frontend/src/components/FilterForm.tsx:23-28 | JEE, empty rank, JEE's first course, the JEE default budget, state and type "Any"; the form is valid |
| FilterForm.Form.HandleExamChange | frontend/src/components/FilterForm.tsx:32-37 | the exam, its first course and its default budget; rank, state and type unchanged; the budget stays in range |
| FilterForm.Form.SetRank | frontend/src/components/FilterForm.tsx:81 | only the rank text changes |
| FilterForm.Form.SetBudget | frontend/src/components/FilterForm.tsx:119-126 | only the slider value changes, and it stays in the exam's range |
| FilterForm.Form.SetCourse | frontend/src/components/FilterForm.tsx:88 | only the course changes, to one the exam offers |
| FilterForm.Form.SetPlace | frontend/src/components/FilterForm.tsx:98-109 | only state and college type change |
| FilterForm.Form.HandleSubmit | frontend/src/components/FilterForm.tsx:39-50 | nothing is sent exactly when the button would be disabled with nothing loading; otherwise one submission with budgetMin 0, the slider's value and the current choices |
| FilterForm.NaNRankPasses | frontend/src/components/FilterForm.tsx:39-50 | `handleSubmit` with a non-empty rank text that reads as NaN sends a submission whose rank is NaN |
| PasswordStrength.Strength | frontend/src/pages/Signup.tsx:110-117 | strength is at most 4 and 0 for the empty password |
| PasswordStrength.Utf16LengthAppend | frontend/src/pages/Signup.tsx:111 | `length` counts UTF-16 code units, and the count of a concatenation is the sum of the counts |
| PasswordStrength.AstralCountsTwice | frontend/src/pages/Signup.tsx:109-116 | four characters above U+FFFF are eight code units, long enough, and score 2 |
| PasswordStrength.StrengthExtremes | frontend/src/pages/Signup.tsx:110-117 | 4 exactly when all four tests pass; 0 exactly when empty or no test passes |
| PasswordStrength.NonEmptyZero | frontend/src/pages/Signup.tsx:110-117 | "abc" scores 0, so 0 does not mean empty |
| PasswordStrength.StrengthMonotone | frontend/src/pages/Signup.tsx:112-115 | typing more characters never lowers the strength |
| PasswordStrength.Label | frontend/src/pages/Signup.tsx:119-120 | the label is in the table and is empty exactly at strength 0 |
| PasswordStrength.BarsShowStrength | frontend/src/pages/Signup.tsx:338-341 | exactly `pwStrength` of the four bars are lit, the leftmost ones |
| PasswordStrength.Meter | frontend/src/pages/Signup.tsx:336-345 | the meter shows only for a non-empty password, with strength-many lit bars and a label from the table |
| Analytics.Normalize | frontend/src/components/CollegeAnalyticsModal.tsx:47-50 | the result lies in [0, 100], and the inverted form is 100 minus the plain one |
| Analytics.NormalizeMonotone | frontend/src/components/CollegeAnalyticsModal.tsx:47-50 | on an increasing range the plain form grows with the value and the inverted form shrinks |
| Analytics.NormalizeEnds | frontend/src/components/CollegeAnalyticsModal.tsx:47-50 | values at or below the low end give 0 and at or above the high end give 100 |
| Analytics.RadarData | frontend/src/components/CollegeAnalyticsModal.tsx:107-114 | six metrics in order; derived values in [0, 100]; budget fit 60 without a budget, rank safety 50 without a rank |
| Analytics.RadialData | frontend/src/components/CollegeAnalyticsModal.tsx:117-122 | four gauges; the derived two are whole percentages in [0, 100]; budget fit 60 without a budget |
| Analytics.RatingBands | frontend/src/components/CollegeAnalyticsModal.tsx:339 | each label covers its band of scores, and a higher score never gets a worse label |
| Analytics.ShortName | frontend/src/components/CollegeAnalyticsModal.tsx:127 | at most 14 characters; short names unchanged; long names keep 13 characters and gain `…` |
| Analytics.ShortNameIdempotent | frontend/src/components/CollegeAnalyticsModal.tsx:127 | shortening twice changes nothing more |
| Analytics.Peers | frontend/src/components/CollegeAnalyticsModal.tsx:125 | the first five results, or all of them when fewer |
| Analytics.BarData | frontend/src/components/CollegeAnalyticsModal.tsx:125-133 | one row per peer in result order with its names and scores; `isCurrent` exactly for the selected id |
| Analytics.BudgetData | frontend/src/components/CollegeAnalyticsModal.tsx:150-155 | one row per peer in result order with its fees in lakhs; `isCurrent` exactly for the selected id |
| Analytics.CurrentHighlightedOnce | frontend/src/components/CollegeAnalyticsModal.tsx:132 | with distinct ids, one bar is highlighted when the college is among the first five and none otherwise |
| Analytics.BaseTrend | frontend/src/components/CollegeAnalyticsModal.tsx:137-144 | six points, the 2024 point is exactly the closing rank |
| Analytics.TrendNonDecreasing | frontend/src/components/CollegeAnalyticsModal.tsx:137-144 | for a non-negative closing rank the simulated ranks never fall from year to year |
| Analytics.TrendData | frontend/src/components/CollegeAnalyticsModal.tsx:136-147 | six points with the 2024 point at the closing rank, each carrying "Your Rank" exactly when a rank is given |
| Analytics.RankSafety | frontend/src/components/CollegeAnalyticsModal.tsx:158-160 | present exactly when a rank is given, and then non-negative |
| Analytics.RankSafetyDecreasing | frontend/src/components/CollegeAnalyticsModal.tsx:158-160 | a worse rank is never safer, and safety is 0 at or past the cutoff |
| Analytics.RankBarWidth | frontend/src/components/CollegeAnalyticsModal.tsx:479 | the rank bar's width lies in [5, 100] |
| Analytics.RankMessage | frontend/src/components/CollegeAnalyticsModal.tsx:484-486 | a buffer exactly when the rank is below the cutoff; the amount is the non-negative gap either way |
| Analytics.BudgetMessage | frontend/src/components/CollegeAnalyticsModal.tsx:545-548 | savings exactly when fees are within the budget; the amount is the non-negative gap either way |
| Analytics.FourYearTotal | frontend/src/components/CollegeAnalyticsModal.tsx:573-587 | the shown total equals the sum of the three line items |

## Left out

- The retrieval layer of backend/main.py (`VectorStore`, `simple_tfidf_embed`, `build_rag_context`, `build_college_text`) is not modelled. It is floating-point numerics feeding prompts.
- The language model is not modelled. `generate_llm_explanation` is the parameter `llm` of `Recommend.Explain`, and the upstream chat stream is the input `Upstream`, a sequence of deltas plus an optional failure.
- FastAPI routing, CORS, `StreamingResponse` and pydantic validation are not modelled. What validation guarantees is kept as `ValidPrefs`: rank > 0, budgetMax > 0, budgetMin >= 0.
- The college table is not modelled. Every operation takes the table as a parameter.
- `fetch`, `TextDecoder` and `AbortController` are not modelled. A `Reply` lists the decoded reads and how the exchange ended: finished, failed or aborted. Cancellation is only that third ending. The race between an aborted turn and a newer one is not modelled.
- `JSON.parse` together with `choices?.[0]?.delta?.content` is not modelled. It is the parameter `decode`. `JsonDecode`, which reads the server's own format, is proved to read every server payload.
- ChatSession.Conversation.ReadReply: models the corrected, buffered reader. It keeps the unfinished last line of each read for the next read, and it stops reading at `[DONE]`. The source splits each read on its own, so a line cut between two reads fails to parse and is dropped silently (CollegeDetailModal.tsx:141-162). Its `break` on `[DONE]` only ends the loop over the current read's lines, and reading goes on until the body ends. The reading as written is `ChatSession.UnbufferedText`; `SplitFrameLost` shows a body it loses.
- ChatSession.Conversation.StreamMessage: settles the assistant message on the buffered reader's text, so it does not capture a line lost between reads, for the reason above.
- ChatSession.Outcome: the text is `StreamText`, that of the buffered reader, not `UnbufferedText`, for the reason above.
- ChatSession.CompleteExchange: holds for the buffered reader. The reader as written gets the same text only when no frame is cut between reads (`UnbufferedSingleRead`).
- ChatSession.Conversation.HandleSend and ChatSession.Conversation.OpenOverview: they add `Outcome`, so they share its buffered reading.
- ChatSession.Conversation.HandleReset: does not abort a stream in flight, in the source or here. In the source, that stream's later `setMessages` calls still write into the cleared list, or into the next exchange's last message. Here each method runs to completion at once, so this interleaving is not modelled.
- MessageFormat.FormattedMessage: renders with the intended marker class `-`, `*`, `•`. The source's class as written is `-`, `*`, `â`, `€`, `¢` (see "## Findings"). So a line `• a` is a bullet list here but a paragraph in the source, and a line `¢ a` is the reverse.
- Recommend.ScoreCollege: the weighted sum is exact, while Python sums binary64 floats. A sum that lands next to a half can round differently. For rank 10, closing rank 7, fees 39, budget 40, NIRF 100 and placement 0, the float sum is 0.5000000000000004, which rounds to 1; the exact 0.5 rounds to 0. The scores in `ScoreAll`, `TopTen` and `GetRecommendations` share this gap.
- Recommend.FallbackSentencesChosen: the fee test is the exact `10 * fees <= 7 * budgetMax`. Python computes `budgetMax * 0.7` in binary64, which can fall just below the exact product. For fees 63000 and budget 90000, `90000 * 0.7` is 62999.99999999999, so the source leaves out the fee sentence, while the model includes it. `FallbackSentences` and `FallbackExplanation` share this gap.
- Analytics.ShortName: counts characters, where JavaScript's `length` and `slice` count UTF-16 code units. A name with characters above U+FFFF would be cut differently. The college names in the table are ASCII, where the two agree.
- The prompts, auto-scrolling, focusing, animations and React state batching are not modelled. Each `setMessages` is a direct assignment.
- `fmtFee`, `toLocaleString` and `toFixed` are not modelled. They depend on locale and float formatting. Analytics.Lakhs: modelled as exact rounding to one decimal place, ties up, not as `toFixed` on a binary float.
- Analytics.BaseTrend: the multipliers 0.78 to 1.04 are exact reals, not float products, so a product that falls just beside a half in floating point may round differently.
- The budget-utilisation bar and donut of the analytics view are not modelled. They are display percentages of the same fee/budget ratio.
- FilterForm.Form.SetBudget: the slider's snapping to its step grid is not modelled. Only its range is.
- JavaScript's `Number` is the parameter `number` of `HandleSubmit` and `ButtonDisabled`. `JsNumber` distinguishes NaN, and infinities are not modelled.
- `AnimNumber`, `CollegeCard.tsx`, `recommendation.ts`, `Index.tsx`, `Login.tsx` and the Supabase calls of `Signup.tsx` are not part of this model. They are presentation or calls into services.

## Findings

| source | as written | input that shows it | evidently intended | confidence | as-written member | corrected member |
|---|---|---|---|---|---|---|
| frontend/src/components/CollegeDetailModal.tsx:404-408 | the bullet class is `[-*â€¢]`: the UTF-8 bytes of `•` read back as Windows-1252, so the class holds `-`, `*`, `â`, `€` and `¢` | the line `• a` becomes a paragraph; the line `¢ a` becomes a bullet list of `a` | the class `[-*•]` | high (not executed) | MessageFormat.WrittenBulletMissed | MessageFormat.IntendedBulletFound |
| frontend/src/components/CollegeDetailModal.tsx:138-143 | each read is split into lines on its own, with no buffer carried between reads | the body for the single delta "Hello", delivered as `data: {"choices": [{"delta": {"content": "Hel` and then the rest, gives no text at all | keep the unfinished last line of a read and prepend it to the next read | high (not executed) | ChatSession.SplitFrameLost | ChatSession.StreamRoundTrip |
