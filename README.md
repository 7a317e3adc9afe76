# Product Review Analyzer — a verified model of the submit-and-history workflow

The Product Review Analyzer lets a user submit a product review. The backend
classifies the review's sentiment (positive, negative or neutral) with a
Hugging Face classifier and asks Gemini for key points. The React client then
shows the analysis and a filterable history of every stored review. This
project models the parts of that system that decide what the user sees, and
proves what they promise:

- **The submission controller** (`ReviewForm`). It holds the form state, validates the
  text, sends one analyze request, and handles success or failure. Its class is
  `SubmissionForm.ReviewForm`, and the pure step functions `Begin` and `Finish`
  say what one step does.
- **The history store** (`ReviewList`). It handles loads, the filter, the counts and
  which view is rendered. Its class is `History.ReviewList`, with pure functions
  `FilteredReviews`, `SentimentCounts` and `Render`.
- **The refresh signal** (`App`). A counter links a successful submission to a reload of
  the history. Its class is `Shell.App`.
- **The backend's decision logic** (`analyzer.py`). It covers the 0.70 confidence
  threshold, the key-point error messages and the composed analysis, in module
  `Analyzer`. The classifier and Gemini are function parameters.
- **The persistence helpers** (`models.py`). These are the `DATABASE_URL` scheme
  rewrite, `Review.to_dict`, ISO timestamps and column nullability, in module `Models`.

Module `Text` gives the string primitives the source relies on:

- JavaScript `trim` and UTF-16 `length`;
- Python `strip`, `upper`/`lower`, `in`, `startswith`, `replace` and slicing.

Module `Records` gives the JSON shape of a review as the client reads it.
Module `SentimentDisplay` gives the colour and icon mappings that both
components define.

The form's methods `HandleSubmit`, `ReceiveResponse` and `PressSubmit` are
proved against pure functions of the old state. For example, `HandleSubmit`
ensures `Begin(old(Snapshot())) == Started(Snapshot(), request)`, and the
properties are then proved about `Begin` and `Finish`. The other stateful
methods state their new state field by field in their postconditions. All of
them keep class invariants (`Valid`). The `App` invariant states the counter facts:

- the counter equals the number of successful submissions;
- the history has been loaded once on mount, once per success and once per retry.

Three behaviours of the code worth noting:

- Editing an input does not clear a displayed error. The inputs are disabled
  while a submission is pending, so nothing can be typed then
  (`frontend/src/components/ReviewForm.js` lines 83, 86, 96, 100).
- A second submission while one is pending is prevented only by the disabled
  button. `handleSubmit` itself has no guard. `PressSubmit` models the button
  and `HandleSubmit` the handler.
- A failed history load keeps the previously loaded reviews in state, but the
  error view is rendered in their place (`ErrorHidesStaleReviews`).

## Model

| member | source | states |
|---|---|---|
| Text.TrimSpec | frontend/src/components/ReviewForm.js:16 | `trim` leaves the part between a leading and a trailing whitespace run, neither end of it whitespace, and it is empty exactly when the text is all whitespace |
| Text.JsTrim | frontend/src/components/ReviewForm.js:16 | JavaScript `trim` gives the slice of the text that starts after its leading whitespace, and neither end of the result is whitespace |
| Text.PyStrip | backend/analyzer.py:67 | Python `strip` gives the slice of the text that starts after its leading whitespace, and neither end of the result is whitespace |
| Text.Utf16Length | frontend/src/components/ReviewForm.js:16 | `length` counts UTF-16 code units: between one and two per character, exactly one when every character is in the Basic Multilingual Plane |
| Text.Utf16LengthCountsAstral | frontend/src/components/ReviewForm.js:16 | the UTF-16 length is the number of characters plus the number of characters outside the Basic Multilingual Plane |
| Text.Upper | backend/analyzer.py:73 | `upper` maps each character by the ASCII case map, keeps the length, and leaves no lower-case ASCII letter |
| Text.Lower | backend/analyzer.py:25 | `lower` maps each character by the ASCII case map, keeps the length, and leaves no upper-case ASCII letter |
| Text.Contains | backend/analyzer.py:73-75 | Python's `in` on strings: the needle starts at the front or somewhere further on |
| Text.ContainsIffOccurs | backend/analyzer.py:73-75 | `needle in s` holds exactly when needle equals the slice of s at some position |
| Text.Take | backend/analyzer.py:22 | `text[:512]` is the prefix of length min(\|text\|, 512) |
| Text.StartsWith | backend/models.py:13 | `startswith`: the text begins with the prefix |
| Text.StartsWithIffPrefix | backend/models.py:13 | a text starts with a prefix exactly when it is that prefix followed by some rest |
| Text.ReplaceAll | backend/models.py:14 | `replace` puts the replacement where an occurrence stood at the front, and leaves a string without an occurrence unchanged |
| Text.ReplaceAllFront | backend/models.py:14 | an occurrence at the front is replaced and the scan continues right after it |
| Text.ReplaceAllLeavesNone | backend/models.py:14 | when the replacement cannot give rise to a new occurrence, no occurrence of the pattern is left anywhere in the result |
| Models.EngineUrl | backend/models.py:13-14 | a URL starting with `postgresql://` comes out starting with `postgresql+psycopg://` with every occurrence replaced; any other URL, and a missing one, is unchanged |
| Models.EngineUrlIdempotent | backend/models.py:13-14 | applying the rewrite to its own result changes nothing more |
| Models.EngineUrlReplacesEveryOccurrence | backend/models.py:13-14 | every `postgresql://` in the URL is rewritten, not only the prefix: none is left in the result |
| Models.ParseDigitsOfDigits | backend/models.py:39 | a zero-padded decimal field reads back as its number |
| Models.IsoFormat | backend/models.py:39 | `isoformat` text is 19 characters, or 26 with microseconds, with its separators at the fixed positions |
| Models.IsoFormatRoundTrip | backend/models.py:39 | the timestamp can be read back from its ISO text: nothing is lost |
| Models.CreatedAtText | backend/models.py:39 | created_at is null exactly when absent; otherwise it is ISO text that reads back as the stored timestamp |
| Models.ToDict | backend/models.py:23-40 | `to_dict` has exactly the seven keys; created_at is its ISO text or null, and null exactly when absent |
| Records.Decode | frontend/src/components/ReviewList.js:186-252 | a review the client can read has every key of the dictionary, and its id, review_text and sentiment are the stored values |
| Models.DecodeToDict | backend/models.py:23-40 | the client reads back every field verbatim from `to_dict`, with a null product_name or key_points preserved, and created_at as ISO text |
| Analyzer.Sentiment.Name | backend/analyzer.py:42-45 | the stored sentiment is always one of 'positive', 'negative', 'neutral' |
| Analyzer.Decide | backend/analyzer.py:25-40 | a score below 0.70 gives neutral whatever the label; at or above it, positive exactly for the lower-cased label 'positive' and negative exactly for 'negative', neutral otherwise |
| Analyzer.AnalyzeSentiment | backend/analyzer.py:16-51 | the classifier gets the first 512 characters; its score is passed on unchanged with the decided sentiment; a raising classifier gives (neutral, 0.5) |
| Analyzer.SentimentSeesOnlyPrefix | backend/analyzer.py:22 | two reviews with the same first 512 characters get the same sentiment and score |
| Analyzer.ModelLabelsRecognised | backend/analyzer.py:25-38 | the model's upper-case labels POSITIVE and NEGATIVE are recognised when confident |
| Analyzer.KeyPointsError | backend/analyzer.py:72-78 | an exception text containing API_KEY (any case) gives the API-key message, otherwise one containing QUOTA gives the quota message, otherwise the "Unable to extract key points: " message with the text appended |
| Analyzer.KeyPointsErrorClassifies | backend/analyzer.py:72-78 | the result is the API-key message if and only if the text contains API_KEY, and the quota message if and only if it contains QUOTA but not API_KEY |
| Analyzer.KeyPointsErrorIgnoresCase | backend/analyzer.py:73 | API_KEY in any casing, anywhere in the text, selects the API-key message |
| Analyzer.ExtractKeyPoints | backend/analyzer.py:53-78 | generated text is returned stripped, with no whitespace at either end; a Gemini exception is turned into its message and never escapes |
| Analyzer.AnalyzeReview | backend/analyzer.py:80-91 | exactly the keys sentiment, sentiment_score and key_points; sentiment and score come from one sentiment analysis, key_points from the extraction |
| Analyzer.AnalysisSentimentIsKnown | backend/analyzer.py:84-91 | whatever the classifier does, the sentiment is one of the three names and the score is the classifier's own or 0.5 |
| SentimentDisplay.SentimentColor | frontend/src/components/ReviewForm.js:45-54 | 'positive' and 'negative' each get their own colour, and exactly every other string gets the grey default |
| SentimentDisplay.SentimentIcon | frontend/src/components/ReviewForm.js:56-65 | 'positive' and 'negative' each get their own icon, and exactly every other string gets the neutral face |
| SentimentDisplay.ColorAndIconAgree | frontend/src/components/ReviewForm.js:45-65 | colour and icon always fall in the same case |
| SentimentDisplay.BackendSentimentsDistinguished | frontend/src/components/ReviewList.js:29-49 | the three backend sentiments get three different colours and icons; neutral is shown by the default case |
| SubmissionForm.MeetsMinimumLength | frontend/src/components/ReviewForm.js:16 | the length rule: a text that passes has at least 5 characters once trimmed, and one with at least 10 trimmed characters always passes |
| SubmissionForm.SubmitEnabled | frontend/src/components/ReviewForm.js:109 | the button is enabled exactly when the form is not loading and a submission would send a request |
| SubmissionForm.Begin | frontend/src/components/ReviewForm.js:13-29 | a text under 10 trimmed UTF-16 units only sets the length error, with no request; otherwise the form becomes pending with loading set and error and result cleared, and exactly one request carries the trimmed product name and the untrimmed review text |
| SubmissionForm.FailureMessage | frontend/src/components/ReviewForm.js:39 | the server's non-empty error message, else the fallback; never empty |
| SubmissionForm.Finish | frontend/src/components/ReviewForm.js:30-42 | loading ends; exactly one of result and error is set; success stores the data, clears both inputs and notifies once exactly when a callback was given; failure stores the message and keeps the inputs |
| SubmissionForm.SubmitCycle | frontend/src/components/ReviewForm.js:13-43 | a submission through the enabled button never hits the length error, sends one request, and settles idle with exactly one of result and error |
| SubmissionForm.BlankTextRejected | frontend/src/components/ReviewForm.js:16-19 | a review of whitespace only never passes the length rule, however long it is |
| SubmissionForm.ReviewForm.constructor | frontend/src/components/ReviewForm.js:7-11 | empty inputs and no error, result or loading; no request yet |
| SubmissionForm.ReviewForm.EditProductName | frontend/src/components/ReviewForm.js:80-87 | typing replaces the product name unless the input is disabled while loading; nothing else changes |
| SubmissionForm.ReviewForm.EditReviewText | frontend/src/components/ReviewForm.js:94-101 | typing replaces the review text unless the textarea is disabled while loading; nothing else changes |
| SubmissionForm.ReviewForm.HandleSubmit | frontend/src/components/ReviewForm.js:13-29 | performs exactly `Begin` on the state and appends exactly the request it returns to the requests sent |
| SubmissionForm.ReviewForm.ReceiveResponse | frontend/src/components/ReviewForm.js:30-42 | performs exactly `Finish` on the state, returns the notification, and sends nothing |
| SubmissionForm.ReviewForm.PressSubmit | frontend/src/components/ReviewForm.js:107-109 | the button sends a request if and only if it is enabled (not loading and a long enough text); a disabled button changes nothing |
| History.FilterButton.Value | frontend/src/components/ReviewList.js:129-180 | only the All button selects 'all'; Positive, Negative and Neutral select exactly the labels the backend stores for those sentiments |
| History.Keep | frontend/src/components/ReviewList.js:62-65 | the filter callback: 'all' keeps every review, any other filter keeps exactly the reviews with that sentiment |
| History.FilteredReviews | frontend/src/components/ReviewList.js:62-65 | the visible list is no longer than the list and holds only reviews the filter keeps |
| History.FilterAllShowsEverything | frontend/src/components/ReviewList.js:62-63 | with filter 'all' the visible list is the whole list |
| History.FilterKeepsOrder | frontend/src/components/ReviewList.js:62-65 | the visible list is a subsequence of the list: relative order is kept |
| History.FilterKeepsExactlyMatches | frontend/src/components/ReviewList.js:62-65 | each review occurs in the visible list as often as in the list when the filter keeps it, and not at all otherwise |
| History.MatchingReviewIsShown | frontend/src/components/ReviewList.js:62-65 | a review that matches the filter is visible |
| History.SentimentCounts | frontend/src/components/ReviewList.js:67-72 | the total count is the list's length |
| History.CountsConsistent | frontend/src/components/ReviewList.js:67-72 | positive + negative + neutral never exceeds the total, and equals it if and only if every review's sentiment is one of the three |
| History.EmptyListCountsZero | frontend/src/components/ReviewList.js:62-72 | an empty list shows nothing under any filter and counts zero everywhere |
| History.HeaderNoun | frontend/src/components/ReviewList.js:125 | the header says 'Review' if and only if there is exactly one review, 'Reviews' otherwise |
| History.Render | frontend/src/components/ReviewList.js:74-117 | loading first, then a non-empty error with its message, then the empty view, then the list with its total, noun, counts, active filter and filtered reviews |
| History.ErrorHidesStaleReviews | frontend/src/components/ReviewList.js:87-101 | an error shows the error view even while earlier reviews are held |
| History.ReviewList.constructor | frontend/src/components/ReviewList.js:7-14 | mounting starts empty with filter 'all' and runs the first load at once |
| History.ReviewList.FetchReviews | frontend/src/components/ReviewList.js:16-20 | a load sets loading, clears the error, sends one request, and keeps the list and the filter |
| History.ReviewList.ResolveFetch | frontend/src/components/ReviewList.js:20-26 | a success replaces the list wholesale; a failure keeps it and sets 'Failed to fetch reviews'; loading ends either way and the filter is kept |
| History.ReviewList.ObserveTrigger | frontend/src/components/ReviewList.js:12-14 | a changed refreshTrigger starts exactly one load; an unchanged one starts none |
| History.ReviewList.Retry | frontend/src/components/ReviewList.js:94 | Try Again, shown only with the error view, runs the same load once |
| History.ReviewList.SelectFilter | frontend/src/components/ReviewList.js:129-180 | a filter button sets the filter to its value and changes nothing else |
| Shell.App.constructor | frontend/src/App.js:7 | the counter starts at 0, and the list is loading with one request sent, no reviews, no error and the 'all' filter |
| Shell.App.HandleReviewAnalyzed | frontend/src/App.js:9-12 | one more success: the counter goes up by exactly one, the list starts exactly one load, and the counter invariant is kept |
| Shell.App.TypeProductName | frontend/src/components/ReviewForm.js:83 | typing in the product-name input changes only the form's product name, and only when not loading |
| Shell.App.TypeReviewText | frontend/src/components/ReviewForm.js:96 | typing in the textarea changes only the form's review text, and only when not loading |
| Shell.App.Submit | frontend/src/components/ReviewForm.js:107-109 | a click sends a request exactly when the button is enabled; the counter and the list are untouched |
| Shell.App.AnalysisSettled | frontend/src/App.js:9-24 | the form performs `Finish` and sends no further request; a success counts once, raises the counter once and reloads the list once; a failure changes neither the counter nor the list |
| Shell.App.HistorySettled | frontend/src/components/ReviewList.js:16-27 | the list's load settles: a success replaces the reviews and keeps the error as it was, a failure keeps them and sets the fetch error; loading ends, one fewer load is outstanding, and the filter, the load count and the counter invariant are kept |
| Shell.App.RetryHistory | frontend/src/components/ReviewList.js:94 | a retry is one more load sent and outstanding; the reviews and the filter are kept, and so is the counter invariant |
| Shell.SubmitAndBrowse | frontend/src/App.js:23-24 | after mount, a valid submission sends one request with the trimmed name; on success the list is loaded exactly twice in total; once the reload returns the new review, it is visible under a filter that matches it |

## Left out

- SubmissionForm.ReviewForm.HandleSubmit: requires a form that is not loading. The handler in the source has no such guard, but it is reached only through the button, which is disabled while loading (`PressSubmit`). Two overlapping submissions are not modelled.
- Text.Upper and Text.Lower: only ASCII letters change case. Python's full Unicode case mapping is not modelled. One difference: the dotless 'ı' upper-cases to 'I' in Python, so such exception texts may be classified differently by `Analyzer.KeyPointsError`.
- Text.Utf16Length: a Dafny string cannot hold a lone surrogate, so JavaScript strings with unpaired surrogates are not modelled.
- Models.IsoFormat: `Day` ranges over 1..31 without month lengths or leap years. Time-zone offsets are not modelled (the column holds naive UTC timestamps).
- The Hugging Face classifier and the Gemini model are function parameters. The prompt text, the model names and the `print` diagnostics are not modelled.
- The 0.70 threshold and the scores are exact reals. Floating-point rounding is not modelled.
- HTTP and axios are not modelled. Each analyze request the form posts is appended to a list of requests sent; the history's loads are counted (`gets`, with `outstanding` for those not yet settled). Each response is an argument of the method that settles it.
- Responses are not paired with their requests. Any outstanding load may settle next, and the last one to settle wins, as in the source.
- Late resolution after unmount is not modelled, and neither is the component lifecycle beyond mount.
- `formatDate`, the confidence percentage (`sentiment_score * 100`, `toFixed(1)`), the upper-cased sentiment badge, the JSX layout, the styles and the animations are presentational and are not modelled.
- The SQLAlchemy engine and session, `create_all`, `load_dotenv` and `os.getenv` are database and environment I/O. The environment value is a parameter of `Models.EngineUrl`.
- Column lengths `String(255)` and `String(20)` are not enforced. The primary key is modelled as always present (`id` is not nullable in `Models.ReviewRow`).
- backend/test_gemini.py and backend/list_models.py are diagnostic scripts and are not part of this model.
