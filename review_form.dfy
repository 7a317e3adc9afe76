/**
 * frontend/src/components/ReviewForm.js: the submission controller.
 *
 * The component's five state fields live in class ReviewForm; what one step
 * of handleSubmit does to them is stated by the pure functions Begin (the
 * part before the awaited POST) and Finish (the part after it resolves), and
 * each method of the class is proved to perform exactly that step.
 */
module SubmissionForm {
  import opened Wrappers
  import opened Records
  import Text

  const MinReviewLength: nat := 10
  const LengthError: string := "Minimal review harus 10 karakter"
  const FallbackError: string := "Analisis gagal. Silakan coba lagi."

  /** The length rule: at least ten UTF-16 code units once trimmed (JavaScript's trim().length). */
  predicate MeetsMinimumLength(text: string)
    ensures MeetsMinimumLength(text) ==> 2 * |Text.JsTrim(text)| >= MinReviewLength
    ensures |Text.JsTrim(text)| >= MinReviewLength ==> MeetsMinimumLength(text)
  {
    Text.Utf16Length(Text.JsTrim(text)) >= MinReviewLength
  }

  /** The JSON body of POST /api/analyze-review. */
  datatype AnalyzeRequest = AnalyzeRequest(productName: string, reviewText: string)

  /**
   * How the POST settles: the response data, or a rejection carrying the
   * server's `error` field when the response had one.
   */
  datatype AnalyzeResponse = Analyzed(data: ReviewRecord) | AnalyzeFailed(serverError: Option<string>)

  /** The component's state: productName, reviewText, loading, error, result. */
  datatype FormState = FormState(
    productName: string,
    reviewText: string,
    loading: bool,
    error: string,
    result: Option<ReviewRecord>)

  const Initial: FormState := FormState("", "", false, "", None)

  /** While a submission is pending, loading is set and error and result are both cleared. */
  predicate Pending(s: FormState) {
    s.loading && s.error == "" && s.result.None?
  }

  /** The submit button is enabled: not loading, and the text meets the length rule. */
  predicate SubmitEnabled(s: FormState)
    ensures SubmitEnabled(s) <==> !s.loading && Begin(s).request.Some?
  {
    !s.loading && MeetsMinimumLength(s.reviewText)
  }

  datatype Started = Started(state: FormState, request: Option<AnalyzeRequest>)

  /**
   * handleSubmit up to the awaited POST. A text that fails the length rule
   * only sets the length error: no request, nothing else changes. Otherwise
   * the form becomes pending and exactly one request is made, carrying the
   * trimmed product name and the review text as typed.
   */
  function Begin(s: FormState): (r: Started)
    ensures r.request.Some? <==> MeetsMinimumLength(s.reviewText)
    ensures r.request.None? ==> r.state == s.(error := LengthError)
    ensures r.request.Some? ==>
              Pending(r.state)
              && r.state.productName == s.productName && r.state.reviewText == s.reviewText
              && r.request.value == AnalyzeRequest(Text.JsTrim(s.productName), s.reviewText)
  {
    if !MeetsMinimumLength(s.reviewText) then
      Started(s.(error := LengthError), None)
    else
      Started(s.(loading := true, error := "", result := None),
              Some(AnalyzeRequest(Text.JsTrim(s.productName), s.reviewText)))
  }

  /**
   * The error shown after a failed POST: the server's message when it sent a
   * non-empty one, the fallback otherwise. Either way something is shown.
   */
  function FailureMessage(serverError: Option<string>): (m: string)
    ensures m != ""
    ensures serverError.Some? && serverError.value != "" ==> m == serverError.value
    ensures serverError.None? || serverError.value == "" ==> m == FallbackError
  {
    if serverError.Some? && serverError.value != "" then serverError.value else FallbackError
  }

  datatype Finished = Finished(state: FormState, notified: Option<ReviewRecord>)

  /**
   * handleSubmit after the POST settles. Loading always ends; then exactly one
   * of result and error is set. A success stores the data, clears both inputs
   * and notifies the parent once, if it gave a callback; a failure stores the
   * message and keeps the inputs.
   */
  function Finish(s: FormState, response: AnalyzeResponse, hasCallback: bool): (r: Finished)
    requires Pending(s)
    ensures !r.state.loading
    ensures r.state.result.Some? <==> r.state.error == ""
    ensures r.state.result.Some? <==> response.Analyzed?
    ensures response.Analyzed? ==>
              r.state.result == Some(response.data)
              && r.state.productName == "" && r.state.reviewText == ""
    ensures r.notified.Some? <==> response.Analyzed? && hasCallback
    ensures r.notified.Some? ==> r.notified.value == response.data
    ensures response.AnalyzeFailed? ==>
              r.state.error == FailureMessage(response.serverError)
              && r.state.productName == s.productName && r.state.reviewText == s.reviewText
  {
    match response
    case Analyzed(data) =>
      Finished(FormState("", "", false, "", Some(data)), if hasCallback then Some(data) else None)
    case AnalyzeFailed(serverError) =>
      Finished(s.(loading := false, error := FailureMessage(serverError)), None)
  }

  /**
   * A submission made through the enabled button: one request, never the
   * length error, and once the response arrives the form is idle again with
   * exactly one of result and error, the inputs cleared exactly on success.
   */
  lemma SubmitCycle(s: FormState, response: AnalyzeResponse, hasCallback: bool)
    requires SubmitEnabled(s)
    ensures var started := Begin(s);
      started.request == Some(AnalyzeRequest(Text.JsTrim(s.productName), s.reviewText))
      && started.state.error != LengthError
      && var done := Finish(started.state, response, hasCallback).state;
        !done.loading
        && (done.result.Some? != (done.error != ""))
        && (response.Analyzed? ==> done.productName == "" && done.reviewText == "")
        && (response.AnalyzeFailed? ==> done.productName == s.productName && done.reviewText == s.reviewText)
  {
  }

  /** A text of whitespace only never meets the length rule, however long it is. */
  lemma BlankTextRejected(text: string)
    requires forall k :: 0 <= k < |text| ==> Text.IsJsSpace(text[k])
    ensures !MeetsMinimumLength(text)
    ensures Begin(FormState("", text, false, "", None)).request.None?
  {
    Text.TrimSpec(text, Text.IsJsSpace);
    assert Text.JsTrim(text) == [];
  }

  class ReviewForm {
    var productName: string
    var reviewText: string
    var loading: bool
    var error: string
    var result: Option<ReviewRecord>
    /** Whether the parent passed onReviewAnalyzed. */
    const hasCallback: bool
    /** Every analyze request sent so far, oldest first (the network is outside the model). */
    var posts: seq<AnalyzeRequest>

    function Snapshot(): FormState
      reads this
    {
      FormState(productName, reviewText, loading, error, result)
    }

    /**
     * While pending, the form holds the pending state and its inputs are still
     * those of the request in flight (they are disabled until it settles).
     */
    ghost predicate Valid()
      reads this
    {
      loading ==>
        Pending(Snapshot()) && posts != []
        && posts[|posts| - 1] == AnalyzeRequest(Text.JsTrim(productName), reviewText)
    }

    constructor (hasCallback: bool)
      ensures Valid() && Snapshot() == Initial && posts == [] && this.hasCallback == hasCallback
    {
      productName, reviewText, loading, error, result := "", "", false, "", None;
      this.hasCallback := hasCallback;
      posts := [];
    }

    /** The product-name input's onChange; a disabled input ignores typing. */
    method EditProductName(value: string)
      requires Valid()
      modifies this
      ensures Valid() && posts == old(posts)
      ensures Snapshot() == if old(loading) then old(Snapshot()) else old(Snapshot()).(productName := value)
    {
      if !loading {
        productName := value;
      }
    }

    /** The review textarea's onChange; a disabled textarea ignores typing. */
    method EditReviewText(value: string)
      requires Valid()
      modifies this
      ensures Valid() && posts == old(posts)
      ensures Snapshot() == if old(loading) then old(Snapshot()) else old(Snapshot()).(reviewText := value)
    {
      if !loading {
        reviewText := value;
      }
    }

    /**
     * handleSubmit up to the await. The handler itself has no guard against a
     * submission already pending; it is only reached through PressSubmit.
     */
    method HandleSubmit() returns (request: Option<AnalyzeRequest>)
      requires Valid() && !loading
      modifies this
      ensures Valid()
      ensures Begin(old(Snapshot())) == Started(Snapshot(), request)
      ensures posts == old(posts) + (if request.Some? then [request.value] else [])
    {
      ghost var before := Snapshot();
      if !MeetsMinimumLength(reviewText) {
        error := LengthError;
        assert Snapshot() == before.(error := LengthError);
        assert Begin(before) == Started(Snapshot(), None);
        return None;
      }
      var body := AnalyzeRequest(Text.JsTrim(productName), reviewText);
      loading, error, result := true, "", None;
      posts := posts + [body];
      request := Some(body);
      assert Snapshot() == before.(loading := true, error := "", result := None);
      assert Begin(before) == Started(Snapshot(), request);
    }

    /** handleSubmit after the await: the try/catch and the finally. */
    method ReceiveResponse(response: AnalyzeResponse) returns (notified: Option<ReviewRecord>)
      requires Valid() && loading
      modifies this
      ensures Valid() && !loading
      ensures Finish(old(Snapshot()), response, hasCallback) == Finished(Snapshot(), notified)
      ensures posts == old(posts)
    {
      notified := None;
      match response {
        case Analyzed(data) =>
          result := Some(data);
          productName := "";
          reviewText := "";
          if hasCallback {
            notified := Some(data);
          }
        case AnalyzeFailed(serverError) =>
          error := FailureMessage(serverError);
      }
      loading := false;
    }

    /**
     * A click on the submit button, which is disabled while loading or while
     * the text is too short: a disabled button does nothing at all, so a second
     * submission while one is pending sends nothing, and the length error is
     * never reached this way.
     */
    method PressSubmit() returns (request: Option<AnalyzeRequest>)
      requires Valid()
      modifies this
      ensures Valid()
      ensures request.Some? <==> old(SubmitEnabled(Snapshot()))
      ensures request.None? ==> Snapshot() == old(Snapshot()) && posts == old(posts)
      ensures request.Some? ==>
                Begin(old(Snapshot())) == Started(Snapshot(), request) && posts == old(posts) + [request.value]
    {
      if !SubmitEnabled(Snapshot()) {
        return None;
      }
      request := HandleSubmit();
    }
  }
}
