/**
 * frontend/src/App.js: the refresh counter that connects the form to the list.
 * ReviewForm is given handleReviewAnalyzed as its callback, and ReviewList is
 * given refreshTrigger as a prop; each change of the prop reloads the list.
 */
module Shell {
  import opened Wrappers
  import opened Records
  import SubmissionForm
  import History
  import Text

  class App {
    var refreshTrigger: int
    const form: SubmissionForm.ReviewForm
    const list: History.ReviewList
    /** Submissions that succeeded since mount. */
    ghost var successes: nat

    /**
     * The counter equals the number of successful submissions, the list has
     * seen its current value, and the list has been loaded once on mount,
     * once per success and once per retry.
     */
    ghost predicate Valid()
      reads this, form, list
    {
      form.Valid() && list.Valid() && form.hasCallback
      && refreshTrigger == successes
      && list.trigger == refreshTrigger
      && list.gets == 1 + successes + list.retries
    }

    constructor ()
      ensures Valid() && fresh(form) && fresh(list)
      ensures refreshTrigger == 0 && successes == 0
      ensures form.Snapshot() == SubmissionForm.Initial && form.posts == []
      ensures list.loading && list.reviews == [] && list.gets == 1 && list.outstanding == 1
      ensures list.error == "" && list.filter == History.AllFilter
    {
      refreshTrigger := 0;
      successes := 0;
      form := new SubmissionForm.ReviewForm(true);
      list := new History.ReviewList(0);
    }

    /**
     * handleReviewAnalyzed, called once per successful submission: the
     * counter goes up by exactly one; the list is re-rendered with the new
     * value and so starts exactly one load.
     */
    method HandleReviewAnalyzed()
      requires Valid()
      modifies this, list
      ensures Valid()
      ensures refreshTrigger == old(refreshTrigger) + 1 && successes == old(successes) + 1
      ensures list.trigger == refreshTrigger
      ensures list.gets == old(list.gets) + 1 && list.outstanding == old(list.outstanding) + 1
      ensures list.loading && list.error == ""
      ensures list.reviews == old(list.reviews) && list.filter == old(list.filter)
      ensures list.retries == old(list.retries)
    {
      refreshTrigger := refreshTrigger + 1;
      successes := successes + 1;
      list.ObserveTrigger(refreshTrigger);
    }

    /** Typing in the product-name input. */
    method TypeProductName(value: string)
      requires Valid()
      modifies form
      ensures Valid() && form.posts == old(form.posts)
      ensures form.Snapshot() ==
                if old(form.loading) then old(form.Snapshot()) else old(form.Snapshot()).(productName := value)
    {
      form.EditProductName(value);
    }

    /** Typing in the review textarea. */
    method TypeReviewText(value: string)
      requires Valid()
      modifies form
      ensures Valid() && form.posts == old(form.posts)
      ensures form.Snapshot() ==
                if old(form.loading) then old(form.Snapshot()) else old(form.Snapshot()).(reviewText := value)
    {
      form.EditReviewText(value);
    }

    /** A click on the submit button; the list and the counter are untouched. */
    method Submit() returns (request: Option<SubmissionForm.AnalyzeRequest>)
      requires Valid()
      modifies form
      ensures Valid()
      ensures request.Some? <==> old(SubmissionForm.SubmitEnabled(form.Snapshot()))
      ensures request.None? ==> form.Snapshot() == old(form.Snapshot()) && form.posts == old(form.posts)
      ensures request.Some? ==>
                SubmissionForm.Begin(old(form.Snapshot())) == SubmissionForm.Started(form.Snapshot(), request)
                && form.posts == old(form.posts) + [request.value]
    {
      request := form.PressSubmit();
    }

    /**
     * The analyze POST settles. A success counts once, bumps the counter once
     * and reloads the list once; a failure changes neither counter nor list.
     */
    method AnalysisSettled(response: SubmissionForm.AnalyzeResponse)
      requires Valid() && form.loading
      modifies this, form, list
      ensures Valid()
      ensures SubmissionForm.Finish(old(form.Snapshot()), response, true).state == form.Snapshot()
      ensures form.posts == old(form.posts)
      ensures successes == old(successes) + (if response.Analyzed? then 1 else 0)
      ensures list.gets == old(list.gets) + (if response.Analyzed? then 1 else 0)
      ensures list.reviews == old(list.reviews) && list.filter == old(list.filter)
      ensures response.Analyzed? ==>
                list.loading && list.error == "" && list.outstanding == old(list.outstanding) + 1
      ensures response.AnalyzeFailed? ==>
                list.loading == old(list.loading) && list.error == old(list.error)
                && list.outstanding == old(list.outstanding)
    {
      var notified := form.ReceiveResponse(response);
      if notified.Some? {
        HandleReviewAnalyzed();
      }
    }

    /** The reviews GET settles. */
    method HistorySettled(response: History.FetchResponse)
      requires Valid() && list.outstanding > 0
      modifies list
      ensures Valid() && !list.loading
      ensures response.Loaded? ==> list.reviews == response.data && list.error == old(list.error)
      ensures response.FetchFailed? ==>
                list.reviews == old(list.reviews) && list.error == History.FetchErrorMessage
      ensures list.filter == old(list.filter) && list.gets == old(list.gets)
      ensures list.outstanding == old(list.outstanding) - 1
    {
      list.ResolveFetch(response);
    }

    /** The list's Try Again button. */
    method RetryHistory()
      requires Valid() && list.View().ErrorView?
      modifies list
      ensures Valid() && list.loading && list.error == ""
      ensures list.gets == old(list.gets) + 1 && list.outstanding == old(list.outstanding) + 1
      ensures list.reviews == old(list.reviews) && list.filter == old(list.filter)
    {
      list.Retry();
    }
  }

  /**
   * A whole round through the application: after mount, a valid review is
   * typed and submitted, the analysis succeeds, the reload it causes returns
   * a history containing the analysed review, and a filter button that
   * matches its sentiment is pressed. Exactly one request is sent with the
   * trimmed product name, the list is loaded exactly twice (mount and
   * refresh), and the review is on screen.
   */
  method SubmitAndBrowse(productName: string, text: string, data: ReviewRecord,
                         history: seq<ReviewRecord>, button: History.FilterButton)
    returns (request: Option<SubmissionForm.AnalyzeRequest>, gets: nat, shown: seq<ReviewRecord>)
    requires SubmissionForm.MeetsMinimumLength(text)
    requires data in history && History.Keep(data, button.Value())
    ensures request == Some(SubmissionForm.AnalyzeRequest(Text.JsTrim(productName), text))
    ensures gets == 2
    ensures data in shown
  {
    var app := new App();
    app.TypeProductName(productName);
    app.TypeReviewText(text);
    request := app.Submit();
    app.AnalysisSettled(SubmissionForm.Analyzed(data));
    assert app.form.result == Some(data) && app.form.productName == "" && app.form.reviewText == "";
    assert app.refreshTrigger == 1 && app.list.error == "";
    app.HistorySettled(History.Loaded(history));
    assert app.list.View() == History.Render(false, "", history, app.list.filter);
    app.list.SelectFilter(button);
    gets := app.list.gets;
    assert app.list.View() == History.Render(false, "", history, button.Value());
    shown := app.list.View().shown;
    History.MatchingReviewIsShown(history, button.Value(), data);
  }
}
