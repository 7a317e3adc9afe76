/**
 * frontend/src/components/ReviewList.js: the history store and its filter view.
 *
 * The component's state (reviews, loading, error, filter) lives in class
 * ReviewList; filteredReviews, sentimentCounts and the choice of what to
 * render are pure functions of that state.
 */
module History {
  import opened Records
  import Analyzer

  const AllFilter: string := "all"
  const FetchErrorMessage: string := "Failed to fetch reviews"

  /**
   * The four filter buttons and the filter value each one selects: 'all', or
   * exactly the label the backend stores for that sentiment.
   */
  datatype FilterButton = ShowAll | ShowPositive | ShowNegative | ShowNeutral {
    function Value(): (v: string)
      ensures v == AllFilter <==> this == ShowAll
      ensures this == ShowPositive ==> v == Analyzer.Sentiment.Positive.Name()
      ensures this == ShowNegative ==> v == Analyzer.Sentiment.Negative.Name()
      ensures this == ShowNeutral ==> v == Analyzer.Sentiment.Neutral.Name()
    {
      match this
      case ShowAll => AllFilter
      case ShowPositive => "positive"
      case ShowNegative => "negative"
      case ShowNeutral => "neutral"
    }
  }

  /** The filter callback: 'all' keeps everything, any other filter keeps exactly its sentiment. */
  predicate Keep(review: ReviewRecord, filter: string) {
    filter == AllFilter || review.sentiment == filter
  }

  /** reviews.filter(...): the reviews the filter keeps, in their order. */
  function FilteredReviews(reviews: seq<ReviewRecord>, filter: string): (shown: seq<ReviewRecord>)
    ensures |shown| <= |reviews|
    ensures forall k :: 0 <= k < |shown| ==> Keep(shown[k], filter)
  {
    if reviews == [] then []
    else (if Keep(reviews[0], filter) then [reviews[0]] else []) + FilteredReviews(reviews[1..], filter)
  }

  /** a can be obtained from b by deleting elements. */
  predicate IsSubsequence(a: seq<ReviewRecord>, b: seq<ReviewRecord>)
    decreases |b|
  {
    a == [] || (b != [] && ((a[0] == b[0] && IsSubsequence(a[1..], b[1..])) || IsSubsequence(a, b[1..])))
  }

  /** Filter 'all' shows the whole list. */
  lemma {:induction false} FilterAllShowsEverything(reviews: seq<ReviewRecord>)
    ensures FilteredReviews(reviews, AllFilter) == reviews
  {
    if reviews != [] {
      FilterAllShowsEverything(reviews[1..]);
    }
  }

  /** Filtering keeps relative order: the visible list is a subsequence of the list. */
  lemma {:induction false} FilterKeepsOrder(reviews: seq<ReviewRecord>, filter: string)
    ensures IsSubsequence(FilteredReviews(reviews, filter), reviews)
  {
    if reviews != [] {
      FilterKeepsOrder(reviews[1..], filter);
      var shown := FilteredReviews(reviews, filter);
      var rest := FilteredReviews(reviews[1..], filter);
      if Keep(reviews[0], filter) {
        assert shown == [reviews[0]] + rest;
        assert shown[0] == reviews[0] && shown[1..] == rest;
      } else {
        assert shown == rest;
      }
    }
  }

  /**
   * Filtering drops nothing it should keep: each review occurs in the visible
   * list as often as in the list when the filter keeps it, and not at all otherwise.
   */
  lemma {:induction false} FilterKeepsExactlyMatches(reviews: seq<ReviewRecord>, filter: string, r: ReviewRecord)
    ensures multiset(FilteredReviews(reviews, filter))[r] == if Keep(r, filter) then multiset(reviews)[r] else 0
  {
    if reviews != [] {
      FilterKeepsExactlyMatches(reviews[1..], filter, r);
      assert reviews == [reviews[0]] + reviews[1..];
    }
  }

  /** A review the filter keeps is visible. */
  lemma MatchingReviewIsShown(reviews: seq<ReviewRecord>, filter: string, r: ReviewRecord)
    requires r in reviews && Keep(r, filter)
    ensures r in FilteredReviews(reviews, filter)
  {
    FilterKeepsExactlyMatches(reviews, filter, r);
  }

  datatype Counts = Counts(all: nat, positive: nat, negative: nat, neutral: nat)

  /** sentimentCounts: the list's length and the size of each sentiment's filtered list. */
  function SentimentCounts(reviews: seq<ReviewRecord>): (c: Counts)
    ensures c.all == |reviews|
  {
    Counts(|reviews|, |FilteredReviews(reviews, "positive")|, |FilteredReviews(reviews, "negative")|,
           |FilteredReviews(reviews, "neutral")|)
  }

  /**
   * The three sentiment counts never exceed the total, and add up to it
   * exactly when every review carries one of the three sentiments.
   */
  lemma {:induction false} CountsConsistent(reviews: seq<ReviewRecord>)
    ensures var c := SentimentCounts(reviews);
      c.positive + c.negative + c.neutral <= c.all
      && (c.positive + c.negative + c.neutral == c.all
          <==> forall k :: 0 <= k < |reviews| ==> Analyzer.IsSentimentName(reviews[k].sentiment))
  {
    if reviews != [] {
      CountsConsistent(reviews[1..]);
      var tail := reviews[1..];
      assert forall k :: 0 <= k < |tail| ==> tail[k] == reviews[k + 1];
      if !Analyzer.IsSentimentName(reviews[0].sentiment) {
        assert !(forall k :: 0 <= k < |reviews| ==> Analyzer.IsSentimentName(reviews[k].sentiment));
      }
    }
  }

  /** An empty list shows nothing under any filter and counts zero everywhere. */
  lemma EmptyListCountsZero(filter: string)
    ensures FilteredReviews([], filter) == []
    ensures SentimentCounts([]) == Counts(0, 0, 0, 0)
  {
  }

  /** The header's noun: singular for exactly one review. */
  function HeaderNoun(total: nat): (noun: string)
    ensures noun == "Review" <==> total == 1
    ensures noun == "Reviews" <==> total != 1
  {
    if total == 1 then "Review" else "Reviews"
  }

  /** What the component renders. */
  datatype View =
    | LoadingView
    | ErrorView(message: string)
    | EmptyView
    | ListView(total: nat, noun: string, counts: Counts, active: string, shown: seq<ReviewRecord>)

  /**
   * The render order: loading first, then an error, then the empty list, and
   * only then the list under the active filter.
   */
  function Render(loading: bool, error: string, reviews: seq<ReviewRecord>, filter: string): (v: View)
    ensures v.LoadingView? <==> loading
    ensures v.ErrorView? <==> !loading && error != ""
    ensures v.EmptyView? <==> !loading && error == "" && reviews == []
    ensures v.ErrorView? ==> v.message == error
    ensures v.ListView? ==>
              v.total == |reviews| && v.noun == HeaderNoun(|reviews|) && v.counts == SentimentCounts(reviews)
              && v.active == filter && v.shown == FilteredReviews(reviews, filter)
  {
    if loading then LoadingView
    else if error != "" then ErrorView(error)
    else if |reviews| == 0 then EmptyView
    else ListView(|reviews|, HeaderNoun(|reviews|), SentimentCounts(reviews), filter,
                  FilteredReviews(reviews, filter))
  }

  /** An error hides the list even when reviews from an earlier load are still held. */
  lemma ErrorHidesStaleReviews(error: string, reviews: seq<ReviewRecord>, filter: string)
    requires error != "" && reviews != []
    ensures Render(false, error, reviews, filter) == ErrorView(error)
  {
  }

  /** How GET /api/reviews settles: the response array, or any failure. */
  datatype FetchResponse = Loaded(data: seq<ReviewRecord>) | FetchFailed

  class ReviewList {
    var reviews: seq<ReviewRecord>
    var loading: bool
    var error: string
    var filter: string
    /** The refreshTrigger prop as of the last render. */
    var trigger: int
    /** GET requests sent so far. */
    var gets: nat
    /** GET requests sent and not yet settled; overlapping loads are allowed. */
    var outstanding: nat
    /** Loads started from the Try Again button. */
    ghost var retries: nat

    /** The filter is always one a button selects. */
    ghost predicate Valid()
      reads this
    {
      outstanding <= gets && retries < gets
      && (filter == AllFilter || Analyzer.IsSentimentName(filter))
    }

    function View(): View
      reads this
    {
      Render(loading, error, reviews, filter)
    }

    /** Mounting: the initial state, then the effect's first load. */
    constructor (refreshTrigger: int)
      ensures Valid()
      ensures reviews == [] && loading && error == "" && filter == AllFilter
      ensures trigger == refreshTrigger && gets == 1 && outstanding == 1 && retries == 0
    {
      reviews := [];
      loading := true;
      error := "";
      filter := AllFilter;
      trigger := refreshTrigger;
      gets, outstanding, retries := 0, 0, 0;
      new;
      FetchReviews();
    }

    /** fetchReviews up to the awaited GET: loading on, error off, one request. */
    method FetchReviews()
      requires outstanding <= gets && retries <= gets
      requires filter == AllFilter || Analyzer.IsSentimentName(filter)
      modifies this
      ensures Valid()
      ensures loading && error == ""
      ensures reviews == old(reviews) && filter == old(filter) && trigger == old(trigger)
      ensures gets == old(gets) + 1 && outstanding == old(outstanding) + 1 && retries == old(retries)
    {
      loading := true;
      error := "";
      gets := gets + 1;
      outstanding := outstanding + 1;
    }

    /**
     * fetchReviews after the GET settles: a success replaces the list
     * wholesale, a failure keeps it and sets the error; loading ends either
     * way and the filter is kept.
     */
    method ResolveFetch(response: FetchResponse)
      requires Valid() && outstanding > 0
      modifies this
      ensures Valid() && !loading
      ensures response.Loaded? ==> reviews == response.data && error == old(error)
      ensures response.FetchFailed? ==> reviews == old(reviews) && error == FetchErrorMessage
      ensures filter == old(filter) && trigger == old(trigger)
      ensures gets == old(gets) && outstanding == old(outstanding) - 1 && retries == old(retries)
    {
      match response {
        case Loaded(data) =>
          reviews := data;
        case FetchFailed =>
          error := FetchErrorMessage;
      }
      loading := false;
      outstanding := outstanding - 1;
    }

    /** The effect on refreshTrigger: a changed value starts exactly one load, an unchanged one none. */
    method ObserveTrigger(refreshTrigger: int)
      requires Valid()
      modifies this
      ensures Valid() && trigger == refreshTrigger
      ensures reviews == old(reviews) && filter == old(filter) && retries == old(retries)
      ensures refreshTrigger != old(trigger) ==>
                gets == old(gets) + 1 && outstanding == old(outstanding) + 1 && loading && error == ""
      ensures refreshTrigger == old(trigger) ==>
                gets == old(gets) && outstanding == old(outstanding)
                && loading == old(loading) && error == old(error)
    {
      if refreshTrigger != trigger {
        trigger := refreshTrigger;
        FetchReviews();
      }
    }

    /** The Try Again button, shown only on the error view, runs the same load. */
    method Retry()
      requires Valid() && View().ErrorView?
      modifies this
      ensures Valid() && loading && error == ""
      ensures reviews == old(reviews) && filter == old(filter) && trigger == old(trigger)
      ensures gets == old(gets) + 1 && outstanding == old(outstanding) + 1 && retries == old(retries) + 1
    {
      FetchReviews();
      retries := retries + 1;
    }

    /** A filter button, shown only with the list, selects its filter and nothing else. */
    method SelectFilter(button: FilterButton)
      requires Valid() && View().ListView?
      modifies this
      ensures Valid() && filter == button.Value()
      ensures reviews == old(reviews) && loading == old(loading) && error == old(error)
      ensures trigger == old(trigger) && gets == old(gets) && outstanding == old(outstanding)
      ensures retries == old(retries)
    {
      filter := button.Value();
    }
  }
}
