/**
 * backend/analyzer.py: turning the sentiment classifier's (label, score)
 * into one of three sentiments, turning a Gemini failure into a user message,
 * and composing both into the analysis of one review. The classifier and the
 * Gemini model are outside the model: each is a function parameter.
 */
module Analyzer {
  import opened Records
  import Text

  /** The three values the sentiment column can hold. */
  predicate IsSentimentName(s: string) {
    s == "positive" || s == "negative" || s == "neutral"
  }

  datatype Sentiment = Positive | Negative | Neutral {

    /** The value stored in the sentiment column and sent to the client. */
    function Name(): (s: string)
      ensures IsSentimentName(s)
    {
      match this
      case Positive => "positive"
      case Negative => "negative"
      case Neutral => "neutral"
    }
  }

  /** Below this confidence the classifier's label is not trusted. */
  const ConfidenceThreshold: real := 0.70
  /** The classifier is given at most this many characters of the review. */
  const ClassifierInputLimit: nat := 512
  /** The score reported when the classifier fails. */
  const FallbackScore: real := 0.5

  /** What the classifier returns for a text: its top label and score, or an exception. */
  datatype Classification = Classified(predicted: string, score: real) | ClassifierRaised

  datatype SentimentResult = SentimentResult(sentiment: Sentiment, score: real)

  /**
   * The three-way decision: a low score is neutral whatever the label; a
   * confident 'positive' or 'negative' label (compared in lower case) is taken
   * as it is; any other confident label is neutral.
   */
  function Decide(predicted: string, score: real): (s: Sentiment)
    ensures score < ConfidenceThreshold ==> s == Neutral
    ensures score >= ConfidenceThreshold ==>
              (s == Positive <==> Text.Lower(predicted) == "positive")
              && (s == Negative <==> Text.Lower(predicted) == "negative")
  {
    var lowered := Text.Lower(predicted);
    if score < ConfidenceThreshold then Neutral
    else if lowered == "positive" then Positive
    else if lowered == "negative" then Negative
    else Neutral
  }

  /**
   * analyze_sentiment: classify the first 512 characters; the score is passed
   * on unchanged; a failing classifier gives neutral with score 0.5.
   */
  function AnalyzeSentiment(text: string, classify: string -> Classification): (r: SentimentResult)
    ensures var c := classify(Text.Take(text, ClassifierInputLimit));
      match c
      case ClassifierRaised => r == SentimentResult(Neutral, FallbackScore)
      case Classified(predicted, score) => r.score == score && r.sentiment == Decide(predicted, score)
  {
    match classify(Text.Take(text, ClassifierInputLimit))
    case ClassifierRaised => SentimentResult(Neutral, FallbackScore)
    case Classified(predicted, score) => SentimentResult(Decide(predicted, score), score)
  }

  /** Only the first 512 characters of a review can influence its sentiment. */
  lemma SentimentSeesOnlyPrefix(a: string, b: string, classify: string -> Classification)
    requires a[..if |a| < ClassifierInputLimit then |a| else ClassifierInputLimit]
          == b[..if |b| < ClassifierInputLimit then |b| else ClassifierInputLimit]
    ensures AnalyzeSentiment(a, classify) == AnalyzeSentiment(b, classify)
  {
    assert Text.Take(a, ClassifierInputLimit) == Text.Take(b, ClassifierInputLimit);
  }

  /** The labels the configured model emits, in upper case, are recognised. */
  lemma ModelLabelsRecognised(score: real)
    requires score >= ConfidenceThreshold
    ensures Decide("POSITIVE", score) == Positive
    ensures Decide("NEGATIVE", score) == Negative
  {
    assert Text.Lower("POSITIVE") == "positive";
    assert Text.Lower("NEGATIVE") == "negative";
  }

  // ---------------------------------------------------------------------------
  // Key points

  /** What the Gemini call gives for a review: generated text, or an exception's message. */
  datatype Generation = Generated(text: string) | GeminiRaised(message: string)

  /** The warning sign and space that open every key-point error message. */
  const Warning: string := "\U{26A0}\U{FE0F} "
  const ApiKeyMessage: string :=
    Warning + "Gemini API key not configured." + " Please add GEMINI_API_KEY to .env file."
  const QuotaMessage: string := Warning + "API quota exceeded." + " Please try again later."
  const UnablePrefix: string := Warning + "Unable to extract key points: "

  /**
   * The message shown in place of key points when Gemini fails, chosen by
   * case-insensitive search of the exception text, API_KEY before QUOTA.
   */
  function KeyPointsError(message: string): (r: string)
    ensures Text.Contains(Text.Upper(message), "API_KEY") ==> r == ApiKeyMessage
    ensures (!Text.Contains(Text.Upper(message), "API_KEY") && Text.Contains(Text.Upper(message), "QUOTA"))
              ==> r == QuotaMessage
    ensures (!Text.Contains(Text.Upper(message), "API_KEY") && !Text.Contains(Text.Upper(message), "QUOTA"))
              ==> r == UnablePrefix + message
  {
    var upper := Text.Upper(message);
    if Text.Contains(upper, "API_KEY") then ApiKeyMessage
    else if Text.Contains(upper, "QUOTA") then QuotaMessage
    else UnablePrefix + message
  }

  /** The three outcomes are told apart by the message alone, in both directions. */
  lemma KeyPointsErrorClassifies(message: string)
    ensures KeyPointsError(message) == ApiKeyMessage <==> Text.Contains(Text.Upper(message), "API_KEY")
    ensures KeyPointsError(message) == QuotaMessage
        <==> !Text.Contains(Text.Upper(message), "API_KEY") && Text.Contains(Text.Upper(message), "QUOTA")
  {
    assert ApiKeyMessage[|Warning|] == 'G';
    assert QuotaMessage[|Warning|] == 'A';
    assert (UnablePrefix + message)[|Warning|] == 'U';
  }

  /** Any casing of API_KEY anywhere in the exception text selects the API-key message. */
  lemma KeyPointsErrorIgnoresCase(before: string, key: string, after: string)
    requires Text.Upper(key) == "API_KEY"
    ensures KeyPointsError(before + key + after) == ApiKeyMessage
  {
    Text.UpperAppend(before + key, after);
    Text.UpperAppend(before, key);
    Text.ContainsInfix(Text.Upper(before), "API_KEY", Text.Upper(after));
  }

  /**
   * extract_key_points: the generated text without surrounding whitespace,
   * or the error message; it never fails.
   */
  function ExtractKeyPoints(text: string, generate: string -> Generation): (r: string)
    ensures generate(text).Generated? ==> r == Text.PyStrip(generate(text).text)
    ensures generate(text).Generated? && r != [] ==> !Text.IsPySpace(r[0]) && !Text.IsPySpace(r[|r| - 1])
    ensures generate(text).GeminiRaised? ==> r == KeyPointsError(generate(text).message)
  {
    match generate(text)
    case Generated(response) => Text.PyStrip(response)
    case GeminiRaised(message) => KeyPointsError(message)
  }

  // ---------------------------------------------------------------------------
  // The whole analysis

  const AnalysisKeys: set<string> := {"sentiment", "sentiment_score", "key_points"}

  /**
   * analyze_review: exactly three keys; sentiment and sentiment_score come
   * from the same sentiment analysis, key_points from the key-point extraction.
   */
  function AnalyzeReview(text: string, classify: string -> Classification, generate: string -> Generation)
    : (r: JsonObject)
    ensures r.Keys == AnalysisKeys
    ensures var s := AnalyzeSentiment(text, classify);
      r["sentiment"] == JString(s.sentiment.Name()) && r["sentiment_score"] == JReal(s.score)
    ensures r["key_points"] == JString(ExtractKeyPoints(text, generate))
  {
    var sentimentResult := AnalyzeSentiment(text, classify);
    var keyPoints := ExtractKeyPoints(text, generate);
    map["sentiment" := JString(sentimentResult.sentiment.Name()),
        "sentiment_score" := JReal(sentimentResult.score),
        "key_points" := JString(keyPoints)]
  }

  /**
   * Whatever the classifier does, the analysis names one of the three
   * sentiments, and its score is the classifier's own or the fallback.
   */
  lemma AnalysisSentimentIsKnown(text: string, classify: string -> Classification, generate: string -> Generation)
    ensures var r := AnalyzeReview(text, classify, generate);
      r["sentiment"].JString? && IsSentimentName(r["sentiment"].s)
    ensures var c := classify(Text.Take(text, ClassifierInputLimit));
      AnalyzeReview(text, classify, generate)["sentiment_score"]
        == JReal(if c.Classified? then c.score else FallbackScore)
  {
  }
}
