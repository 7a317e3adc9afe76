/**
 * The sentiment colour and icon, defined identically in ReviewForm and
 * ReviewList: a switch on the sentiment string with a grey, neutral-face
 * default for every value other than 'positive' and 'negative'.
 */
module SentimentDisplay {
  import Analyzer

  const PositiveColor: string := "#10b981"
  const NegativeColor: string := "#ef4444"
  const DefaultColor: string := "#6b7280"

  const PositiveIcon: string := "\U{1F60A}"
  const NegativeIcon: string := "\U{1F61E}"
  const DefaultIcon: string := "\U{1F610}"

  /** getSentimentColor: total over all strings, each colour with exactly its preimage. */
  function SentimentColor(sentiment: string): (c: string)
    ensures c == PositiveColor <==> sentiment == "positive"
    ensures c == NegativeColor <==> sentiment == "negative"
    ensures c == DefaultColor <==> sentiment != "positive" && sentiment != "negative"
  {
    if sentiment == "positive" then PositiveColor
    else if sentiment == "negative" then NegativeColor
    else DefaultColor
  }

  /** getSentimentIcon: total over all strings, each icon with exactly its preimage. */
  function SentimentIcon(sentiment: string): (i: string)
    ensures i == PositiveIcon <==> sentiment == "positive"
    ensures i == NegativeIcon <==> sentiment == "negative"
    ensures i == DefaultIcon <==> sentiment != "positive" && sentiment != "negative"
  {
    if sentiment == "positive" then PositiveIcon
    else if sentiment == "negative" then NegativeIcon
    else DefaultIcon
  }

  /** Colour and icon always fall into the same case. */
  lemma ColorAndIconAgree(sentiment: string)
    ensures SentimentColor(sentiment) == PositiveColor <==> SentimentIcon(sentiment) == PositiveIcon
    ensures SentimentColor(sentiment) == NegativeColor <==> SentimentIcon(sentiment) == NegativeIcon
    ensures SentimentColor(sentiment) == DefaultColor <==> SentimentIcon(sentiment) == DefaultIcon
  {
  }

  /**
   * The three sentiments the backend produces get three different colours and
   * icons; neutral is displayed by the default case.
   */
  lemma BackendSentimentsDistinguished(a: Analyzer.Sentiment, b: Analyzer.Sentiment)
    ensures a != b ==> SentimentColor(a.Name()) != SentimentColor(b.Name())
    ensures a != b ==> SentimentIcon(a.Name()) != SentimentIcon(b.Name())
    ensures SentimentColor(Analyzer.Sentiment.Neutral.Name()) == DefaultColor
  {
  }
}
