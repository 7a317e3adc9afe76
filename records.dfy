/**
 * The shape of a review as it crosses the HTTP boundary: a JSON object whose
 * fields are those produced by the backend's Review.to_dict, and the record
 * the client reads out of it (review.id, review.product_name, ...).
 */
module Records {
  import opened Wrappers

  /** The JSON values a review object can carry. */
  datatype Json = JNull | JInt(i: int) | JReal(r: real) | JString(s: string)

  type JsonObject = map<string, Json>

  /** A review as the client holds it; nullable columns are optional. */
  datatype ReviewRecord = ReviewRecord(
    id: int,
    productName: Option<string>,
    reviewText: string,
    sentiment: string,
    sentimentScore: real,
    keyPoints: Option<string>,
    createdAt: Option<string>)

  /** The seven keys of a serialised review. */
  const ReviewKeys: set<string> :=
    {"id", "product_name", "review_text", "sentiment", "sentiment_score", "key_points", "created_at"}

  /** A nullable string field. */
  function NullableString(v: Option<string>): Json {
    match v
    case None => JNull
    case Some(s) => JString(s)
  }

  /** Reads back a nullable string field; anything but a string or null is malformed. */
  function ReadNullableString(j: Json): Option<Option<string>> {
    match j
    case JNull => Some(None)
    case JString(s) => Some(Some(s))
    case _ => None
  }

  /** The client's reading of a review object: each field by its key. */
  function Decode(o: JsonObject): (r: Option<ReviewRecord>)
    ensures r.Some? ==> ReviewKeys <= o.Keys
    ensures r.Some? ==> o["id"] == JInt(r.value.id) && o["review_text"] == JString(r.value.reviewText)
    ensures r.Some? ==> o["sentiment"] == JString(r.value.sentiment)
  {
    if !(ReviewKeys <= o.Keys) then None
    else if !o["id"].JInt? || !o["review_text"].JString? || !o["sentiment"].JString?
         || !o["sentiment_score"].JReal? then None
    else
      match (ReadNullableString(o["product_name"]), ReadNullableString(o["key_points"]),
             ReadNullableString(o["created_at"]))
      case (Some(name), Some(points), Some(created)) =>
        Some(ReviewRecord(o["id"].i, name, o["review_text"].s, o["sentiment"].s,
                          o["sentiment_score"].r, points, created))
      case _ => None
  }

  /** An object whose seven fields hold a record's values decodes to that record. */
  lemma DecodeFields(o: JsonObject, r: ReviewRecord)
    requires ReviewKeys <= o.Keys
    requires o["id"] == JInt(r.id) && o["product_name"] == NullableString(r.productName)
    requires o["review_text"] == JString(r.reviewText) && o["sentiment"] == JString(r.sentiment)
    requires o["sentiment_score"] == JReal(r.sentimentScore)
    requires o["key_points"] == NullableString(r.keyPoints)
    requires o["created_at"] == NullableString(r.createdAt)
    ensures Decode(o) == Some(r)
  {
    assert ReadNullableString(NullableString(r.productName)) == Some(r.productName);
    assert ReadNullableString(NullableString(r.keyPoints)) == Some(r.keyPoints);
    assert ReadNullableString(NullableString(r.createdAt)) == Some(r.createdAt);
  }
}
