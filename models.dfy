/**
 * backend/models.py: the DATABASE_URL driver rewrite, the reviews table row
 * (its nullable and non-nullable columns) and Review.to_dict.
 */
module Models {
  import opened Wrappers
  import opened Records
  import Text

  const PostgresScheme: string := "postgresql://"
  const PsycopgScheme: string := "postgresql+psycopg://"

  /**
   * The URL handed to the engine, given the DATABASE_URL environment value:
   * a URL that starts with the plain PostgreSQL scheme has every occurrence of
   * that scheme replaced by the psycopg-3 one; anything else, a missing value
   * included, passes through untouched.
   */
  function EngineUrl(env: Option<string>): (r: Option<string>)
    ensures env.Some? && Text.StartsWith(env.value, PostgresScheme) ==>
              r.Some? && Text.StartsWith(r.value, PsycopgScheme)
              && r.value == PsycopgScheme + Text.ReplaceAll(env.value[|PostgresScheme|..], PostgresScheme, PsycopgScheme)
    ensures !(env.Some? && Text.StartsWith(env.value, PostgresScheme)) ==> r == env
  {
    match env
    case None => None
    case Some(url) =>
      if url != "" && Text.StartsWith(url, PostgresScheme) then
        Text.ReplaceAllFront(PostgresScheme, url[|PostgresScheme|..], PsycopgScheme);
        assert url == PostgresScheme + url[|PostgresScheme|..];
        Some(Text.ReplaceAll(url, PostgresScheme, PsycopgScheme))
      else env
  }

  /** The rewrite is stable: a rewritten URL is not rewritten again. */
  lemma EngineUrlIdempotent(env: Option<string>)
    ensures EngineUrl(EngineUrl(env)) == EngineUrl(env)
  {
    var r := EngineUrl(env);
    if r.Some? && Text.StartsWith(r.value, PsycopgScheme) {
      assert r.value[10] == '+';
    }
  }

  /**
   * str.replace rewrites every occurrence, not only the leading scheme: no
   * "postgresql://" is left anywhere in the rewritten URL.
   */
  lemma EngineUrlReplacesEveryOccurrence(url: string)
    requires Text.StartsWith(url, PostgresScheme)
    ensures var r := EngineUrl(Some(url)); r.Some? && !Text.Contains(r.value, PostgresScheme)
  {
    NewSchemeHasNoOldStart();
    NewSchemeLeadsWithP();
    Text.ReplaceAllLeavesNone(url, PostgresScheme, PsycopgScheme);
  }

  /**
   * Writing the new scheme cannot itself produce the old one: no occurrence
   * of "postgresql://" starts inside "postgresql+psycopg://". The new scheme
   * is taken in three pieces, each with its only 'p' at the front.
   */
  lemma NewSchemeHasNoOldStart()
    ensures Text.NoStartIn(PsycopgScheme, PostgresScheme)
  {
    NewSchemeHead();
    NewSchemeMiddle();
    NewSchemeTail();
    NewSchemePieces();
    NoOldStartInPieces("postgresql+", "psyco", "pg://");
  }

  lemma NewSchemePieces()
    ensures PsycopgScheme == "postgresql+" + ("psyco" + "pg://")
  {
  }

  lemma NoOldStartInPieces(a: string, b: string, c: string)
    requires Text.NoStartIn(a, PostgresScheme) && Text.NoStartIn(b, PostgresScheme) && Text.NoStartIn(c, PostgresScheme)
    ensures Text.NoStartIn(a + (b + c), PostgresScheme)
  {
    Text.NoStartInAppend(b, c, PostgresScheme);
    Text.NoStartInAppend(a, b + c, PostgresScheme);
  }

  lemma NewSchemeHead()
    ensures Text.NoStartIn("postgresql+", PostgresScheme)
  {
    Text.NoStartInOfMismatch("postgresql+", PostgresScheme, 10);
  }

  lemma NewSchemeMiddle()
    ensures Text.NoStartIn("psyco", PostgresScheme)
  {
    Text.NoStartInOfMismatch("psyco", PostgresScheme, 1);
  }

  lemma NewSchemeTail()
    ensures Text.NoStartIn("pg://", PostgresScheme)
  {
    Text.NoStartInOfMismatch("pg://", PostgresScheme, 1);
  }

  /** The new scheme's first character, 'p', does not recur in the old scheme. */
  lemma NewSchemeLeadsWithP()
    ensures PsycopgScheme[0] !in PostgresScheme[1..]
  {
  }

  // ---------------------------------------------------------------------------
  // Timestamps and their ISO 8601 text (datetime.isoformat of a naive datetime)

  type Month = m: int | 1 <= m <= 12 witness 1
  type Day = d: int | 1 <= d <= 31 witness 1
  type Year = y: int | 1 <= y <= 9999 witness 1

  datatype DateTime = DateTime(
    year: Year, month: Month, day: Day,
    hour: int, minute: int, second: int, microsecond: int)

  /** The ranges Python's datetime constructor enforces on the time fields. */
  predicate ValidTime(d: DateTime) {
    0 <= d.hour < 24 && 0 <= d.minute < 60 && 0 <= d.second < 60 && 0 <= d.microsecond < 1000000
  }

  function Pow10(w: nat): (p: nat)
    ensures p >= 1
  {
    if w == 0 then 1 else 10 * Pow10(w - 1)
  }

  function DigitChar(v: int): char
    requires 0 <= v < 10
  {
    ('0' as int + v) as char
  }

  function DigitValue(c: char): int {
    c as int - '0' as int
  }

  /** n written in exactly w decimal digits, zero-padded on the left. */
  function Digits(n: nat, w: nat): (s: string)
    requires n < Pow10(w)
    ensures |s| == w
    ensures forall k :: 0 <= k < w ==> '0' <= s[k] <= '9'
  {
    if w == 0 then "" else Digits(n / 10, w - 1) + [DigitChar(n % 10)]
  }

  /** The number a string of decimal digits denotes. */
  function ParseDigits(s: string): int {
    if s == [] then 0 else 10 * ParseDigits(s[..|s| - 1]) + DigitValue(s[|s| - 1])
  }

  lemma {:induction false} ParseDigitsOfDigits(n: nat, w: nat)
    requires n < Pow10(w)
    ensures ParseDigits(Digits(n, w)) == n
  {
    if w > 0 {
      var s := Digits(n, w);
      assert s[..|s| - 1] == Digits(n / 10, w - 1);
      ParseDigitsOfDigits(n / 10, w - 1);
    }
  }

  /** 'YYYY-MM-DD'. */
  function IsoDate(d: DateTime): (s: string)
    ensures |s| == 10 && s[4] == '-' && s[7] == '-'
    ensures s[0..4] == Digits(d.year, 4) && s[5..7] == Digits(d.month, 2) && s[8..10] == Digits(d.day, 2)
  {
    Digits(d.year, 4) + "-" + Digits(d.month, 2) + "-" + Digits(d.day, 2)
  }

  /** 'HH:MM:SS'. */
  function IsoClock(d: DateTime): (s: string)
    requires ValidTime(d)
    ensures |s| == 8 && s[2] == ':' && s[5] == ':'
    ensures s[0..2] == Digits(d.hour, 2) && s[3..5] == Digits(d.minute, 2) && s[6..8] == Digits(d.second, 2)
  {
    Digits(d.hour, 2) + ":" + Digits(d.minute, 2) + ":" + Digits(d.second, 2)
  }

  /** 'YYYY-MM-DDTHH:MM:SS', followed by '.ffffff' only when there are microseconds. */
  function IsoFormat(d: DateTime): (s: string)
    requires ValidTime(d)
    ensures |s| == if d.microsecond == 0 then 19 else 26
    ensures s[4] == '-' && s[7] == '-' && s[10] == 'T' && s[13] == ':' && s[16] == ':'
    ensures d.microsecond != 0 ==> s[19] == '.'
  {
    IsoDate(d) + "T" + IsoClock(d) + (if d.microsecond == 0 then "" else "." + Digits(d.microsecond, 6))
  }

  /** Reads an ISO timestamp of the two shapes IsoFormat writes. */
  function ParseIso(s: string): Option<DateTime> {
    if |s| != 19 && |s| != 26 then None
    else
      var year := ParseDigits(s[0..4]);
      var month := ParseDigits(s[5..7]);
      var day := ParseDigits(s[8..10]);
      var micro := if |s| == 26 then ParseDigits(s[20..26]) else 0;
      if 1 <= year <= 9999 && 1 <= month <= 12 && 1 <= day <= 31 then
        Some(DateTime(year, month, day, ParseDigits(s[11..13]), ParseDigits(s[14..16]),
                      ParseDigits(s[17..19]), micro))
      else None
  }

  /** Where each field's digits sit in the text IsoFormat writes. */
  lemma IsoFormatFields(d: DateTime)
    requires ValidTime(d)
    ensures var s := IsoFormat(d);
            s[0..4] == Digits(d.year, 4) && s[5..7] == Digits(d.month, 2) && s[8..10] == Digits(d.day, 2)
            && s[11..13] == Digits(d.hour, 2) && s[14..16] == Digits(d.minute, 2)
            && s[17..19] == Digits(d.second, 2)
            && (d.microsecond != 0 ==> s[20..26] == Digits(d.microsecond, 6))
  {
    var s := IsoFormat(d);
    var date, clock := IsoDate(d), IsoClock(d);
    var frac := if d.microsecond == 0 then "" else "." + Digits(d.microsecond, 6);
    assert s[..10] == date && s[11..19] == clock && s[19..] == frac;
    assert s[0..4] == date[0..4] && s[5..7] == date[5..7] && s[8..10] == date[8..10];
    assert s[11..13] == clock[0..2] && s[14..16] == clock[3..5] && s[17..19] == clock[6..8];
    if d.microsecond != 0 {
      assert s[20..26] == frac[1..7];
    }
  }

  /** ParseIso reads back any text whose fields hold the digits of d. */
  lemma ParseIsoOfFields(s: string, d: DateTime)
    requires ValidTime(d) && |s| == (if d.microsecond == 0 then 19 else 26)
    requires ParseDigits(s[0..4]) == d.year && ParseDigits(s[5..7]) == d.month
    requires ParseDigits(s[8..10]) == d.day && ParseDigits(s[11..13]) == d.hour
    requires ParseDigits(s[14..16]) == d.minute && ParseDigits(s[17..19]) == d.second
    requires d.microsecond != 0 ==> ParseDigits(s[20..26]) == d.microsecond
    ensures ParseIso(s) == Some(d)
  {
  }

  /** A field written by Digits is read back by ParseDigits. */
  lemma ParseField(s: string, i: nat, j: nat, n: nat, w: nat)
    requires i <= j <= |s| && n < Pow10(w) && s[i..j] == Digits(n, w)
    ensures ParseDigits(s[i..j]) == n
  {
    ParseDigitsOfDigits(n, w);
  }

  /** isoformat loses nothing: the timestamp can be read back from its text. */
  lemma IsoFormatRoundTrip(d: DateTime)
    requires ValidTime(d)
    ensures ParseIso(IsoFormat(d)) == Some(d)
  {
    IsoFormatFields(d);
    var s := IsoFormat(d);
    ParseField(s, 0, 4, d.year, 4);
    ParseField(s, 5, 7, d.month, 2);
    ParseField(s, 8, 10, d.day, 2);
    ParseField(s, 11, 13, d.hour, 2);
    ParseField(s, 14, 16, d.minute, 2);
    ParseField(s, 17, 19, d.second, 2);
    if d.microsecond != 0 {
      ParseField(s, 20, 26, d.microsecond, 6);
    }
    ParseIsoOfFields(s, d);
  }

  // ---------------------------------------------------------------------------
  // The reviews table

  /**
   * One row of `reviews`. review_text, sentiment and sentiment_score are
   * NOT NULL columns and so are plain values; product_name and key_points are
   * nullable; created_at has a default but is absent on an object not yet flushed.
   */
  datatype ReviewRow = ReviewRow(
    id: int,
    productName: Option<string>,
    reviewText: string,
    sentiment: string,
    sentimentScore: real,
    keyPoints: Option<string>,
    createdAt: Option<DateTime>)

  predicate ValidRow(row: ReviewRow) {
    row.createdAt.Some? ==> ValidTime(row.createdAt.value)
  }

  /** The timestamp as the client receives it. */
  function CreatedAtText(t: Option<DateTime>): (r: Option<string>)
    requires t.Some? ==> ValidTime(t.value)
    ensures r.None? <==> t.None?
    ensures r.Some? ==> ParseIso(r.value) == t
  {
    match t
    case None => None
    case Some(d) => IsoFormatRoundTrip(d); Some(IsoFormat(d))
  }

  /**
   * Review.to_dict: exactly the seven fields, created_at as its ISO text or
   * null, every other field copied as stored.
   */
  function ToDict(row: ReviewRow): (d: JsonObject)
    requires ValidRow(row)
    ensures d.Keys == ReviewKeys
    ensures d["created_at"] == NullableString(CreatedAtText(row.createdAt))
    ensures row.createdAt.None? <==> d["created_at"] == JNull
  {
    map[
      "id" := JInt(row.id),
      "product_name" := NullableString(row.productName),
      "review_text" := JString(row.reviewText),
      "sentiment" := JString(row.sentiment),
      "sentiment_score" := JReal(row.sentimentScore),
      "key_points" := NullableString(row.keyPoints),
      "created_at" := NullableString(CreatedAtText(row.createdAt))]
  }

  /**
   * What the client reads from a serialised row is the row itself: every
   * field verbatim, nulls preserved, and the timestamp as its ISO text.
   */
  lemma DecodeToDict(row: ReviewRow)
    requires ValidRow(row)
    ensures Decode(ToDict(row)) == Some(ReviewRecord(
      row.id, row.productName, row.reviewText, row.sentiment, row.sentimentScore,
      row.keyPoints, CreatedAtText(row.createdAt)))
  {
    var d := ToDict(row);
    var r := ReviewRecord(row.id, row.productName, row.reviewText, row.sentiment, row.sentimentScore,
                          row.keyPoints, CreatedAtText(row.createdAt));
    assert d["id"] == JInt(row.id);
    assert d["product_name"] == NullableString(row.productName);
    assert d["review_text"] == JString(row.reviewText);
    assert d["sentiment"] == JString(row.sentiment);
    assert d["sentiment_score"] == JReal(row.sentimentScore);
    assert d["key_points"] == NullableString(row.keyPoints);
    DecodeFields(d, r);
  }
}
