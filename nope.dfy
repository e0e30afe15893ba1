/**
 * The data-source client of src/nope.ts: the ticker allow-list, the
 * request URL built from the ticker and the clock, and the classification
 * of a request's outcome into a tick or one of three errors. The clock and
 * the network are parameters: `fetch` is what `fetch(url)` settles to for a
 * given URL, `json` what `response.json()` settles to for a given response.
 */
module Nope {
  import opened Wrappers
  import opened Text

  /** The allow-list, in the order the source lists it. */
  const Tickers: seq<string> := [
    "AAPL", "AMZN", "ARKK", "BALY", "BB", "BLI", "CLOV", "CRSA", "EEM", "GME",
    "GRWG", "IWM", "MGNI", "NOK", "PLTR", "QQQ", "SPY", "SSPK", "TLRY", "TSLA"
  ]

  /** A validated ticker: only strings on the allow-list inhabit this type. */
  type Ticker = s: string | s in Tickers witness "AAPL"

  /** `validateTicker`: `some` exactly for the listed strings, wrapping the string unchanged. */
  function ValidateTicker(s: string): (r: Option<Ticker>)
    ensures r.Some? <==> s in Tickers
    ensures r.Some? ==> r.value == s
  {
    if s in Tickers then Some(s) else None
  }

  predicate IsUpperLetter(c: char) {
    'A' <= c <= 'Z'
  }

  /** Two to four upper-case letters. */
  predicate IsTickerWord(t: string) {
    2 <= |t| <= 4 && forall k :: 0 <= k < |t| ==> IsUpperLetter(t[k])
  }

  /** Every listed ticker is two to four upper-case letters. */
  lemma TickersShape()
    ensures |Tickers| == 20
    ensures forall i :: 0 <= i < |Tickers| ==> IsTickerWord(Tickers[i])
  {
    forall i | 0 <= i < |Tickers| ensures IsTickerWord(Tickers[i]) {
      var t := Tickers[i];
      assert forall k :: 0 <= k < |t| ==> IsUpperLetter(t[k]);
    }
  }

  /** So validation rejects anything else: lower case, a command word, a string with a blank or '_'. */
  lemma ValidatedTickerShape(s: string)
    requires ValidateTicker(s).Some?
    ensures IsTickerWord(s)
    ensures ' ' !in s && '_' !in s && '/' !in s
  {
    TickersShape();
    var i :| 0 <= i < |Tickers| && Tickers[i] == s;
    assert IsTickerWord(Tickers[i]);
  }

  /** One observation of the data source. */
  datatype Tick = Tick(nope: real, price: real)

  /** `NOPEError`: exactly three kinds, and only `HTTPError` carries details. */
  datatype NopeError = JSONParseError | EmptyDataError | HTTPError(details: string) {
    /** The `type` tag each error class carries. */
    function Type(): (tag: string)
      ensures tag == "JSONParseError" || tag == "EmptyDataError" || tag == "HTTPError"
      ensures tag == "HTTPError" <==> HTTPError?
      ensures tag == "EmptyDataError" <==> EmptyDataError?
    {
      match this
      case JSONParseError => "JSONParseError"
      case EmptyDataError => "EmptyDataError"
      case HTTPError(_) => "HTTPError"
    }
  }

  // ---------------------------------------------------------------------------
  // The request key and URL
  // ---------------------------------------------------------------------------

  /**
   * What the bot reads from `new Date()`: `getMonth()` (0-based), `getDate()`,
   * `getFullYear()` and `getTime()` (milliseconds).
   */
  datatype Clock = Clock(monthIndex: nat, date: nat, fullYear: int, time: int)

  /** The ranges JavaScript's `Date` getters keep to. */
  predicate ValidClock(c: Clock) {
    c.monthIndex < 12 && 1 <= c.date <= 31
  }

  /** The `MM-DD-YYYY` key: 1-based month and day, each padded with '0' to two characters. */
  function DateKey(c: Clock): string {
    Pad2(c.monthIndex + 1) + "-" + Pad2(c.date) + "-" + IntToString(c.fullYear)
  }

  /** Where the pieces of a `MM-DD-...` key sit. */
  lemma KeyLayout(m: string, d: string, y: string)
    requires |m| == 2 && |d| == 2
    ensures var key := m + "-" + d + "-" + y;
            |key| == 6 + |y| && key[..2] == m && key[2] == '-' && key[3..5] == d && key[5] == '-' && key[6..] == y
  {
    var key := m + "-" + d + "-" + y;
    assert key[..2] == m;
    assert key[3..5] == d;
    assert key[6..] == y;
  }

  /**
   * The key's fields sit at fixed places: two characters of month, '-',
   * two of day, '-', then the year (each two-character field reads back
   * as its number, by `Pad2Digits`).
   */
  lemma DateKeyFields(c: Clock)
    requires ValidClock(c)
    ensures |DateKey(c)| > 6 && DateKey(c)[2] == '-' && DateKey(c)[5] == '-'
    ensures DateKey(c)[..2] == Pad2(c.monthIndex + 1) && DateKey(c)[3..5] == Pad2(c.date)
    ensures DateKey(c)[6..] == IntToString(c.fullYear)
  {
    Pad2Digits(c.monthIndex + 1);
    Pad2Digits(c.date);
    KeyLayout(Pad2(c.monthIndex + 1), Pad2(c.date), IntToString(c.fullYear));
  }

  /** For a four-digit year the key is exactly ten characters long. */
  lemma DateKeyLength(c: Clock)
    requires ValidClock(c) && 1000 <= c.fullYear <= 9999
    ensures |DateKey(c)| == 10
  {
    Pad2Digits(c.monthIndex + 1);
    Pad2Digits(c.date);
    NatToStringFourDigits(c.fullYear);
  }

  /** Two valid clocks give the same key only on the same calendar day. */
  lemma DateKeyInjective(c1: Clock, c2: Clock)
    requires ValidClock(c1) && ValidClock(c2)
    requires DateKey(c1) == DateKey(c2)
    ensures c1.monthIndex == c2.monthIndex && c1.date == c2.date && c1.fullYear == c2.fullYear
  {
    DateKeyFields(c1);
    DateKeyFields(c2);
    Pad2Injective(c1.monthIndex + 1, c2.monthIndex + 1);
    Pad2Injective(c1.date, c2.date);
    IntToStringInjective(c1.fullYear, c2.fullYear);
  }

  const CacheBase: string := "https://nopechart.com/cache/"
  const JsonQuery: string := ".json?="

  /** The URL `requestNOPE` fetches: base, ticker, '_', date key, ".json?=", timestamp. */
  function RequestUrl(ticker: string, c: Clock): string
  {
    CacheBase + ticker + "_" + DateKey(c) + JsonQuery + IntToString(c.time)
  }

  /** Splitting at the first occurrence of a character the two heads do not contain. */
  lemma SplitAtFirst(a: string, b: string, a': string, b': string, c: char)
    requires c !in a && c !in a'
    requires a + [c] + b == a' + [c] + b'
    ensures a == a' && b == b'
  {
    var s := a + [c] + b;
    assert forall k :: 0 <= k < |a| ==> s[k] == a[k];
    assert forall k :: 0 <= k < |a'| ==> s[k] == a'[k];
    assert s[|a|] == c && s[|a'|] == c;
    assert |a| <= |a'|;
    assert |a'| <= |a|;
    assert a == s[..|a|] == a';
    assert b == s[|a| + 1..] == b';
  }

  /** A date key never contains '.' (digits and '-' only). */
  lemma DateKeyHasNoDot(c: Clock)
    ensures '.' !in DateKey(c)
  {
    var m, d, y := Pad2(c.monthIndex + 1), Pad2(c.date), IntToString(c.fullYear);
    PrintedHasNoDot(c.fullYear, c.monthIndex + 1);
    PrintedHasNoDot(c.fullYear, c.date);
    assert DateKey(c) == m + "-" + d + "-" + y;
  }

  /** The parts of a URL of this shape are recovered from it, given that the ticker has no '_' and the key no '.'. */
  lemma UrlPartsInjective(t1: string, k1: string, s1: string, t2: string, k2: string, s2: string)
    requires '_' !in t1 && '_' !in t2 && '.' !in k1 && '.' !in k2
    requires CacheBase + t1 + "_" + k1 + JsonQuery + s1 == CacheBase + t2 + "_" + k2 + JsonQuery + s2
    ensures t1 == t2 && k1 == k2 && s1 == s2
  {
    var u1 := CacheBase + t1 + "_" + k1 + JsonQuery + s1;
    var u2 := CacheBase + t2 + "_" + k2 + JsonQuery + s2;
    var rest1, rest2 := k1 + ['.'] + ("json?=" + s1), k2 + ['.'] + ("json?=" + s2);
    assert u1 == CacheBase + (t1 + ['_'] + rest1);
    assert u2 == CacheBase + (t2 + ['_'] + rest2);
    assert u1[|CacheBase|..] == t1 + ['_'] + rest1;
    assert u2[|CacheBase|..] == t2 + ['_'] + rest2;
    SplitAtFirst(t1, rest1, t2, rest2, '_');
    SplitAtFirst(k1, "json?=" + s1, k2, "json?=" + s2, '.');
    assert s1 == ("json?=" + s1)[6..];
    assert s2 == ("json?=" + s2)[6..];
  }

  /** The URL identifies the request: the same URL means the same ticker and the same clock reading. */
  lemma RequestUrlInjective(t1: Ticker, c1: Clock, t2: Ticker, c2: Clock)
    requires ValidClock(c1) && ValidClock(c2)
    requires RequestUrl(t1, c1) == RequestUrl(t2, c2)
    ensures t1 == t2 && c1 == c2
  {
    ValidatedTickerShape(t1);
    ValidatedTickerShape(t2);
    DateKeyHasNoDot(c1);
    DateKeyHasNoDot(c2);
    UrlPartsInjective(t1, DateKey(c1), IntToString(c1.time), t2, DateKey(c2), IntToString(c2.time));
    IntToStringInjective(c1.time, c2.time);
    DateKeyInjective(c1, c2);
  }

  // ---------------------------------------------------------------------------
  // The request and the classification of its outcome
  // ---------------------------------------------------------------------------

  /** How a promise settled: with a value, or rejected with a reason (already passed through `String`). */
  datatype Attempt<T> = Resolved(value: T) | Rejected(reason: string)

  /** A response as node-fetch resolves it (for any HTTP status). */
  datatype Response = Response(status: nat, body: string)

  /**
   * `get`: a rejected fetch is an `HTTPError` carrying the rejection's text;
   * a rejected JSON decoding is a `JSONParseError`.
   */
  function Get(url: string, fetch: string -> Attempt<Response>, json: Response -> Attempt<seq<Tick>>)
    : (r: Result<seq<Tick>, NopeError>)
    ensures r.Failure? ==> !r.error.EmptyDataError?
    ensures r.Failure? && r.error.HTTPError? <==> fetch(url).Rejected?
  {
    match fetch(url)
    case Rejected(e) => Failure(HTTPError(e))
    case Resolved(response) =>
      match json(response)
      case Rejected(_) => Failure(JSONParseError)
      case Resolved(ticks) => Success(ticks)
  }

  /** `TE.fromOption(() => new EmptyDataError())(last(ticks))`. */
  function LastTick(ticks: seq<Tick>): (r: Result<Tick, NopeError>)
    ensures r.Success? <==> ticks != []
    ensures r.Failure? ==> r.error == EmptyDataError
    ensures r.Success? ==> r.value in ticks && r.value == ticks[|ticks| - 1]
  {
    if ticks == [] then Failure(EmptyDataError) else Success(ticks[|ticks| - 1])
  }

  /** The newest observation wins: appending a tick makes it the result, whatever came before. */
  lemma LastTickIsNewest(older: seq<Tick>, newer: seq<Tick>)
    ensures LastTick([]) == Failure(EmptyDataError)
    ensures newer != [] ==> LastTick(older + newer) == LastTick(newer)
    ensures forall t: Tick :: LastTick(older + [t]) == Success(t)
  {
  }

  /** `requestNOPE`: fetch the URL for this ticker and clock, decode it and take the last tick. */
  function RequestNope(t: Ticker, c: Clock, fetch: string -> Attempt<Response>, json: Response -> Attempt<seq<Tick>>)
    : (r: Result<Tick, NopeError>)
  {
    match Get(RequestUrl(t, c), fetch, json)
    case Failure(e) => Failure(e)
    case Success(ticks) => LastTick(ticks)
  }

  /** The complete classification of a request's outcome, each case exactly. */
  lemma RequestNopeOutcomes(t: Ticker, c: Clock, fetch: string -> Attempt<Response>, json: Response -> Attempt<seq<Tick>>)
    ensures var fetched := fetch(RequestUrl(t, c));
            var r := RequestNope(t, c, fetch, json);
            && (fetched.Rejected? <==> r.Failure? && r.error.HTTPError?)
            && (fetched.Rejected? ==> r == Failure(HTTPError(fetched.reason)))
            && (r == Failure(JSONParseError) <==> fetched.Resolved? && json(fetched.value).Rejected?)
            && (r == Failure(EmptyDataError) <==> fetched.Resolved? && json(fetched.value) == Resolved([]))
            && (r.Success? <==> fetched.Resolved? && json(fetched.value).Resolved? && json(fetched.value).value != [])
            && (r.Success? ==> var ticks := json(fetched.value).value; r.value == ticks[|ticks| - 1])
  {
  }

  /** When the fetch is rejected the JSON step is never attempted: the decoder cannot affect the result. */
  lemma RequestNopeSkipsDecodingOnTransportFailure(t: Ticker, c: Clock, fetch: string -> Attempt<Response>,
                                                   json1: Response -> Attempt<seq<Tick>>,
                                                   json2: Response -> Attempt<seq<Tick>>)
    requires fetch(RequestUrl(t, c)).Rejected?
    ensures RequestNope(t, c, fetch, json1) == RequestNope(t, c, fetch, json2)
  {
  }
}
