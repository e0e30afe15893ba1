/**
 * How both drafts take a command's text apart: `text.replace('/cmd ', '')`
 * for the argument, `message.trim().split(' ')` for `/track`'s two words,
 * and `Math.abs(Number(word))` for the threshold. `Number` is IEEE-754
 * parsing and is supplied by the caller as `number`, which answers `None`
 * where JavaScript answers NaN.
 */
module Commands {
  import opened Wrappers
  import opened Text

  /** `text.replace('/' + command + ' ', '')`. */
  function CommandArgument(text: string, command: string): string {
    RemoveFirst(text, "/" + command + " ")
  }

  /** The bare command text has no argument and comes back unchanged, so the handlers can recognise it. */
  lemma BareCommandUnchanged(command: string)
    ensures CommandArgument("/" + command, command) == "/" + command
  {
  }

  /** A command followed by a blank and an argument yields exactly the argument. */
  lemma CommandArgumentOf(command: string, arg: string)
    ensures CommandArgument("/" + command + " " + arg, command) == arg
  {
    RemoveFirstOfPrefixed("/" + command + " ", arg);
  }

  /** `const [ticker, thresholdAbs] = message.trim().split(' ')`; an absent second word is `undefined`. */
  datatype TrackWords = TrackWords(ticker: string, threshold: Option<string>)

  function SplitTrackMessage(message: string): (w: TrackWords)
    ensures ' ' !in w.ticker && (w.threshold.Some? ==> ' ' !in w.threshold.value)
  {
    var parts := Split(Trim(message), ' ');
    TrackWords(parts[0], if |parts| >= 2 then Some(parts[1]) else None)
  }

  /** `Math.abs`. */
  function Abs(x: real): (r: real)
    ensures r >= 0.0 && (r == x || r == -x)
  {
    if x < 0.0 then -x else x
  }

  /** `Math.abs(Number(word))`, with `Number(undefined)` being NaN. */
  function ParseThreshold(word: Option<string>, number: string -> Option<real>): (r: Option<real>)
    ensures r.Some? <==> word.Some? && number(word.value).Some?
    ensures r.Some? ==> r.value >= 0.0 && (r.value == number(word.value).value || r.value == -number(word.value).value)
  {
    match word
    case None => None
    case Some(w) =>
      match number(w)
      case None => None
      case Some(x) => Some(Abs(x))
  }

  /** A word free of blanks that neither starts nor ends with whitespace. */
  predicate IsPlainWord(w: string) {
    w != [] && ' ' !in w && !IsWhitespace(w[0]) && !IsWhitespace(w[|w| - 1])
  }

  /** `/track`'s message in its documented shape, ticker and threshold separated by one blank, splits as intended. */
  lemma SplitTrackMessageOfTwoWords(ticker: string, threshold: string)
    requires IsPlainWord(ticker) && IsPlainWord(threshold)
    ensures SplitTrackMessage(ticker + " " + threshold) == TrackWords(ticker, Some(threshold))
  {
    var m := ticker + " " + threshold;
    assert m[0] == ticker[0] && m[|m| - 1] == threshold[|threshold| - 1];
    TrimOfTrimmed(m);
    var parts := [ticker, threshold];
    assert Join(parts, ' ') == m by {
      assert parts[1..] == [threshold];
    }
    forall i | 0 <= i < |parts| ensures ' ' !in parts[i] { }
    SplitJoin(parts, ' ');
    assert Split(Trim(m), ' ') == parts;
  }

  /** A message of one plain word has no threshold word: its threshold is `undefined`. */
  lemma SplitTrackMessageOfOneWord(ticker: string)
    requires IsPlainWord(ticker)
    ensures SplitTrackMessage(ticker) == TrackWords(ticker, None)
  {
    TrimOfTrimmed(ticker);
    assert Join([ticker], ' ') == ticker;
    SplitJoin([ticker], ' ');
  }
}
