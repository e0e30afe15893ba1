/**
 * Everything the bot sends with `ctx.reply`, in both drafts, as values;
 * `Render` gives the text. The two number formats the texts use,
 * `Number.prototype.toFixed(2)` and the default number-to-string
 * conversion, are IEEE-754 specific and are supplied by the caller.
 */
module Replies {
  import opened Wrappers

  datatype Reply =
    | WrongFormat(usage: string)                        // bare command
    | NotInList(word: string)                           // not on the allow-list
    | AlreadyTracked
    | InvalidThreshold                                  // the threshold parsed to NaN
    | NotTracked
    | Untracked(ticker: string)
    | Tracking(ticker: string, threshold: Option<real>) // None prints as NaN
    | Quote(ticker: string, nope: real, price: real)    // buildMsg
    | RetryNow                                          // transient error on /now
    | RequestFailed(details: string)                    // HTTPError, newer draft
    | LegacyRequestFailed(error: string)                // any failure, older draft

  function Render(r: Reply, toFixed2: real -> string, show: real -> string): string {
    match r
    case WrongFormat(usage) => "Wrong command format. Correct format is '" + usage + "'"
    case NotInList(word) => "Ticker " + word + " not in the list"
    case AlreadyTracked => "Ticker already being tracked"
    case InvalidThreshold => "Invalid threshold NaN. Correct format is '/track GME 30'"
    case NotTracked => "Ticker not tracked"
    case Untracked(ticker) => ticker + " untracked"
    case Tracking(ticker, threshold) =>
      "Tracking ticker " + ticker + " with threshold "
      + (match threshold case Some(x) => show(x) case None => "NaN")
    case Quote(ticker, nope, price) =>
      ticker + " NOPE: " + toFixed2(nope) + ", price: " + toFixed2(price)
    case RetryNow => "Error requesting the NOPE now. Retry."
    case RequestFailed(details) => "Error requesting the NOPE: " + details
    case LegacyRequestFailed(error) => "Error requesting NOPE: " + error
  }

  /** An optional reply as the list of what is sent: one reply or none. */
  function Emitted(reply: Option<Reply>): seq<Reply> {
    match reply
    case Some(r) => [r]
    case None => []
  }

  /** The transport error's details are the tail of the message that reports it, in both drafts. */
  lemma FailureTextEndsWithDetails(d: string, toFixed2: real -> string, show: real -> string)
    ensures var m := Render(RequestFailed(d), toFixed2, show); |m| >= |d| && m[|m| - |d|..] == d
    ensures var m := Render(LegacyRequestFailed(d), toFixed2, show); |m| >= |d| && m[|m| - |d|..] == d
  {
  }
}
