# NOPE bot: tracking registry and decisions, in Dafny

A Telegram bot polls nopechart.com's daily cache for a stock's NOPE value.
A user can ask for the current value once (`/now GME`), or subscribe with a
threshold (`/track GME 30`) and receive an alert whenever |NOPE| reaches the
threshold. A subscription is cancelled with `/untrack GME`. The repository
holds two drafts of the bot: `src/index.ts` on top of `src/nope.ts`, and an
older, self-contained `index.ts`.

This project models the part with real decisions in it:

- the registry of subscriptions (`trackingRecords`, an ordered list of
  `{ticker, token}`) and how `/track` and `untrack` change it;
- the checks each command runs, in order;
- what an update cycle does with a request's outcome;
- the request itself: the allow-list, the `MM-DD-YYYY` key, the URL, and how
  an outcome is classified into a tick or one of three errors.

Modules:

| module | file | models |
|---|---|---|
| `Wrappers` | wrappers.dfy | fp-ts `Option` and `Either` |
| `Text` | text.dfy | the JavaScript string built-ins the bot uses: `replace` (first occurrence), `trim`, `split`, `String(n)`, `padStart`; `Join` is only the partner `split` is proved against |
| `Nope` | nope.dfy | src/nope.ts |
| `Registry` | registry.dfy | `TrackRecord`, `find`, `filter`, the one-record-per-ticker invariant (both drafts) |
| `Replies` | replies.dfy | every reply text of both drafts except the greetings and "Unexpected error" |
| `Commands` | commands.dfy | argument extraction and `Math.abs(Number(...))` (both drafts) |
| `NopeBot` | nope_bot.dfy | src/index.ts: the command checks as functions, the update decision, and class `Bot` for the mutable state |
| `LegacyBot` | legacy_bot.dfy | index.ts: class `Bot` whose handlers return early, as the source does |

Abstractions:

- **Clock.** The clock is a `Clock` value holding `getMonth()`, `getDate()`,
  `getFullYear()` and `getTime()`.
- **Network.** The network is two functions. `fetch` gives what `fetch(url)`
  settles to for each URL. `json` gives what `response.json()` settles to
  for each response. A rejection carries its `String(...)` text.
- **Parsing and formatting numbers.** `Number(...)` is a caller-supplied
  `number: string -> Option<real>`, where `None` stands for NaN.
  `toFixed(2)` and number printing are caller-supplied formatters in
  `Replies.Render`.
- **Bot state.** A bot's state is a class:
  - `records` is `trackingRecords`;
  - `nextToken` is where `setInterval` draws its handles from;
  - the ghost set `cleared` holds the handles passed to `clearInterval`;
  - `sent` holds every reply, in order.
- **Update cycle.** An update cycle is a method call that receives how its
  request settled.

Behaviour of the code worth knowing:

- **Non-success HTTP status.** node-fetch resolves for any HTTP status, so
  a 404 page becomes `JSONParseError` unless its body parses as JSON.
- **Threshold text.** The threshold message always prints `NaN`, because
  that branch is only reached when the threshold is NaN.
- **Arguments of `/now` and `/untrack`.** These take the whole text after
  the first `"/now "` (or `"/untrack "`), without trimming. So `"/now GME "`
  is "not in the list".

## Model

| member | source | states |
|---|---|---|
| `Nope.ValidateTicker` | src/nope.ts:11-36 | `some` exactly for the 20 listed strings, wrapping the string unchanged |
| `Nope.TickersShape` | src/nope.ts:11-32 | the allow-list has 20 entries, each two to four upper-case letters |
| `Nope.ValidatedTickerShape` | src/nope.ts:34-36 | a validated ticker is two to four upper-case letters (so it contains no blank, `_` or `/`) |
| `Nope.NopeError.Type` | src/nope.ts:59-76 | every error has exactly one of the tags `JSONParseError`, `EmptyDataError`, `HTTPError`; the tag is `HTTPError` exactly for the variant that carries `details` |
| `Nope.DateKey` | src/nope.ts:44-47 | definition; its properties are in `DateKeyFields`, `DateKeyLength`, `DateKeyInjective` and `DateKeyHasNoDot` |
| `Nope.DateKeyFields` | src/nope.ts:44-47 | the date key is 2-character month (1-based), `-`, 2-character day, `-`, then the year |
| `Nope.DateKeyLength` | src/nope.ts:45-47 | for a four-digit year the key is exactly 10 characters |
| `Nope.DateKeyInjective` | src/nope.ts:44-47 | two valid clocks give the same key only on the same calendar day |
| `Nope.DateKeyHasNoDot` | src/nope.ts:44-47 | a date key contains no '.' (so the URL's `.json` suffix is found unambiguously) |
| `Nope.RequestUrl` | src/nope.ts:48 | definition; its property is in `RequestUrlInjective` |
| `Nope.RequestUrlInjective` | src/nope.ts:48 | the URL `https://nopechart.com/cache/<ticker>_<key>.json?=<time>` determines both the ticker and the clock reading |
| `Nope.Get` | src/nope.ts:78-91 | `get` never reports `EmptyDataError`, and reports `HTTPError` exactly when the fetch rejects |
| `Nope.LastTick` | src/nope.ts:53-55 | succeeds exactly for a non-empty array, with its last tick; fails only with `EmptyDataError` |
| `Nope.LastTickIsNewest` | src/nope.ts:53-55 | no ticks gives `EmptyDataError`; otherwise the result is the last tick, and appending newer ticks makes the newest one the result |
| `Nope.RequestNope` | src/nope.ts:43-57 | definition; its properties are in `RequestNopeOutcomes` and `RequestNopeSkipsDecodingOnTransportFailure` |
| `Nope.RequestNopeOutcomes` | src/nope.ts:43-57 | a rejected fetch gives `HTTPError` with the rejection's text; a rejected JSON step gives `JSONParseError`; an empty array gives `EmptyDataError`; otherwise the last tick, each case exactly |
| `Nope.RequestNopeSkipsDecodingOnTransportFailure` | src/nope.ts:78-91 | after a rejected fetch, the JSON step is never consulted |
| `Registry.Find` | src/index.ts:163 | `find` gives `none` exactly when no record has the ticker, else the first record with it |
| `Registry.Without` | src/index.ts:167 | definition (also index.ts:115); its properties are in `WithoutMembers`, `WithoutRemovesOne`, `WithoutAbsent`, `WithoutKeepsUnique` and `WithoutKeepsDistinct` |
| `Registry.WithoutMembers` | src/index.ts:167 | `filter` keeps exactly the records with other tickers: none with the ticker survives, every other one does |
| `Registry.WithoutRemovesOne` | src/index.ts:167 | with unique tickers, filtering removes exactly the one record and keeps all others in their order |
| `Registry.WithoutAbsent` | src/index.ts:162-165 | filtering out an untracked ticker changes nothing |
| `Registry.WithoutKeepsUnique` | src/index.ts:167 | filtering keeps at most one record per ticker |
| `Registry.WithoutKeepsDistinct` | src/index.ts:167 | filtering keeps every record's token its own |
| `Registry.AppendKeepsUnique` | src/index.ts:125 | appending a record for an untracked ticker keeps at most one record per ticker |
| `Registry.FindAppended` | src/index.ts:80-82 | the record just appended is what `find` returns for its ticker |
| `Registry.UntrackKeepsTimersLive` | src/index.ts:167-168 | after removing one record and clearing its token, every remaining record's timer is still running |
| `Text.RemoveFirstAbsent` | src/index.ts:24 | `replace` of a pattern that does not occur returns the text unchanged, so a bare command is recognised |
| `Text.JoinSplit` | src/index.ts:73 | joining the pieces of `split(' ')` gives back the original |
| `Text.SplitJoin` | src/index.ts:73 | pieces without a blank are exactly what `split(' ')` gives for their join |
| `Text.Trim` | src/index.ts:73 | `trim` gives a slice of the text with no whitespace at either end, and only whitespace is cut off |
| `Text.TrimOfTrimmed` | src/index.ts:73 | a text without whitespace at either end is left as it is |
| `Text.NatToStringValue` | src/nope.ts:45-47 | `String(n)` reads back as `n` |
| `Text.IntToStringInjective` | src/nope.ts:47-48 | different integers print differently |
| `Text.Pad2Digits` | src/nope.ts:45-46 | `String(n).padStart(2, '0')` is two digits reading back as `n`, for `n < 100` |
| `Commands.CommandArgument` | src/index.ts:24 | definition of `text.replace('/cmd ', '')` (also lines 67 and 135); its properties are in `CommandArgumentOf` and `BareCommandUnchanged` |
| `Commands.SplitTrackMessage` | src/index.ts:73 | neither word contains a blank; the two shapes are in `SplitTrackMessageOfTwoWords` and `SplitTrackMessageOfOneWord` |
| `Commands.CommandArgumentOf` | src/index.ts:67 | `"/cmd " + arg` yields exactly `arg` |
| `Commands.BareCommandUnchanged` | src/index.ts:24-28 | the bare command text comes back unchanged |
| `Commands.ParseThreshold` | src/index.ts:74 | `Math.abs(Number(word))`: a number exactly when the word exists and parses; never negative |
| `Commands.SplitTrackMessageOfTwoWords` | src/index.ts:73 | `"TICKER N"` splits into the ticker and the threshold word |
| `Commands.SplitTrackMessageOfOneWord` | src/index.ts:73 | a single word leaves the threshold `undefined` |
| `Replies.Render` | src/index.ts:27-150 | definition: every reply text of src/index.ts:27-150 and index.ts:46-118, with `buildMsg` at src/index.ts:173-178; its property is in `FailureTextEndsWithDetails` |
| `Replies.FailureTextEndsWithDetails` | src/index.ts:49 | the transport-error reply ends with the error's details (same for index.ts:146) |
| `NopeBot.CheckNow` | src/index.ts:23-36 | `/now`: the bare command gets the format reply, an unlisted argument "not in the list", otherwise the argument is the ticker |
| `NopeBot.NowReply` | src/index.ts:43-55 | `JSONParseError` and `EmptyDataError` get the same Retry reply; `HTTPError` gets one with its details; a tick gets `buildMsg` |
| `NopeBot.NowOfListedTicker` | src/index.ts:24-36 | `/now T` for a listed T passes the checks with T |
| `NopeBot.BareCommandsRejected` | src/index.ts:26-28 | each bare command (`/now`, `/track`, `/untrack`) gets its own format reply |
| `NopeBot.CheckTrack` | src/index.ts:66-92 | `/track`'s checks in order (bare command, allow-list, already tracked, NaN threshold); the first failure decides the reply; an accepted ticker is untracked and its threshold is not negative |
| `NopeBot.TrackOfWellFormed` | src/index.ts:67-88 | `/track T N` with a free listed T and numeric N is accepted with threshold abs(N) |
| `NopeBot.TrackOfNaNRejected` | src/index.ts:84-88 | `/track T W` with a non-numeric W is refused with the threshold reply |
| `NopeBot.SecondTrackRejected` | src/index.ts:79-83 | once a `/track` has been accepted and its record appended, any `/track` of that ticker is refused, whatever the threshold |
| `NopeBot.TrackKeepsUnique` | src/index.ts:124-125 | an accepted `/track` keeps at most one record per ticker |
| `NopeBot.CheckUntrack` | src/index.ts:134-143 | `/untrack`: the bare command gets the format reply, an unlisted argument "not in the list", otherwise the argument is the ticker |
| `NopeBot.Decide` | src/index.ts:94-122 | the update decision: alert exactly when abs(nope) >= threshold; silence on `JSONParseError`/`EmptyDataError`; on `HTTPError`, one reply with its details and the ticker is untracked |
| `NopeBot.AlertIsMonotone` | src/index.ts:112 | a reading that alerts at a threshold also alerts at every lower one; equality alerts |
| `NopeBot.Bot.Untrack` | src/index.ts:162-171 | with no record for the ticker: `none`, no change. Otherwise: that record is returned and removed, the others keep their order, exactly its token is cleared, and tickers stay unique |
| `NopeBot.Bot.Update` | src/index.ts:94-122 | sends the decided reply (if any); on `HTTPError` it untracks the ticker, otherwise the registry is unchanged |
| `NopeBot.Bot.NowCommand` | src/index.ts:23-64 | one reply, from the checks or the request's outcome; the registry is not touched |
| `NopeBot.Bot.Start` | src/index.ts:93-128 | for a free ticker: one fresh token, one record appended, the confirmation, then the first cycle's reply; if that cycle untracks, the registry is back as it was and exactly the new token is cleared |
| `NopeBot.Bot.TrackCommand` | src/index.ts:66-132 | a rejection sends the first failing check's reply with the registry unchanged. An acceptance starts one timer, appends one record, confirms, then runs the first cycle |
| `NopeBot.Bot.UntrackCommand` | src/index.ts:134-154 | bare or unlisted: that reply. Untracked: "Ticker not tracked", nothing changes. Tracked: the record is removed and its timer cleared, then the confirmation is sent |
| `LegacyBot.LegacyRequest` | index.ts:127-143 | definition; its properties are in `LegacyRequestAgrees` |
| `LegacyBot.LegacyRequestAgrees` | index.ts:127-143 | the older request fetches the same tick as the newer one; a transport failure keeps the same text; empty data fails on the missing last tick |
| `LegacyBot.LegacyCycle` | index.ts:80-89 | the older cycle alerts exactly when abs(nope) >= a numeric threshold, and reports every failure as "Error requesting NOPE" |
| `LegacyBot.NaNThresholdNeverAlerts` | index.ts:70-87 | a NaN threshold is accepted by the older draft but never alerts |
| `LegacyBot.CycleAgreesOnReadings` | index.ts:83-87 | on a reading with a numeric threshold, both drafts alert or stay silent alike |
| `LegacyBot.Bot.Update` | index.ts:80-89 | sends the cycle's reply, if any; the registry is never touched (no auto-untrack) |
| `LegacyBot.Bot.NowCommand` | index.ts:42-60 | bare: the format reply. Unlisted: "not in the list". Otherwise `buildMsg`, or "Error requesting NOPE: ..." on any failure |
| `LegacyBot.Bot.TrackCommand` | index.ts:62-96 | bare, unlisted or tracked: that reply, registry unchanged (there is no NaN check). Otherwise one record appended with a fresh token, the confirmation sent, the first cycle run |
| `LegacyBot.Bot.UntrackCommand` | index.ts:98-119 | bare, unlisted or untracked: that reply, no change. Tracked: exactly its record removed, the others in order, its token cleared, and the confirmation sent |

## Findings

| source | as written | input that shows it | evidently intended | confidence | as-written member | corrected member |
|---|---|---|---|---|---|---|
| index.ts:69-92 | `/track` accepts a threshold that `Number` cannot parse. It stores NaN, confirms "with threshold NaN", and then `abs(nope) >= NaN` is false on every cycle, so no alert is ever sent | `/track GME abc` | refuse a NaN threshold, as the newer draft does at src/index.ts:84-88 | high, not executed | `LegacyBot.NaNThresholdNeverAlerts` | `NopeBot.TrackOfNaNRejected` |

## Left out

- Telegraf wiring is left out, because it is framework plumbing. This
  covers `bot.command`, `bot.hears` (the "hi" greeting), `bot.launch`, the
  signal handlers and `dotenv`. A reply is modelled only as an append to
  `sent`.
- The `Promise`/`TaskEither` machinery and the `.catch` that replies
  "Unexpected error" are left out. The cycles' requests never reject, so
  that branch is reached only if `buildMsg` or `ctx.reply` throws. Such a
  throw is foreign code, and its error text is not modelled.
- `setInterval`'s 30-second period, timer firing and the interleaving of
  in-flight cycles are left out: this is timing and concurrency. So is a
  stale in-flight cycle untracking a later subscription for the same
  ticker. An update cycle is modelled as a call to `Update`.
- `Number(...)`, `toFixed(2)` and number printing are IEEE-754 behaviour.
  They are caller-supplied functions. `Infinity` cannot be expressed as a
  threshold.
- `Text.IntToString` models `String(n)` for integers only. It is exact
  below 10^21, where JavaScript switches to exponent notation.
- `console.log` of the URL is a side effect and is left out.
- The JSON shape is not checked. `json` is assumed to resolve to an array
  of ticks with numeric `nope` and `price`. Any other shape is foreign data
  the source does not check either.
- `LegacyBot.UndefinedLastTick` stands for the JavaScript engine's
  TypeError text for destructuring a missing last tick. Its exact wording
  depends on the engine version.
