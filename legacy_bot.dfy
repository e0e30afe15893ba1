/**
 * The older draft of the bot (index.ts). Its handlers check the command
 * with early returns, keep their own registry of plain-string tickers, and
 * turn every failed request into one "Error requesting NOPE" reply; an
 * update cycle never untracks and has no NaN-threshold guard.
 */
module LegacyBot {
  import opened Wrappers
  import opened Nope
  import opened Registry
  import opened Replies
  import opened Commands
  import NopeBot

  const NowUsage: string := "/now GME"
  const TrackUsage: string := "/track GME"
  const UntrackUsage: string := "/untrack GME"

  /** What the engine rejects with when the last element of an empty tick array is destructured. */
  const UndefinedLastTick: string := "TypeError: Cannot destructure property 'nope' of 'last' as it is undefined."

  /**
   * The older `requestNOPE`: the same URL; any rejection passes through with
   * its text, and an empty array fails on destructuring its missing last tick.
   */
  function LegacyRequest(ticker: string, c: Clock, fetch: string -> Attempt<Response>,
                         json: Response -> Attempt<seq<Tick>>): (r: Attempt<Tick>)
  {
    match fetch(RequestUrl(ticker, c))
    case Rejected(e) => Rejected(e)
    case Resolved(response) =>
      match json(response)
      case Rejected(e) => Rejected(e)
      case Resolved(ticks) =>
        if ticks == [] then Rejected(UndefinedLastTick) else Resolved(ticks[|ticks| - 1])
  }

  /**
   * Both drafts fetch the same tick; where the newer one classifies a
   * failure, the older one keeps only a text, which for a transport failure
   * is the same details.
   */
  lemma LegacyRequestAgrees(t: Ticker, c: Clock, fetch: string -> Attempt<Response>,
                            json: Response -> Attempt<seq<Tick>>)
    ensures var modern := RequestNope(t, c, fetch, json);
            var legacy := LegacyRequest(t, c, fetch, json);
            && (modern.Success? <==> legacy.Resolved?)
            && (modern.Success? ==> modern.value == legacy.value)
            && (modern.Failure? && modern.error.HTTPError? ==> legacy == Rejected(modern.error.details))
            && (modern == Failure(EmptyDataError) ==> legacy == Rejected(UndefinedLastTick))
  {
  }

  /**
   * The older update cycle: an alert when a threshold that is a number is
   * reached by |nope|, an error report on any failure, and nothing else.
   */
  function LegacyCycle(ticker: string, threshold: Option<real>, outcome: Attempt<Tick>): (r: Option<Reply>)
    ensures outcome.Rejected? ==> r == Some(LegacyRequestFailed(outcome.reason))
    ensures outcome.Resolved? ==> (r.Some? <==> threshold.Some? && Abs(outcome.value.nope) >= threshold.value)
    ensures outcome.Resolved? && r.Some? ==> r.value == Quote(ticker, outcome.value.nope, outcome.value.price)
  {
    match outcome
    case Rejected(e) => Some(LegacyRequestFailed(e))
    case Resolved(tick) =>
      if threshold.Some? && Abs(tick.nope) >= threshold.value then Some(Quote(ticker, tick.nope, tick.price))
      else None
  }

  /** A NaN threshold is accepted by this draft but never alerts (`x >= NaN` is false). */
  lemma NaNThresholdNeverAlerts(ticker: string, tick: Tick)
    ensures LegacyCycle(ticker, None, Resolved(tick)) == None
  {
  }

  /** On a reading and a numeric threshold the two drafts send the same alert or the same silence. */
  lemma CycleAgreesOnReadings(t: Ticker, threshold: real, tick: Tick)
    ensures LegacyCycle(t, Some(threshold), Resolved(tick)) == NopeBot.Decide(t, threshold, Success(tick)).reply
  {
  }

  class Bot {
    /** `trackingRecords`. */
    var records: seq<TrackRecord<string>>
    /** Where `setInterval` draws its next token from. */
    var nextToken: nat
    /** Tokens passed to `clearInterval`. */
    ghost var cleared: set<nat>
    /** Everything sent with `ctx.reply`, oldest first. */
    var sent: seq<Reply>

    ghost predicate Valid()
      reads this
    {
      UniqueTickers(records) && DistinctTokens(records) && TimersLive(records, nextToken, cleared)
    }

    constructor ()
      ensures Valid()
      ensures records == [] && sent == [] && cleared == {}
    {
      records := [];
      nextToken := 0;
      cleared := {};
      sent := [];
    }

    /** One update cycle; the registry is never touched. */
    method Update(ticker: string, threshold: Option<real>, outcome: Attempt<Tick>)
      modifies this`sent
      ensures sent == old(sent) + Emitted(LegacyCycle(ticker, threshold, outcome))
    {
      var reply := LegacyCycle(ticker, threshold, outcome);
      if reply.Some? {
        sent := sent + [reply.value];
      }
    }

    /** `/now`: one reply, and the registry is not touched. */
    method NowCommand(text: string, outcome: Attempt<Tick>)
      modifies this`sent
      ensures var ticker := CommandArgument(text, "now");
              sent == old(sent) + [if ticker == "/now" then WrongFormat(NowUsage)
                                   else if ticker !in Tickers then NotInList(ticker)
                                   else if outcome.Rejected? then LegacyRequestFailed(outcome.reason)
                                   else Quote(ticker, outcome.value.nope, outcome.value.price)]
    {
      var ticker := CommandArgument(text, "now");
      if ticker == "/now" {
        sent := sent + [WrongFormat(NowUsage)];
        return;
      }
      if ticker !in Tickers {
        sent := sent + [NotInList(ticker)];
        return;
      }
      match outcome
      case Resolved(tick) => sent := sent + [Quote(ticker, tick.nope, tick.price)];
      case Rejected(e) => sent := sent + [LegacyRequestFailed(e)];
    }

    /**
     * `/track`: the bare command, an unlisted ticker and a tracked ticker are
     * rejected with the registry unchanged; otherwise a timer is started, one
     * record appended, the threshold confirmed (NaN included) and the first
     * update cycle run at once.
     */
    method TrackCommand(text: string, number: string -> Option<real>, first: Attempt<Tick>)
      requires Valid()
      modifies this
      ensures Valid()
      ensures var message := CommandArgument(text, "track");
              var words := SplitTrackMessage(message);
              message == "/track" || words.ticker !in Tickers || IsTracked(old(records), words.ticker) ==>
                && records == old(records) && nextToken == old(nextToken) && cleared == old(cleared)
                && sent == old(sent) + [if message == "/track" then WrongFormat(TrackUsage)
                                        else if words.ticker !in Tickers then NotInList(words.ticker)
                                        else AlreadyTracked]
      ensures var message := CommandArgument(text, "track");
              var words := SplitTrackMessage(message);
              var threshold := ParseThreshold(words.threshold, number);
              message != "/track" && words.ticker in Tickers && !IsTracked(old(records), words.ticker) ==>
                && records == old(records) + [TrackRecord(words.ticker, old(nextToken))]
                && nextToken == old(nextToken) + 1 && cleared == old(cleared)
                && sent == old(sent) + [Tracking(words.ticker, threshold)]
                                     + Emitted(LegacyCycle(words.ticker, threshold, first))
    {
      var message := CommandArgument(text, "track");
      if message == "/track" {
        sent := sent + [WrongFormat(TrackUsage)];
        return;
      }
      var words := SplitTrackMessage(message);
      var threshold := ParseThreshold(words.threshold, number);
      if words.ticker !in Tickers {
        sent := sent + [NotInList(words.ticker)];
        return;
      }
      if Find(records, words.ticker).Some? {
        sent := sent + [AlreadyTracked];
        return;
      }
      var token := nextToken;
      nextToken := nextToken + 1;
      var record := TrackRecord(words.ticker, token);
      AppendKeepsUnique(records, record);
      AppendKeepsTimersLive(records, record, token, cleared);
      records := records + [record];
      sent := sent + [Tracking(words.ticker, threshold)];
      Update(words.ticker, threshold, first);
    }

    /**
     * `/untrack`: the bare command, an unlisted ticker and an untracked one
     * are rejected with the registry unchanged; a tracked one loses exactly
     * its record, the others keeping their order, and its timer is cleared.
     */
    method UntrackCommand(text: string)
      requires Valid()
      modifies this`sent, this`records, this`cleared
      ensures Valid()
      ensures var ticker := CommandArgument(text, "untrack");
              ticker == "/untrack" || ticker !in Tickers || !IsTracked(old(records), ticker) ==>
                && records == old(records) && cleared == old(cleared)
                && sent == old(sent) + [if ticker == "/untrack" then WrongFormat(UntrackUsage)
                                        else if ticker !in Tickers then NotInList(ticker)
                                        else NotTracked]
      ensures var ticker := CommandArgument(text, "untrack");
              ticker != "/untrack" && ticker in Tickers && IsTracked(old(records), ticker) ==>
                && (exists i :: 0 <= i < |old(records)| && old(records)[i].ticker == ticker
                               && records == old(records)[..i] + old(records)[i + 1..]
                               && cleared == old(cleared) + {old(records)[i].token})
                && !IsTracked(records, ticker)
                && sent == old(sent) + [Untracked(ticker)]
    {
      var ticker := CommandArgument(text, "untrack");
      if ticker == "/untrack" {
        sent := sent + [WrongFormat(UntrackUsage)];
        return;
      }
      if ticker !in Tickers {
        sent := sent + [NotInList(ticker)];
        return;
      }
      var record := Find(records, ticker);
      if record.None? {
        sent := sent + [NotTracked];
        return;
      }
      var rs := records;
      var i :| 0 <= i < |rs| && rs[i] == record.value && record.value.ticker == ticker;
      var w := Without(rs, ticker);
      assert w == rs[..i] + rs[i + 1..] by {
        WithoutRemovesOne(rs, ticker, i);
      }
      assert UniqueTickers(w) && DistinctTokens(w) && TimersLive(w, nextToken, cleared + {rs[i].token}) by {
        WithoutKeepsUnique(rs, ticker);
        WithoutKeepsDistinct(rs, ticker);
        UntrackKeepsTimersLive(rs, ticker, i, nextToken, cleared);
      }
      assert !IsTracked(w, ticker) by {
        WithoutMembers(rs, ticker);
      }
      records := w;
      cleared := cleared + {record.value.token};
      sent := sent + [Untracked(ticker)];
    }
  }
}
