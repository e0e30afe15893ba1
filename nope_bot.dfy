/**
 * The newer draft of the bot (src/index.ts): the checks of `/now`, `/track`
 * and `/untrack`, the decision each update cycle takes on a request's
 * outcome, and the registry of tracked tickers that `/track` appends to and
 * `untrack` filters. Replies are appended to `sent`; a timer is a token
 * drawn from `nextToken` (`setInterval`) and clearing it (`clearInterval`)
 * adds it to the ghost set `cleared`.
 */
module NopeBot {
  import opened Wrappers
  import opened Nope
  import opened Registry
  import opened Replies
  import opened Commands

  const NowUsage: string := "/now GME"
  const TrackUsage: string := "/track GME 30"
  const UntrackUsage: string := "/untrack GME"

  // ---------------------------------------------------------------------------
  // /now
  // ---------------------------------------------------------------------------

  /** `/now`'s checks: the bare command, then the allow-list. */
  function CheckNow(text: string): (r: Result<Ticker, Reply>)
    ensures var arg := CommandArgument(text, "now");
            && (r == Failure(WrongFormat(NowUsage)) <==> arg == "/now")
            && (r == Failure(NotInList(arg)) <==> arg != "/now" && arg !in Tickers)
            && (r.Success? <==> arg != "/now" && arg in Tickers)
            && (r.Success? ==> r.value == arg)
  {
    var arg := CommandArgument(text, "now");
    if arg == "/now" then Failure(WrongFormat(NowUsage))
    else
      match ValidateTicker(arg)
      case None => Failure(NotInList(arg))
      case Some(t) => Success(t)
  }

  /** What `/now` answers once the request has settled. */
  function NowReply(t: Ticker, outcome: Result<Tick, NopeError>): (r: Reply)
    ensures r == RetryNow <==> outcome == Failure(JSONParseError) || outcome == Failure(EmptyDataError)
    ensures outcome.Failure? && outcome.error.HTTPError? ==> r == RequestFailed(outcome.error.details)
    ensures outcome.Success? ==> r == Quote(t, outcome.value.nope, outcome.value.price)
  {
    match outcome
    case Failure(JSONParseError) => RetryNow
    case Failure(EmptyDataError) => RetryNow
    case Failure(HTTPError(details)) => RequestFailed(details)
    case Success(tick) => Quote(t, tick.nope, tick.price)
  }

  /** `/now` with a listed ticker passes the checks with that very ticker. */
  lemma NowOfListedTicker(t: Ticker)
    ensures CheckNow("/now " + t) == Success(t)
  {
    CommandArgumentOf("now", t);
  }

  /** The three bare commands get their format messages. */
  lemma BareCommandsRejected(records: seq<TrackRecord<Ticker>>, number: string -> Option<real>)
    ensures CheckNow("/now") == Failure(WrongFormat(NowUsage))
    ensures CheckTrack("/track", records, number) == Failure(WrongFormat(TrackUsage))
    ensures CheckUntrack("/untrack") == Failure(WrongFormat(UntrackUsage))
  {
    BareCommandUnchanged("now");
    BareCommandUnchanged("track");
    BareCommandUnchanged("untrack");
  }

  // ---------------------------------------------------------------------------
  // /track
  // ---------------------------------------------------------------------------

  /** A validated `/track`: the ticker and `Math.abs` of the parsed threshold. */
  datatype TrackRequest = TrackRequest(ticker: Ticker, threshold: real)

  /**
   * `/track`'s chain, the first failing check deciding the reply: the bare
   * command, then the allow-list, then an existing record, then a NaN threshold.
   */
  function CheckTrack(text: string, records: seq<TrackRecord<Ticker>>, number: string -> Option<real>)
    : (r: Result<TrackRequest, Reply>)
    ensures var message := CommandArgument(text, "track");
            var words := SplitTrackMessage(message);
            var threshold := ParseThreshold(words.threshold, number);
            && (r == Failure(WrongFormat(TrackUsage)) <==> message == "/track")
            && (r == Failure(NotInList(words.ticker)) <==> message != "/track" && words.ticker !in Tickers)
            && (r == Failure(AlreadyTracked) <==>
                  message != "/track" && words.ticker in Tickers && IsTracked(records, words.ticker))
            && (r == Failure(InvalidThreshold) <==>
                  message != "/track" && words.ticker in Tickers && !IsTracked(records, words.ticker)
                  && threshold.None?)
            && (r.Success? ==> r.value.ticker == words.ticker && threshold == Some(r.value.threshold))
    ensures var message := CommandArgument(text, "track");
            var words := SplitTrackMessage(message);
            (&& message != "/track" && words.ticker in Tickers && !IsTracked(records, words.ticker)
             && ParseThreshold(words.threshold, number).Some?) ==> r.Success?
    ensures r.Success? ==> !IsTracked(records, r.value.ticker) && r.value.threshold >= 0.0
  {
    var message := CommandArgument(text, "track");
    if message == "/track" then Failure(WrongFormat(TrackUsage))
    else
      var words := SplitTrackMessage(message);
      var threshold := ParseThreshold(words.threshold, number);
      match ValidateTicker(words.ticker)
      case None => Failure(NotInList(words.ticker))
      case Some(t) =>
        if Find(records, t).Some? then Failure(AlreadyTracked)
        else if threshold.None? then Failure(InvalidThreshold)
        else Success(TrackRequest(t, threshold.value))
  }

  /** Once the message is past the bare-command check and splits into a free listed ticker, only the threshold decides. */
  lemma CheckTrackOfFreeTicker(text: string, t: Ticker, word: Option<string>, records: seq<TrackRecord<Ticker>>,
                               number: string -> Option<real>)
    requires CommandArgument(text, "track") != "/track"
    requires SplitTrackMessage(CommandArgument(text, "track")) == TrackWords(t, word)
    requires !IsTracked(records, t)
    ensures var threshold := ParseThreshold(word, number);
            CheckTrack(text, records, number)
              == if threshold.Some? then Success(TrackRequest(t, threshold.value)) else Failure(InvalidThreshold)
  {
  }

  /** The text `/track t w` for a listed ticker and a plain word passes the bare-command check and splits into `t` and `w`. */
  lemma TrackTextOf(t: Ticker, w: string)
    requires IsPlainWord(w)
    ensures CommandArgument("/track " + t + " " + w, "track") != "/track"
    ensures SplitTrackMessage(CommandArgument("/track " + t + " " + w, "track")) == TrackWords(t, Some(w))
  {
    var text := "/track " + t + " " + w;
    var message := CommandArgument(text, "track");
    assert message == t + " " + w by {
      assert text == "/track " + (t + " " + w);
      CommandArgumentOf("track", t + " " + w);
    }
    TickerIsPlainWord(t);
    assert message != "/track" by {
      assert message[0] == t[0] && t[0] != '/';
    }
    assert SplitTrackMessage(message) == TrackWords(t, Some(w)) by {
      SplitTrackMessageOfTwoWords(t, w);
    }
  }

  /** `/track TICKER N` in its documented shape is accepted with threshold |N| when the ticker is free. */
  lemma TrackOfWellFormed(t: Ticker, n: string, x: real, records: seq<TrackRecord<Ticker>>,
                          number: string -> Option<real>)
    requires IsPlainWord(n) && number(n) == Some(x)
    requires !IsTracked(records, t)
    ensures CheckTrack("/track " + t + " " + n, records, number) == Success(TrackRequest(t, Abs(x)))
  {
    TrackTextOf(t, n);
    CheckTrackOfFreeTicker("/track " + t + " " + n, t, Some(n), records, number);
  }

  /** `/track TICKER W` with a W that is not a number is refused while the ticker is free. */
  lemma TrackOfNaNRejected(t: Ticker, w: string, records: seq<TrackRecord<Ticker>>, number: string -> Option<real>)
    requires IsPlainWord(w) && number(w) == None
    requires !IsTracked(records, t)
    ensures CheckTrack("/track " + t + " " + w, records, number) == Failure(InvalidThreshold)
  {
    TrackTextOf(t, w);
    CheckTrackOfFreeTicker("/track " + t + " " + w, t, Some(w), records, number);
  }

  lemma TickerIsPlainWord(t: Ticker)
    ensures IsPlainWord(t)
  {
    ValidatedTickerShape(t);
  }

  /** Once a ticker is tracked, any further `/track` of it is rejected, whatever its threshold. */
  lemma SecondTrackRejected(first: string, second: string, records: seq<TrackRecord<Ticker>>,
                            number1: string -> Option<real>, number2: string -> Option<real>, token: nat)
    requires CheckTrack(first, records, number1).Success?
    requires CommandArgument(second, "track") != "/track"
    requires SplitTrackMessage(CommandArgument(second, "track")).ticker == CheckTrack(first, records, number1).value.ticker
    ensures var t := CheckTrack(first, records, number1).value.ticker;
            CheckTrack(second, records + [TrackRecord(t, token)], number2) == Failure(AlreadyTracked)
  {
    var t := CheckTrack(first, records, number1).value.ticker;
    FindAppended(records, TrackRecord(t, token));
  }

  /** A successful `/track` appends one record and so keeps at most one record per ticker. */
  lemma TrackKeepsUnique(text: string, records: seq<TrackRecord<Ticker>>, number: string -> Option<real>, token: nat)
    requires UniqueTickers(records)
    requires CheckTrack(text, records, number).Success?
    ensures UniqueTickers(records + [TrackRecord(CheckTrack(text, records, number).value.ticker, token)])
  {
    AppendKeepsUnique(records, TrackRecord(CheckTrack(text, records, number).value.ticker, token));
  }

  // ---------------------------------------------------------------------------
  // /untrack
  // ---------------------------------------------------------------------------

  /** `/untrack`'s checks before the registry is consulted: the bare command, then the allow-list. */
  function CheckUntrack(text: string): (r: Result<Ticker, Reply>)
    ensures var arg := CommandArgument(text, "untrack");
            && (r == Failure(WrongFormat(UntrackUsage)) <==> arg == "/untrack")
            && (r == Failure(NotInList(arg)) <==> arg != "/untrack" && arg !in Tickers)
            && (r.Success? <==> arg != "/untrack" && arg in Tickers)
            && (r.Success? ==> r.value == arg)
  {
    var arg := CommandArgument(text, "untrack");
    if arg == "/untrack" then Failure(WrongFormat(UntrackUsage))
    else
      match ValidateTicker(arg)
      case None => Failure(NotInList(arg))
      case Some(t) => Success(t)
  }

  // ---------------------------------------------------------------------------
  // The update cycle
  // ---------------------------------------------------------------------------

  /** What one update cycle does: the reply it sends, if any, and whether it untracks the ticker. */
  datatype Cycle = Cycle(reply: Option<Reply>, untrack: bool)

  /**
   * The update cycle's decision: an alert when |nope| reaches the threshold,
   * silence on a parse error or empty data, a report and untracking on an
   * HTTP error.
   */
  function Decide(t: Ticker, threshold: real, outcome: Result<Tick, NopeError>): (c: Cycle)
    ensures c.untrack <==> outcome.Failure? && outcome.error.HTTPError?
    ensures c.untrack ==> c.reply == Some(RequestFailed(outcome.error.details))
    ensures outcome.Failure? && !outcome.error.HTTPError? ==> c.reply == None
    ensures outcome.Success? ==> (c.reply.Some? <==> Abs(outcome.value.nope) >= threshold)
    ensures outcome.Success? && c.reply.Some? ==> c.reply.value == Quote(t, outcome.value.nope, outcome.value.price)
  {
    match outcome
    case Failure(JSONParseError) => Cycle(None, false)
    case Failure(EmptyDataError) => Cycle(None, false)
    case Failure(HTTPError(details)) => Cycle(Some(RequestFailed(details)), true)
    case Success(tick) =>
      if Abs(tick.nope) >= threshold then Cycle(Some(Quote(t, tick.nope, tick.price)), false)
      else Cycle(None, false)
  }

  /** A reading that alerts at some threshold alerts at every lower one; |nope| equal to the threshold alerts. */
  lemma AlertIsMonotone(t: Ticker, high: real, low: real, tick: Tick)
    requires low <= high
    ensures Decide(t, high, Success(tick)).reply.Some? ==> Decide(t, low, Success(tick)).reply.Some?
    ensures Decide(t, Abs(tick.nope), Success(tick)).reply == Some(Quote(t, tick.nope, tick.price))
  {
  }

  // ---------------------------------------------------------------------------
  // The bot's state and its handlers
  // ---------------------------------------------------------------------------

  class Bot {
    /** `trackingRecords`. */
    var records: seq<TrackRecord<Ticker>>
    /** Where `setInterval` draws its next token from. */
    var nextToken: nat
    /** Tokens passed to `clearInterval`. */
    ghost var cleared: set<nat>
    /** Everything sent with `ctx.reply`, oldest first. */
    var sent: seq<Reply>

    /** At most one record per ticker; every record owns a live timer of its own. */
    ghost predicate Valid()
      reads this
    {
      && UniqueTickers(records)
      && DistinctTokens(records)
      && TimersLive(records, nextToken, cleared)
    }

    constructor ()
      ensures Valid()
      ensures records == [] && sent == [] && cleared == {}
    {
      records := [];
      nextToken := 0;
      cleared := {};
      sent := [];
    }

    /**
     * `untrack`: the record for `t`, if there is one, is filtered out and its
     * timer cleared; without one nothing changes.
     */
    method Untrack(t: Ticker) returns (r: Option<TrackRecord<Ticker>>)
      requires Valid()
      modifies this`records, this`cleared
      ensures Valid()
      ensures r == Find(old(records), t)
      ensures r.None? ==> records == old(records) && cleared == old(cleared)
      ensures r.Some? ==> r.value.ticker == t
                          && (exists i :: 0 <= i < |old(records)| && old(records)[i] == r.value
                                         && records == old(records)[..i] + old(records)[i + 1..])
                          && cleared == old(cleared) + {r.value.token}
      ensures records == Without(old(records), t) && !IsTracked(records, t)
    {
      r := Find(records, t);
      if r.None? {
        WithoutAbsent(records, t);
        return;
      }
      var rs := records;
      var i :| 0 <= i < |rs| && rs[i] == r.value && r.value.ticker == t;
      var w := Without(rs, t);
      assert w == rs[..i] + rs[i + 1..] by {
        WithoutRemovesOne(rs, t, i);
      }
      assert UniqueTickers(w) && DistinctTokens(w) && TimersLive(w, nextToken, cleared + {rs[i].token}) by {
        WithoutKeepsUnique(rs, t);
        WithoutKeepsDistinct(rs, t);
        UntrackKeepsTimersLive(rs, t, i, nextToken, cleared);
      }
      assert !IsTracked(w, t) by {
        WithoutMembers(rs, t);
      }
      records := w;
      cleared := cleared + {r.value.token};
    }

    /** One update cycle for `t`, given how its request settled. */
    method Update(t: Ticker, threshold: real, outcome: Result<Tick, NopeError>)
      requires Valid()
      modifies this`sent, this`records, this`cleared
      ensures Valid()
      ensures var cycle := Decide(t, threshold, outcome);
              && sent == old(sent) + Emitted(cycle.reply)
              && records == (if cycle.untrack then Without(old(records), t) else old(records))
              && cleared == (if cycle.untrack then old(cleared) + FoundToken(Find(old(records), t)) else old(cleared))
    {
      var cycle := Decide(t, threshold, outcome);
      if cycle.reply.Some? {
        sent := sent + [cycle.reply.value];
      }
      if cycle.untrack {
        var _ := Untrack(t);
      }
    }

    /** `/now`: one reply, and the registry is not touched. */
    method NowCommand(text: string, outcome: Result<Tick, NopeError>)
      modifies this`sent
      ensures sent == old(sent) + [match CheckNow(text)
                                   case Failure(e) => e
                                   case Success(t) => NowReply(t, outcome)]
    {
      match CheckNow(text)
      case Failure(e) => sent := sent + [e];
      case Success(t) => sent := sent + [NowReply(t, outcome)];
    }

    /**
     * `/track`'s accepted branch for a free ticker `t`: a timer is started,
     * one record appended, the subscription confirmed, and the first update
     * cycle run at once.
     */
    method Start(t: Ticker, threshold: real, first: Result<Tick, NopeError>)
      requires Valid() && !IsTracked(records, t)
      modifies this
      ensures Valid()
      ensures var cycle := Decide(t, threshold, first);
              && nextToken == old(nextToken) + 1
              && sent == old(sent) + [Tracking(t, Some(threshold))] + Emitted(cycle.reply)
              && records == (if cycle.untrack then old(records) else old(records) + [TrackRecord(t, old(nextToken))])
              && cleared == (if cycle.untrack then old(cleared) + {old(nextToken)} else old(cleared))
    {
      var token := nextToken;
      nextToken := nextToken + 1;
      var record := TrackRecord(t, token);
      var rs := records + [record];
      assert UniqueTickers(rs) && DistinctTokens(rs) && TimersLive(rs, nextToken, cleared) by {
        AppendKeepsUnique(records, record);
        AppendKeepsTimersLive(records, record, token, cleared);
      }
      assert Find(rs, t) == Some(record) && Without(rs, t) == records by {
        FindAppended(records, record);
        WithoutAppended(records, record);
      }
      records := rs;
      sent := sent + [Tracking(t, Some(threshold))];
      Update(t, threshold, first);
    }

    /**
     * `/track`: a rejection leaves the registry as it was; an acceptance
     * starts a timer, appends one record, confirms, and runs the first
     * update cycle at once.
     */
    method TrackCommand(text: string, number: string -> Option<real>, first: Result<Tick, NopeError>)
      requires Valid()
      modifies this
      ensures Valid()
      ensures var check := CheckTrack(text, old(records), number);
              check.Failure? ==> sent == old(sent) + [check.error] && records == old(records)
                                 && nextToken == old(nextToken) && cleared == old(cleared)
      ensures var check := CheckTrack(text, old(records), number);
              check.Success? ==>
                var req := check.value;
                var cycle := Decide(req.ticker, req.threshold, first);
                && nextToken == old(nextToken) + 1
                && sent == old(sent) + [Tracking(req.ticker, Some(req.threshold))] + Emitted(cycle.reply)
                && records == (if cycle.untrack then old(records)
                               else old(records) + [TrackRecord(req.ticker, old(nextToken))])
                && cleared == (if cycle.untrack then old(cleared) + {old(nextToken)} else old(cleared))
    {
      match CheckTrack(text, records, number)
      case Failure(e) =>
        sent := sent + [e];
      case Success(req) =>
        Start(req.ticker, req.threshold, first);
    }

    /** `/untrack`: a tracked ticker is untracked and confirmed; otherwise one rejection and no change. */
    method UntrackCommand(text: string)
      requires Valid()
      modifies this`sent, this`records, this`cleared
      ensures Valid()
      ensures var check := CheckUntrack(text);
              check.Failure? ==> sent == old(sent) + [check.error] && records == old(records) && cleared == old(cleared)
      ensures var check := CheckUntrack(text);
              check.Success? && !IsTracked(old(records), check.value) ==>
                sent == old(sent) + [NotTracked] && records == old(records) && cleared == old(cleared)
      ensures var check := CheckUntrack(text);
              check.Success? && IsTracked(old(records), check.value) ==>
                && sent == old(sent) + [Untracked(check.value)]
                && records == Without(old(records), check.value)
                && cleared == old(cleared) + FoundToken(Find(old(records), check.value))
    {
      match CheckUntrack(text)
      case Failure(e) =>
        sent := sent + [e];
      case Success(t) =>
        var found := Untrack(t);
        if found.None? {
          sent := sent + [NotTracked];
        } else {
          sent := sent + [Untracked(t)];
        }
    }
  }
}
