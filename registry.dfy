/**
 * The tracking registry shared by both drafts of the bot: an ordered list
 * of `{ticker, token}` records, looked up with `Array.prototype.find` and
 * pruned with `Array.prototype.filter`. The ticker type is a parameter
 * because the newer draft stores validated tickers and the older one plain
 * strings; a timer token is an opaque number.
 */
module Registry {
  import opened Wrappers

  datatype TrackRecord<K> = TrackRecord(ticker: K, token: nat)

  /** Some record has ticker `t`. */
  predicate IsTracked<K(==)>(rs: seq<TrackRecord<K>>, t: K) {
    exists i :: 0 <= i < |rs| && rs[i].ticker == t
  }

  /** At most one record per ticker: the registry's invariant. */
  ghost predicate UniqueTickers<K>(rs: seq<TrackRecord<K>>) {
    forall i, j :: 0 <= i < j < |rs| ==> rs[i].ticker != rs[j].ticker
  }

  /** Every record has its own timer. */
  ghost predicate DistinctTokens<K>(rs: seq<TrackRecord<K>>) {
    forall i, j :: 0 <= i < j < |rs| ==> rs[i].token != rs[j].token
  }

  /** `rs.find(r => r.ticker === t)`: the first record with ticker `t`, if any. */
  function Find<K(==)>(rs: seq<TrackRecord<K>>, t: K): (r: Option<TrackRecord<K>>)
    ensures r.None? <==> !IsTracked(rs, t)
    ensures r.Some? ==> exists i :: 0 <= i < |rs| && rs[i] == r.value && r.value.ticker == t
                                    && forall j :: 0 <= j < i ==> rs[j].ticker != t
  {
    if rs == [] then None
    else if rs[0].ticker == t then Some(rs[0])
    else
      var r := Find(rs[1..], t);
      assert forall i :: 0 < i < |rs| ==> rs[i] == rs[1..][i - 1];
      r
  }

  /** `rs.filter(r => r.ticker !== t)`. */
  function Without<K(==)>(rs: seq<TrackRecord<K>>, t: K): seq<TrackRecord<K>> {
    if rs == [] then []
    else if rs[0].ticker == t then Without(rs[1..], t)
    else [rs[0]] + Without(rs[1..], t)
  }

  /** Filtering keeps exactly the records with other tickers: none with `t` survives, and every other one does. */
  lemma {:induction false} WithoutMembers<K>(rs: seq<TrackRecord<K>>, t: K)
    ensures forall k :: 0 <= k < |Without(rs, t)| ==> Without(rs, t)[k] in rs && Without(rs, t)[k].ticker != t
    ensures forall k :: 0 <= k < |rs| && rs[k].ticker != t ==> rs[k] in Without(rs, t)
  {
    if rs != [] {
      var tail, w := rs[1..], Without(rs[1..], t);
      WithoutMembers(tail, t);
      assert forall k :: 0 <= k < |tail| ==> tail[k] == rs[k + 1];
      if rs[0].ticker != t {
        assert Without(rs, t) == [rs[0]] + w;
        assert forall k :: 0 < k < |Without(rs, t)| ==> Without(rs, t)[k] == w[k - 1];
      }
    }
  }

  /** Filtering out an absent ticker changes nothing. */
  lemma {:induction false} WithoutAbsent<K>(rs: seq<TrackRecord<K>>, t: K)
    requires !IsTracked(rs, t)
    ensures Without(rs, t) == rs
  {
    if rs != [] {
      assert rs[0].ticker != t;
      assert !IsTracked(rs[1..], t) by {
        assert forall i :: 0 <= i < |rs| - 1 ==> rs[1..][i] == rs[i + 1];
      }
      WithoutAbsent(rs[1..], t);
      assert [rs[0]] + rs[1..] == rs;
    }
  }

  /** Filtering distributes over concatenation. */
  lemma {:induction false} WithoutAppend<K>(rs: seq<TrackRecord<K>>, more: seq<TrackRecord<K>>, t: K)
    ensures Without(rs + more, t) == Without(rs, t) + Without(more, t)
  {
    if rs != [] {
      var tail := rs[1..];
      assert (rs + more)[0] == rs[0] && (rs + more)[1..] == tail + more;
      WithoutAppend(tail, more, t);
      if rs[0].ticker != t {
        var a, b := Without(tail, t), Without(more, t);
        assert [rs[0]] + (a + b) == ([rs[0]] + a) + b;
      }
    } else {
      assert rs + more == more;
    }
  }

  /**
   * With unique tickers, filtering out the ticker of record `i` removes
   * exactly that record and keeps all the others in their order.
   */
  lemma {:induction false} WithoutRemovesOne<K>(rs: seq<TrackRecord<K>>, t: K, i: nat)
    requires UniqueTickers(rs)
    requires i < |rs| && rs[i].ticker == t
    ensures Without(rs, t) == rs[..i] + rs[i + 1..]
  {
    var before, after := rs[..i], rs[i + 1..];
    assert rs == before + [rs[i]] + after;
    assert !IsTracked(before, t) by {
      assert forall j :: 0 <= j < |before| ==> before[j] == rs[j];
    }
    assert !IsTracked(after, t) by {
      assert forall j :: 0 <= j < |after| ==> after[j] == rs[i + 1 + j];
    }
    var head := before + [rs[i]];
    assert Without([rs[i]], t) == [] by {
      assert [rs[i]][1..] == [];
    }
    WithoutAppend(before, [rs[i]], t);
    WithoutAbsent(before, t);
    assert Without(head, t) == before;
    WithoutAppend(head, after, t);
    WithoutAbsent(after, t);
    assert rs == head + after;
  }

  /** Filtering keeps tickers unique. */
  lemma {:induction false} WithoutKeepsUnique<K>(rs: seq<TrackRecord<K>>, t: K)
    requires UniqueTickers(rs)
    ensures UniqueTickers(Without(rs, t))
  {
    if rs != [] {
      var tail := rs[1..];
      assert UniqueTickers(tail) by {
        assert forall k :: 0 <= k < |tail| ==> tail[k] == rs[k + 1];
      }
      WithoutKeepsUnique(tail, t);
      if rs[0].ticker != t {
        var w := Without(tail, t);
        assert forall k :: 0 <= k < |w| ==> w[k].ticker != rs[0].ticker by {
          WithoutMembers(tail, t);
          forall k | 0 <= k < |w| ensures w[k].ticker != rs[0].ticker {
            var j :| 0 <= j < |tail| && tail[j] == w[k];
            assert rs[j + 1] == w[k];
          }
        }
        assert Without(rs, t) == [rs[0]] + w;
      }
    }
  }

  /** Filtering keeps every record's token its own. */
  lemma {:induction false} WithoutKeepsDistinct<K>(rs: seq<TrackRecord<K>>, t: K)
    requires DistinctTokens(rs)
    ensures DistinctTokens(Without(rs, t))
  {
    if rs != [] {
      var tail := rs[1..];
      assert DistinctTokens(tail) by {
        assert forall k :: 0 <= k < |tail| ==> tail[k] == rs[k + 1];
      }
      WithoutKeepsDistinct(tail, t);
      if rs[0].ticker != t {
        var w := Without(tail, t);
        assert forall k :: 0 <= k < |w| ==> w[k].token != rs[0].token by {
          WithoutMembers(tail, t);
          forall k | 0 <= k < |w| ensures w[k].token != rs[0].token {
            var j :| 0 <= j < |tail| && tail[j] == w[k];
            assert rs[j + 1] == w[k];
          }
        }
        assert Without(rs, t) == [rs[0]] + w;
      }
    }
  }

  /**
   * Every record's timer is still running (its token was handed out and not
   * cleared), and every cleared token was handed out.
   */
  ghost predicate TimersLive<K>(rs: seq<TrackRecord<K>>, next: nat, cleared: set<nat>) {
    && (forall i :: 0 <= i < |rs| ==> rs[i].token < next && rs[i].token !in cleared)
    && (forall k :: k in cleared ==> k < next)
  }

  /** Filtering out record `i`'s ticker and clearing its token leaves every other timer running. */
  lemma UntrackKeepsTimersLive<K>(rs: seq<TrackRecord<K>>, t: K, i: nat, next: nat, cleared: set<nat>)
    requires DistinctTokens(rs) && TimersLive(rs, next, cleared)
    requires i < |rs| && rs[i].ticker == t
    ensures TimersLive(Without(rs, t), next, cleared + {rs[i].token})
  {
    var w := Without(rs, t);
    WithoutMembers(rs, t);
    forall k | 0 <= k < |w| ensures w[k].token < next && w[k].token !in cleared + {rs[i].token} {
      var j :| 0 <= j < |rs| && rs[j] == w[k];
      assert j != i;
    }
  }

  /** A record with a newly handed-out token keeps all timers running. */
  lemma AppendKeepsTimersLive<K>(rs: seq<TrackRecord<K>>, x: TrackRecord<K>, next: nat, cleared: set<nat>)
    requires TimersLive(rs, next, cleared) && x.token == next
    ensures TimersLive(rs + [x], next + 1, cleared)
    ensures DistinctTokens(rs) ==> DistinctTokens(rs + [x])
  {
  }

  /** Appending a record for an untracked ticker keeps tickers unique. */
  lemma AppendKeepsUnique<K>(rs: seq<TrackRecord<K>>, x: TrackRecord<K>)
    requires UniqueTickers(rs) && !IsTracked(rs, x.ticker)
    ensures UniqueTickers(rs + [x])
  {
  }

  /** A record appended for ticker `t` is what `find` then returns for `t`. */
  lemma FindAppended<K>(rs: seq<TrackRecord<K>>, x: TrackRecord<K>)
    requires !IsTracked(rs, x.ticker)
    ensures Find(rs + [x], x.ticker) == Some(x)
  {
    var r := Find(rs + [x], x.ticker);
    assert (rs + [x])[|rs|].ticker == x.ticker;
  }

  /** Filtering out the ticker of a record just appended for an untracked ticker restores the registry. */
  lemma WithoutAppended<K>(rs: seq<TrackRecord<K>>, x: TrackRecord<K>)
    requires !IsTracked(rs, x.ticker)
    ensures Without(rs + [x], x.ticker) == rs
  {
    WithoutAppend(rs, [x], x.ticker);
    WithoutAbsent(rs, x.ticker);
    assert Without([x], x.ticker) == [] by {
      assert [x][1..] == [];
    }
  }

  /** The token of the record found, if any. */
  function FoundToken<K>(r: Option<TrackRecord<K>>): set<nat> {
    match r
    case Some(x) => {x.token}
    case None => {}
  }
}
