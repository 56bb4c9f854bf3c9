/** The session-bound service credential cache of app/src-tauri/src/service_token.rs.

    The mutex serialises the calls, so a run is a sequence of calls; every call is
    given the readings of the monotonic and the wall clock and the answer of the
    identity service.  Clock readings are in milliseconds. */
module TokenCache {
  import opened Common

  const MAX_REUSE := 60
  const EXPIRY_MARGIN := 15

  datatype Clock = Clock(mono: nat, wall: nat)

  function UnixSeconds(c: Clock): nat {
    c.wall / 1000
  }

  /** `expiry` is None when the token cannot be parsed. */
  datatype Token = Token(serial: nat, expiry: Option<nat>)
  datatype Entry = Entry(session: string, token: Token, expiresAt: nat, refreshAt: nat)

  datatype Reply = Answer(token: Token, exchanged: bool) | Failed | Cleared

  /** One call: the clocks on entry and after the exchange, and what the exchange would yield. */
  datatype Call = Clear | Get(session: string, before: Clock, after: Clock, exchange: Option<Token>)

  predicate Reusable(e: Entry, session: string, now: Clock) {
    e.session == session && now.mono < e.refreshAt && UnixSeconds(now) + EXPIRY_MARGIN < e.expiresAt
  }

  /** The cache and the reply after one call. */
  function Respond(cache: Option<Entry>, c: Call): (Option<Entry>, Reply) {
    match c
    case Clear => (None, Cleared)
    case Get(session, before, after, exchange) =>
      if cache.Some? && Reusable(cache.value, session, before) then (cache, Answer(cache.value.token, false))
      else if exchange.None? || exchange.value.expiry.None? then (None, Failed)
      else
        var token, expiresAt := exchange.value, exchange.value.expiry.value;
        var spent := UnixSeconds(after) + EXPIRY_MARGIN;
        if expiresAt <= spent then (None, Failed)
        else
          var refreshAt := after.mono + 1000 * Smaller(MAX_REUSE, expiresAt - spent);
          (Some(Entry(session, token, expiresAt, refreshAt)), Answer(token, true))
  }

  function Smaller(a: nat, b: nat): nat {
    if a < b then a else b
  }

  /** The cache before call number `n`. */
  function CacheAt(calls: seq<Call>, n: nat): Option<Entry>
    requires n <= |calls|
  {
    if n == 0 then None else Respond(CacheAt(calls, n - 1), calls[n - 1]).0
  }

  function ReplyTo(calls: seq<Call>, k: nat): Reply
    requires k < |calls|
  {
    Respond(CacheAt(calls, k), calls[k]).1
  }

  class ServiceTokenCache {
    var entry: Option<Entry>

    constructor ()
      ensures entry == None
    {
      entry := None;
    }

    method Clear()
      modifies this
      ensures entry == Respond(old(entry), Call.Clear).0
    {
      entry := None;
    }

    method Get(session: string, before: Clock, after: Clock, exchange: Option<Token>) returns (r: Reply)
      modifies this
      ensures (entry, r) == Respond(old(entry), Call.Get(session, before, after, exchange))
    {
      if entry.Some? && entry.value.session == session && before.mono < entry.value.refreshAt
         && UnixSeconds(before) + EXPIRY_MARGIN < entry.value.expiresAt {
        return Answer(entry.value.token, false);
      }
      // A failed refresh never falls back to a previous session or a stale token.
      entry := None;
      if exchange.None? || exchange.value.expiry.None? {
        return Failed;
      }
      var expiresAt := exchange.value.expiry.value;
      var spent := UnixSeconds(after) + EXPIRY_MARGIN;
      if expiresAt <= spent {
        return Failed;
      }
      var reuse := Smaller(MAX_REUSE, expiresAt - spent);
      entry := Some(Entry(session, exchange.value, expiresAt, after.mono + 1000 * reuse));
      return Answer(exchange.value, true);
    }
  }

  // ----- Freshness over any run ---------------------------------------------------------

  /** Call `j` exchanged this token for this session. */
  predicate MintedAt(calls: seq<Call>, j: nat, session: string, token: Token)
    requires j < |calls|
  {
    && calls[j].Get? && calls[j].session == session && calls[j].exchange == Some(token)
    && ReplyTo(calls, j) == Answer(token, true)
  }

  /** Since call `j`, every call before the n-th was answered with this same token from the cache, so there was no
      clear, no failure and no other session. */
  predicate OnlyReused(calls: seq<Call>, j: nat, n: nat, token: Token)
    requires n <= |calls|
  {
    forall i :: j < i < n ==> ReplyTo(calls, i) == Answer(token, false)
  }

  /** The cache before call `n` holds what call `j` minted. */
  ghost predicate HoldsMint(calls: seq<Call>, n: nat, j: nat)
    requires n <= |calls|
  {
    && j < n && CacheAt(calls, n).Some?
    && var e := CacheAt(calls, n).value;
       && MintedAt(calls, j, e.session, e.token) && e.token.expiry == Some(e.expiresAt)
       && UnixSeconds(calls[j].after) + EXPIRY_MARGIN < e.expiresAt
       && e.refreshAt == calls[j].after.mono
                         + 1000 * Smaller(MAX_REUSE, e.expiresAt - UnixSeconds(calls[j].after) - EXPIRY_MARGIN)
  }

  lemma {:induction false} EntryWasMinted(calls: seq<Call>, n: nat) returns (j: nat)
    requires n <= |calls| && CacheAt(calls, n).Some?
    ensures HoldsMint(calls, n, j) && OnlyReused(calls, j, n, CacheAt(calls, n).value.token)
  {
    if ReplyTo(calls, n - 1).Answer? && ReplyTo(calls, n - 1).exchanged {
      j := n - 1;
    } else {
      j := EntryWasMinted(calls, n - 1);
    }
  }

  /** Main result, for every run whatever the clocks do: a returned token was minted for this very
      session by this call or an earlier one, with nothing but its reuse since; if earlier, less than a minute
      ago on the monotonic clock; and it has more than the margin of wall-clock life left. */
  lemma ReturnedTokenIsFresh(calls: seq<Call>, k: nat) returns (j: nat)
    requires k < |calls| && ReplyTo(calls, k).Answer?
    ensures var c := calls[k]; var token := ReplyTo(calls, k).token;
            && j <= k && c.Get? && MintedAt(calls, j, c.session, token) && OnlyReused(calls, j, k, token)
            && (j < k <==> !ReplyTo(calls, k).exchanged)
            && (j < k ==> c.before.mono < calls[j].after.mono + 1000 * MAX_REUSE)
            && token.expiry.Some?
            && UnixSeconds(if j < k then c.before else c.after) + EXPIRY_MARGIN < token.expiry.value
  {
    if ReplyTo(calls, k).exchanged {
      j := k;
    } else {
      j := EntryWasMinted(calls, k);
    }
  }

  /** The token of call `j` may still be used by call `k`. */
  predicate StillGood(calls: seq<Call>, j: nat, k: nat, token: Token)
    requires j < k < |calls|
  {
    && calls[j].Get? && calls[k].Get? && token.expiry.Some? && MintedAt(calls, j, calls[k].session, token)
    && OnlyReused(calls, j, k, token)
    && UnixSeconds(calls[j].after) + EXPIRY_MARGIN < token.expiry.value
    && calls[k].before.mono - calls[j].after.mono < 1000 * MAX_REUSE
    && calls[k].before.mono - calls[j].after.mono
         < 1000 * (token.expiry.value - EXPIRY_MARGIN - UnixSeconds(calls[j].after))
    && UnixSeconds(calls[k].before) + EXPIRY_MARGIN < token.expiry.value
  }

  /** What an exchange yields when it is asked for. */
  predicate Yields(c: Call, token: Token) {
    && c.Get? && c.exchange == Some(token) && token.expiry.Some?
    && UnixSeconds(c.after) + EXPIRY_MARGIN < token.expiry.value
  }

  /** The call finds a token that is still good. */
  ghost predicate ReusesAny(calls: seq<Call>, k: nat)
    requires k < |calls|
  {
    exists token :: ReusesFrom(calls, k, token)
  }

  predicate ReusesFrom(calls: seq<Call>, k: nat, token: Token)
    requires k < |calls|
  {
    exists j :: 0 <= j < k && StillGood(calls, j, k, token)
  }

  /** Main result: in every run a call is answered from the cache exactly if an earlier one minted a token that is
      still good; otherwise it is answered exactly with what the exchange yields, and fails if that is nothing. */
  lemma ReplyIsExact(calls: seq<Call>, k: nat)
    requires k < |calls| && calls[k].Get?
    ensures forall token :: ReplyTo(calls, k) == Answer(token, false) <==> ReusesFrom(calls, k, token)
    ensures forall token :: ReplyTo(calls, k) == Answer(token, true) <==>
              Yields(calls[k], token) && !ReusesAny(calls, k)
    ensures ReplyTo(calls, k) == Failed <==> !ReusesAny(calls, k) && forall token :: !Yields(calls[k], token)
  {
    forall token ensures ReplyTo(calls, k) == Answer(token, false) <==> ReusesFrom(calls, k, token) {
      if ReplyTo(calls, k) == Answer(token, false) {
        var j := EntryWasMinted(calls, k);
        assert StillGood(calls, j, k, token);
      }
      if j :| 0 <= j < k && StillGood(calls, j, k, token) {
        MintIsKept(calls, j, k, token);
      }
    }
    if calls[k].exchange.Some? {
      assert Yields(calls[k], calls[k].exchange.value) || forall token :: !Yields(calls[k], token);
    }
    var r := ReplyTo(calls, k);
    assert r.Answer? && !r.exchanged ==> r == Answer(r.token, false);
  }

  /** A minted token stays cached as long as it is only reused. */
  lemma {:induction false} MintIsKept(calls: seq<Call>, j: nat, n: nat, token: Token)
    requires j < n <= |calls| && calls[j].Get? && MintedAt(calls, j, calls[j].session, token)
    requires OnlyReused(calls, j, n, token)
    ensures CacheAt(calls, n) == CacheAt(calls, j + 1)
  {
    if j + 1 < n {
      MintIsKept(calls, j, n - 1, token);
      assert ReplyTo(calls, n - 1) == Answer(token, false);
    }
  }

  // ----- The exchange rate ------------------------------------------------------------------

  function Exchanges(calls: seq<Call>, n: nat): nat
    requires n <= |calls|
  {
    if n == 0 then 0
    else Exchanges(calls, n - 1) + (if ReplyTo(calls, n - 1).Answer? && ReplyTo(calls, n - 1).exchanged then 1 else 0)
  }

  /** One session, no clears or failures, both clocks advancing together, and tokens that live for more
      than `life` seconds after the exchange. */
  predicate Steady(calls: seq<Call>, session: string, life: nat) {
    && (forall k :: 0 <= k < |calls| ==>
          && calls[k].Get? && calls[k].session == session
          && calls[k].exchange.Some? && calls[k].exchange.value.expiry.Some?
          && calls[k].exchange.value.expiry.value > UnixSeconds(calls[k].after) + life
          && calls[k].before.mono <= calls[k].after.mono
          && calls[k].after.wall - calls[k].after.mono == calls[k].before.wall - calls[k].before.mono)
    && (forall i, k :: 0 <= i < k < |calls| ==>
          && calls[i].after.mono <= calls[k].before.mono
          && calls[k].before.wall - calls[k].before.mono == calls[i].before.wall - calls[i].before.mono)
  }

  /** With lives above 75 seconds a cached token is reused for the full minute. */
  lemma ReusedForAMinute(calls: seq<Call>, session: string, k: nat, j: nat)
    requires Steady(calls, session, 75) && k < |calls| && HoldsMint(calls, k, j)
    ensures ReplyTo(calls, k).Answer?
    ensures ReplyTo(calls, k).exchanged ==> calls[k].before.mono >= calls[j].after.mono + 60000
    ensures HoldsMint(calls, k + 1, if ReplyTo(calls, k).exchanged then k else j)
  {
  }

  lemma FirstCallExchanges(calls: seq<Call>, session: string)
    requires Steady(calls, session, 75) && |calls| > 0
    ensures Exchanges(calls, 1) == 1 && HoldsMint(calls, 1, 0)
  {
    assert CacheAt(calls, 0) == None;
    assert Exchanges(calls, 0) == 0;
  }

  /** Every exchange comes at least a minute after the one before it. */
  lemma {:induction false} ExchangesAreSpaced(calls: seq<Call>, session: string, n: nat) returns (j: nat)
    requires Steady(calls, session, 75) && 0 < n <= |calls|
    ensures Exchanges(calls, n) > 0 && HoldsMint(calls, n, j)
    ensures calls[j].before.mono >= calls[0].before.mono + 60000 * (Exchanges(calls, n) - 1)
  {
    if n == 1 {
      FirstCallExchanges(calls, session);
      j := 0;
    } else {
      var i := ExchangesAreSpaced(calls, session, n - 1);
      ReusedForAMinute(calls, session, n - 1, i);
      j := if ReplyTo(calls, n - 1).exchanged then n - 1 else i;
      assert calls[i].before.mono <= calls[i].after.mono;
    }
  }

  /** The identity service sees at most one exchange, and one more for each full minute that passes. */
  lemma ExchangeRateIsBounded(calls: seq<Call>, session: string)
    requires Steady(calls, session, 75) && |calls| > 0
    ensures Exchanges(calls, |calls|) <= 1 + (calls[|calls| - 1].before.mono - calls[0].before.mono) / 60000
  {
    var j := ExchangesAreSpaced(calls, session, |calls|);
    assert calls[j].before.mono <= calls[|calls| - 1].before.mono;
  }

  /** Lives of 75 seconds are not enough: the wall clock can end the reuse within the minute. */
  lemma SeventyFiveSecondsAreNotEnough()
    ensures exists calls: seq<Call> :: Steady(calls, "s", 74) && |calls| == 2 && Exchanges(calls, 2) == 2
                            && calls[1].before.mono - calls[0].before.mono < 60000
  {
    var c0 := Clock(0, 999);
    var c1 := Clock(59500, 60499);
    var calls := [Get("s", c0, c0, Some(Token(0, Some(75)))), Get("s", c1, c1, Some(Token(1, Some(200))))];
    assert CacheAt(calls, 0) == None;
    assert CacheAt(calls, 1) == Some(Entry("s", Token(0, Some(75)), 75, 60000));
    assert ReplyTo(calls, 1) == Answer(Token(1, Some(200)), true);
    assert Exchanges(calls, 0) == 0 && Exchanges(calls, 1) == 1;
  }
}
