/** Fixed-window limiting of MAIL FROM commands per address (takeMailFromRateSlot in
    ARCHIVE/aven-mail/src/inbound-smtp.js). */
module RateLimit {

  datatype Rule = Rule(limit: nat, window: int)

  datatype Bucket = Bucket(n: nat, resetAt: int)

  type Buckets = map<string, Bucket>

  /** One MAIL FROM command: when and from where. */
  datatype Request = Request(at: int, ip: string)

  /** The bucket that decides on a request: the stored one until its reset time, then a new one. */
  function Current(rule: Rule, buckets: Buckets, q: Request): Bucket {
    if q.ip in buckets && q.at < buckets[q.ip].resetAt then buckets[q.ip] else Bucket(0, q.at + rule.window)
  }

  predicate Admits(rule: Rule, buckets: Buckets, q: Request) {
    Current(rule, buckets, q).n < rule.limit
  }

  function After(rule: Rule, buckets: Buckets, q: Request): Buckets {
    var b := Current(rule, buckets, q);
    buckets[q.ip := if Admits(rule, buckets, q) then b.(n := b.n + 1) else b]
  }

  class Limiter {
    const rule: Rule
    var buckets: Buckets

    constructor (rule: Rule)
      ensures this.rule == rule && buckets == map[]
    {
      this.rule := rule;
      buckets := map[];
    }

    method TakeSlot(ip: string, now: int) returns (ok: bool)
      modifies this
      ensures ok == Admits(rule, old(buckets), Request(now, ip))
      ensures buckets == After(rule, old(buckets), Request(now, ip))
    {
      if ip !in buckets || now >= buckets[ip].resetAt {
        buckets := buckets[ip := Bucket(0, now + rule.window)];
      }
      var b := buckets[ip];
      if b.n >= rule.limit {
        return false;
      }
      buckets := buckets[ip := b.(n := b.n + 1)];
      return true;
    }
  }

  // ----- Runs ----------------------------------------------------------------------------------

  function Run(rule: Rule, requests: seq<Request>): Buckets {
    if requests == [] then map[]
    else After(rule, Run(rule, requests[..|requests| - 1]), requests[|requests| - 1])
  }

  /** The clock never runs backwards. */
  predicate Ordered(requests: seq<Request>) {
    forall i, k :: 0 <= i < k < |requests| ==> requests[i].at <= requests[k].at
  }

  /** How many requests of one address were admitted at times from lo up to, not including, hi. */
  function Granted(rule: Rule, requests: seq<Request>, ip: string, lo: int, hi: int): nat {
    if requests == [] then 0
    else
      var before, q := requests[..|requests| - 1], requests[|requests| - 1];
      Granted(rule, before, ip, lo, hi) +
        (if q.ip == ip && lo <= q.at < hi && Admits(rule, Run(rule, before), q) then 1 else 0)
  }

  lemma {:induction false} GrantedSplits(rule: Rule, requests: seq<Request>, ip: string, lo: int, mid: int, hi: int)
    requires lo <= mid <= hi
    ensures Granted(rule, requests, ip, lo, hi) ==
            Granted(rule, requests, ip, lo, mid) + Granted(rule, requests, ip, mid, hi)
    decreases |requests|
  {
    if requests != [] {
      GrantedSplits(rule, requests[..|requests| - 1], ip, lo, mid, hi);
    }
  }

  lemma {:induction false} NothingAfterTheLast(rule: Rule, requests: seq<Request>, ip: string, lo: int, hi: int)
    requires forall q :: q in requests ==> q.at < lo
    ensures Granted(rule, requests, ip, lo, hi) == 0
    decreases |requests|
  {
    if requests != [] {
      NothingAfterTheLast(rule, requests[..|requests| - 1], ip, lo, hi);
    }
  }

  /** The most that any stretch as long as a window is granted: the last grants of one window and all of
      the next, short of the one that opened the first. */
  function Most(rule: Rule): nat {
    if rule.limit == 0 then 0 else 2 * rule.limit - 1
  }

  function Start(rule: Rule, b: Bucket): int {
    b.resetAt - rule.window
  }

  /** What holds of one address after a run that ended before `end`, and of the stretch that begins at lo. */
  ghost predicate Known(rule: Rule, requests: seq<Request>, ip: string, end: int, lo: int) {
    var buckets := Run(rule, requests);
    && Granted(rule, requests, ip, lo, lo + rule.window) <= Most(rule)
    && if ip !in buckets then
         Granted(rule, requests, ip, lo, end) == 0
       else
         var b := buckets[ip];
         var s := Start(rule, b);
         && b.n <= rule.limit && requests != [] && s <= requests[|requests| - 1].at
         && Granted(rule, requests, ip, s, end) == b.n
         && Granted(rule, requests, ip, b.resetAt, end) == 0
         && (rule.limit > 0 ==> Granted(rule, requests, ip, s, s + 1) > 0)
         && (s - rule.window < lo <= s ==> Granted(rule, requests, ip, lo, s) <= Most(rule) / 2)
  }

  lemma Within(rule: Rule, requests: seq<Request>, ip: string, lo: int, hi: int, lo': int, hi': int)
    requires lo' <= lo <= hi <= hi'
    ensures Granted(rule, requests, ip, lo, hi) <= Granted(rule, requests, ip, lo', hi')
  {
    GrantedSplits(rule, requests, ip, lo', lo, hi');
    GrantedSplits(rule, requests, ip, lo, hi, hi');
  }

  lemma {:induction false} NothingWithoutBucket(rule: Rule, requests: seq<Request>, ip: string, lo: int, hi: int)
    requires ip !in Run(rule, requests)
    ensures Granted(rule, requests, ip, lo, hi) == 0
    decreases |requests|
  {
    if requests != [] {
      NothingWithoutBucket(rule, requests[..|requests| - 1], ip, lo, hi);
    }
  }

  lemma {:induction false} WindowsAreKnown(rule: Rule, requests: seq<Request>, ip: string, end: int, lo: int)
    requires rule.window > 0 && Ordered(requests) && forall q :: q in requests ==> q.at < end
    ensures Known(rule, requests, ip, end, lo)
    decreases |requests|
  {
    if requests != [] {
      var before, q := requests[..|requests| - 1], requests[|requests| - 1];
      WindowsAreKnown(rule, before, ip, end, lo);
      if q.ip == ip {
        var buckets := Run(rule, before);
        if ip !in buckets {
          FirstWindow(rule, requests, ip, end, lo);
        } else if q.at < buckets[ip].resetAt {
          SameWindow(rule, requests, ip, end, lo);
        } else {
          NextWindow(rule, requests, ip, end, lo);
        }
      }
    }
  }

  ghost predicate Extends(rule: Rule, requests: seq<Request>, ip: string, end: int, lo: int) {
    && rule.window > 0 && Ordered(requests) && (forall q :: q in requests ==> q.at < end)
    && requests != [] && requests[|requests| - 1].ip == ip
    && Known(rule, requests[..|requests| - 1], ip, end, lo)
  }

  lemma FirstWindow(rule: Rule, requests: seq<Request>, ip: string, end: int, lo: int)
    requires Extends(rule, requests, ip, end, lo) && ip !in Run(rule, requests[..|requests| - 1])
    ensures Known(rule, requests, ip, end, lo)
  {
    var before, q := requests[..|requests| - 1], requests[|requests| - 1];
    NothingWithoutBucket(rule, before, ip, q.at, end);
    NothingWithoutBucket(rule, before, ip, q.at, q.at + 1);
    NothingWithoutBucket(rule, before, ip, q.at + rule.window, end);
    NothingWithoutBucket(rule, before, ip, lo, q.at);
    NothingWithoutBucket(rule, before, ip, lo, lo + rule.window);
  }

  lemma SameWindow(rule: Rule, requests: seq<Request>, ip: string, end: int, lo: int)
    requires Extends(rule, requests, ip, end, lo)
    requires var buckets := Run(rule, requests[..|requests| - 1]);
             ip in buckets && requests[|requests| - 1].at < buckets[ip].resetAt
    ensures Known(rule, requests, ip, end, lo)
  {
    var before, q := requests[..|requests| - 1], requests[|requests| - 1];
    var s := Start(rule, Run(rule, before)[ip]);
    assert s <= before[|before| - 1].at <= q.at;
    if lo <= q.at < lo + rule.window {
      StretchInWindow(rule, before, ip, s, end, lo);
    }
  }

  /** Before the newest request is counted, a stretch that reaches into the current window has room for it. */
  lemma StretchInWindow(rule: Rule, before: seq<Request>, ip: string, s: int, end: int, lo: int)
    requires rule.window > 0 && s < lo + rule.window && lo < end && s < end && forall q :: q in before ==> q.at < end
    requires s - rule.window < lo <= s ==> Granted(rule, before, ip, lo, s) <= Most(rule) / 2
    ensures Granted(rule, before, ip, lo, lo + rule.window) <= Most(rule) / 2 + Granted(rule, before, ip, s, end)
  {
    var top := if lo + rule.window > end then lo + rule.window else end;
    GrantedSplits(rule, before, ip, s, end, top);
    NothingAfterTheLast(rule, before, ip, end, top);
    if lo <= s {
      GrantedSplits(rule, before, ip, lo, s, lo + rule.window);
      Within(rule, before, ip, s, lo + rule.window, s, top);
    } else {
      Within(rule, before, ip, lo, lo + rule.window, s, top);
    }
  }

  lemma NextWindow(rule: Rule, requests: seq<Request>, ip: string, end: int, lo: int)
    requires Extends(rule, requests, ip, end, lo)
    requires var buckets := Run(rule, requests[..|requests| - 1]);
             ip in buckets && requests[|requests| - 1].at >= buckets[ip].resetAt
    ensures Known(rule, requests, ip, end, lo)
  {
    var before, q := requests[..|requests| - 1], requests[|requests| - 1];
    var b := Run(rule, before)[ip];
    var s := Start(rule, b);
    Within(rule, before, ip, q.at, end, b.resetAt, end);
    Within(rule, before, ip, q.at, q.at + 1, q.at, end);
    if q.at + rule.window <= end {
      Within(rule, before, ip, q.at + rule.window, end, q.at, end);
    } else {
      NothingAfterTheLast(rule, requests, ip, q.at + rule.window, end);
    }
    if q.at - rule.window < lo <= q.at {
      GrantedSplits(rule, before, ip, s, s + 1, end);
      Within(rule, before, ip, lo, q.at, s + 1, end);
      StretchInWindow(rule, before, ip, q.at, end, lo);
    }
  }

  /** Main result.  In any stretch of time as long as a window, beginning anywhere, an address is granted at
      most twice the limit less one. */
  lemma AnyStretchIsBounded(rule: Rule, requests: seq<Request>, ip: string, lo: int)
    requires rule.window > 0 && Ordered(requests)
    ensures Granted(rule, requests, ip, lo, lo + rule.window) <= Most(rule)
  {
    var end := if requests == [] then 0 else requests[|requests| - 1].at + 1;
    forall q | q in requests ensures q.at < end {
      var i :| 0 <= i < |requests| && requests[i] == q;
    }
    WindowsAreKnown(rule, requests, ip, end, lo);
  }

  // ----- Windows ---------------------------------------------------------------------------------

  /** Request k finds no current bucket and so opens a window. */
  predicate Opens(rule: Rule, requests: seq<Request>, k: nat)
    requires k < |requests|
  {
    var buckets, q := Run(rule, requests[..k]), requests[k];
    !(q.ip in buckets && q.at < buckets[q.ip].resetAt)
  }

  /** While its time lasts, a window stays the current one. */
  lemma {:induction false} WindowLasts(rule: Rule, requests: seq<Request>, k: nat)
    requires rule.window > 0 && Ordered(requests) && k < |requests| && Opens(rule, requests, k)
    requires requests[|requests| - 1].at < requests[k].at + rule.window
    ensures var buckets := Run(rule, requests);
            requests[k].ip in buckets && buckets[requests[k].ip].resetAt == requests[k].at + rule.window
    decreases |requests|
  {
    if k < |requests| - 1 {
      var before := requests[..|requests| - 1];
      assert before[..k] == requests[..k];
      WindowLasts(rule, before, k);
    }
  }

  lemma BeforeEnd(requests: seq<Request>, end: int)
    requires Ordered(requests) && requests != [] && requests[|requests| - 1].at < end
    ensures forall q :: q in requests ==> q.at < end
  {
    forall q | q in requests ensures q.at < end {
      var i :| 0 <= i < |requests| && requests[i] == q;
    }
  }

  /** In every window of every run an address is granted at most the limit. */
  lemma {:induction false} EveryWindowIsBounded(rule: Rule, requests: seq<Request>, k: nat)
    requires rule.window > 0 && Ordered(requests) && k < |requests| && Opens(rule, requests, k)
    ensures var s := requests[k].at; Granted(rule, requests, requests[k].ip, s, s + rule.window) <= rule.limit
    decreases |requests|
  {
    var last, s := |requests| - 1, requests[k].at;
    if requests[last].at < s + rule.window {
      WindowLasts(rule, requests, k);
      BeforeEnd(requests, s + rule.window);
      WindowsAreKnown(rule, requests, requests[k].ip, s + rule.window, s);
    } else {
      var before := requests[..last];
      assert before[..k] == requests[..k];
      EveryWindowIsBounded(rule, before, k);
    }
  }

  /** A request is refused only when the window it falls in has already been granted the whole limit. */
  lemma RefusalMeansFullWindow(rule: Rule, before: seq<Request>, q: Request)
    requires rule.window > 0 && Ordered(before + [q]) && !Admits(rule, Run(rule, before), q)
    ensures var start := Start(rule, Current(rule, Run(rule, before), q));
            start <= q.at < start + rule.window && Granted(rule, before, q.ip, start, q.at + 1) == rule.limit
  {
    var start := Start(rule, Current(rule, Run(rule, before), q));
    forall p | p in before ensures p.at < q.at + 1 {
      var i :| 0 <= i < |before| && before[i] == p;
      assert (before + [q])[i] == p && (before + [q])[|before|] == q;
    }
    assert forall i, k :: 0 <= i < k < |before| ==> before[i] == (before + [q])[i] && before[k] == (before + [q])[k];
    WindowsAreKnown(rule, before, q.ip, q.at + 1, start);
    var buckets := Run(rule, before);
    if q.ip !in buckets {
      NothingWithoutBucket(rule, before, q.ip, start, q.at + 1);
    } else if q.at >= buckets[q.ip].resetAt {
      Within(rule, before, q.ip, start, q.at + 1, buckets[q.ip].resetAt, q.at + 1);
    } else {
      assert before[|before| - 1] in before;
    }
  }

  /** The bound is reached: with limit 2, requests at 0, 9, 10 and 10 put three grants into [1, 11). */
  lemma BoundIsAttained()
    ensures var rule := Rule(2, 10);
            var r := [Request(0, "a"), Request(9, "a"), Request(10, "a"), Request(10, "a")];
            Ordered(r) && Granted(rule, r, "a", 1, 11) == 3 == Most(rule)
  {
    var rule := Rule(2, 10);
    var r := [Request(0, "a"), Request(9, "a"), Request(10, "a"), Request(10, "a")];
    var r1, r2, r3 := r[..1], r[..2], r[..3];
    assert r1[..0] == [] && r2[..1] == r1 && r3[..2] == r2;
    assert Run(rule, r1) == map["a" := Bucket(1, 10)];
    assert Run(rule, r2) == map["a" := Bucket(2, 10)];
    assert Run(rule, r3) == map["a" := Bucket(1, 20)];
    assert Granted(rule, r1, "a", 1, 11) == 0;
    assert Granted(rule, r2, "a", 1, 11) == 1;
    assert Granted(rule, r3, "a", 1, 11) == 2;
  }
}
