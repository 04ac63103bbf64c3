/** The per-domain fixed-window rate limiter, over a store whose keys expire. */
module RateLimit {
  import opened Wrappers

  const WINDOW_MS := 1000

  datatype Key = Key(domain: string, bucket: nat)

  datatype Entry = Entry(count: nat, expiresAt: Option<nat>)

  /** A request for a slot: the worker's clock, the store's clock when it counted it, and the answer. */
  datatype Attempt = Attempt(domain: string, now: nat, at: nat, rate: real, allowed: bool)

  /** One atomic store command of some worker. */
  datatype Command = Count(domain: string, now: nat, at: nat, rate: real) | Expire(key: Key, at: nat)

  function BucketOf(now: nat): nat {
    now / WINDOW_MS
  }

  function KeyOf(a: Attempt): Key {
    Key(a.domain, BucketOf(a.now))
  }

  // ---------- what the log says ----------

  function Attempts(log: seq<Attempt>, k: Key): nat {
    if log == [] then 0
    else Attempts(log[..|log| - 1], k) + if KeyOf(log[|log| - 1]) == k then 1 else 0
  }

  predicate Granted(a: Attempt, domain: string, from: int, to: int) {
    a.allowed && a.domain == domain && from <= a.now < to
  }

  /** The grants to a domain in the milliseconds [from, to). */
  function Grants(log: seq<Attempt>, domain: string, from: int, to: int): nat {
    if log == [] then 0
    else Grants(log[..|log| - 1], domain, from, to) + if Granted(log[|log| - 1], domain, from, to) then 1 else 0
  }

  /** The store counted the attempt before the window after its own had ended. */
  predicate Prompt(a: Attempt) {
    a.at < (BucketOf(a.now) + 2) * WINDOW_MS
  }

  predicate AllPrompt(log: seq<Attempt>) {
    forall a <- log :: Prompt(a)
  }

  /** Each attempt was granted exactly when it was within the first `rate` of its window. */
  ghost predicate Fair(log: seq<Attempt>) {
    forall i :: 0 <= i < |log| ==>
      (log[i].allowed <==> (Attempts(log[..i], KeyOf(log[i])) + 1) as real <= log[i].rate)
  }

  /** No attempt for the domain asked for a higher rate. */
  ghost predicate RatesBelow(log: seq<Attempt>, domain: string, rate: real) {
    forall a <- log :: a.domain == domain ==> a.rate <= rate
  }

  /** The store's counters are those of the log. */
  ghost predicate Counted(store: map<Key, Entry>, log: seq<Attempt>) {
    forall k: Key :: Attempts(log, k) == if k in store then store[k].count else 0
  }

  /** No key expires within a window of the end of its own. */
  ghost predicate KeptAlive(store: map<Key, Entry>) {
    forall k <- store :: store[k].expiresAt.Some? ==> store[k].expiresAt.value >= (k.bucket + 2) * WINDOW_MS
  }

  lemma {:induction false} AttemptsAppend(log: seq<Attempt>, a: Attempt, k: Key)
    ensures Attempts(log + [a], k) == Attempts(log, k) + if KeyOf(a) == k then 1 else 0
  {
    assert (log + [a])[..|log|] == log;
  }

  lemma {:induction false} FairAppend(log: seq<Attempt>, a: Attempt)
    requires Fair(log) && (a.allowed <==> (Attempts(log, KeyOf(a)) + 1) as real <= a.rate)
    ensures Fair(log + [a])
  {
    var more := log + [a];
    assert forall i :: 0 <= i < |log| ==> more[i] == log[i] && more[..i] == log[..i];
    assert more[..|log|] == log;
  }

  /** Counting an attempt in the store and in the log. */
  lemma {:induction false} CountedAppend(store: map<Key, Entry>, log: seq<Attempt>, a: Attempt, entry: Entry)
    requires Counted(store, log) && entry.count == Attempts(log, KeyOf(a)) + 1
    ensures Counted(store[KeyOf(a) := entry], log + [a])
  {
    forall k: Key
      ensures Attempts(log + [a], k) == if k in store[KeyOf(a) := entry] then store[KeyOf(a) := entry][k].count else 0
    {
      AttemptsAppend(log, a, k);
    }
  }

  // ---------- the limiter ----------

  class Limiter {
    var store: map<Key, Entry>
    ghost var log: seq<Attempt>

    /** While every attempt is prompt, the counters are those of the log: no expiry has reset one. */
    ghost predicate Valid()
      reads this
    {
      AllPrompt(log) ==> Fair(log) && Counted(store, log) && KeptAlive(store)
    }

    constructor ()
      ensures Valid() && log == []
    {
      store, log := map[], [];
    }

    predicate Live(k: Key, at: nat)
      reads this
    {
      k in store && (store[k].expiresAt.Some? ==> at < store[k].expiresAt.value)
    }

    /** INCR: a key that has expired counts from one again and never expires by itself. */
    method Incr(domain: string, rate: real, now: nat, at: nat) returns (count: nat)
      requires Valid()
      modifies this
      ensures Valid() && count > 0
      ensures log == old(log) + [Attempt(domain, now, at, rate, count as real <= rate)]
      ensures AllPrompt(log) ==> count == Attempts(old(log), Key(domain, BucketOf(now))) + 1
      ensures !old(Live(Key(domain, BucketOf(now)), at)) ==>
        count == 1 && store == old(store)[Key(domain, BucketOf(now)) := Entry(1, None)]
    {
      var k := Key(domain, BucketOf(now));
      var entry := if Live(k, at) then store[k] else Entry(0, None);
      count := entry.count + 1;
      ghost var a := Attempt(domain, now, at, rate, count as real <= rate);
      if AllPrompt(log + [a]) {
        assert AllPrompt(log) by {
          assert forall b <- log :: b in log + [a];
        }
        assert Prompt(a) by {
          assert a in log + [a];
        }
        assert at < (k.bucket + 2) * WINDOW_MS;
        CountedAppend(store, log, a, entry.(count := count));
        FairAppend(log, a);
      }
      store := store[k := entry.(count := count)];
      log := log + [a];
    }

    method Pexpire(k: Key, at: nat)
      requires Valid() && at >= k.bucket * WINDOW_MS
      modifies this`store
      ensures Valid()
      ensures old(Live(k, at)) ==>
        k in store && store == old(store)[k := old(store)[k].(expiresAt := Some(at + 2 * WINDOW_MS))]
    {
      if Live(k, at) {
        store := store[k := store[k].(expiresAt := Some(at + 2 * WINDOW_MS))];
      }
    }

    /** Commands of other workers. */
    method Others(commands: seq<Command>)
      requires Valid()
      requires forall c <- commands :: c.Expire? ==> c.at >= c.key.bucket * WINDOW_MS
      modifies this
      ensures Valid() && old(log) <= log
    {
      for i := 0 to |commands|
        invariant Valid() && old(log) <= log
      {
        match commands[i]
        case Count(domain, now, at, rate) =>
          var _ := Incr(domain, rate, now, at);
        case Expire(k, at) =>
          assert commands[i] in commands;
          Pexpire(k, at);
      }
    }

    /** Reserves a slot, with other workers' commands between the count and the expiry. */
    method Acquire(domain: string, ratePerSec: real, now: nat, at: nat, others: seq<Command>, later: nat)
      returns (allowed: bool, retryInMs: int)
      requires Valid() && now <= later
      requires forall c <- others :: c.Expire? ==> c.at >= c.key.bucket * WINDOW_MS
      modifies this
      ensures Valid() && old(log) + [Attempt(domain, now, at, ratePerSec, allowed)] <= log
      ensures allowed ==> retryInMs == 0
      ensures !allowed ==> 1 <= retryInMs <= WINDOW_MS && now + retryInMs == (BucketOf(now) + 1) * WINDOW_MS
    {
      var bucket := now / WINDOW_MS;
      var count := Incr(domain, ratePerSec, now, at);
      Others(others);
      if count == 1 {
        Pexpire(Key(domain, bucket), later);
      }
      if count as real <= ratePerSec {
        return true, 0;
      }
      var wait := (bucket + 1) * WINDOW_MS - now;
      return false, if wait < 1 then 1 else wait;
    }
  }

  // ---------- the bounds ----------

  /** The last attempt and those before it. */
  lemma FairPrefix(log: seq<Attempt>)
    requires Fair(log) && log != []
    ensures Fair(log[..|log| - 1])
  {
    var before := log[..|log| - 1];
    assert forall i :: 0 <= i < |before| ==> before[i] == log[i] && before[..i] == log[..i];
  }

  /** No more grants than attempts, nor than the rate, in one window. */
  lemma {:induction false} BucketBound(log: seq<Attempt>, domain: string, bucket: nat, rate: real)
    requires Fair(log) && RatesBelow(log, domain, rate) && rate >= 0.0
    ensures var grants := Grants(log, domain, bucket * WINDOW_MS, (bucket + 1) * WINDOW_MS);
      grants <= Attempts(log, Key(domain, bucket)) && grants <= rate.Floor
  {
    if log != [] {
      var before, last := log[..|log| - 1], log[|log| - 1];
      assert last in log && forall a <- before :: a in log;
      FairPrefix(log);
      BucketBound(before, domain, bucket, rate);
      if Granted(last, domain, bucket * WINDOW_MS, (bucket + 1) * WINDOW_MS) {
        assert KeyOf(last) == Key(domain, bucket);
      }
    }
  }

  lemma {:induction false} GrantsSplit(log: seq<Attempt>, domain: string, from: int, mid: int, to: int)
    requires from <= mid <= to
    ensures Grants(log, domain, from, to) == Grants(log, domain, from, mid) + Grants(log, domain, mid, to)
  {
    if log != [] {
      GrantsSplit(log[..|log| - 1], domain, from, mid, to);
    }
  }

  lemma {:induction false} BucketsBound(log: seq<Attempt>, domain: string, first: nat, n: nat, rate: real)
    requires Fair(log) && RatesBelow(log, domain, rate) && rate >= 0.0
    ensures Grants(log, domain, first * WINDOW_MS, (first + n) * WINDOW_MS) <= n * rate.Floor
    decreases n
  {
    if n == 0 {
      NoGrants(log, domain, first * WINDOW_MS);
    } else {
      BucketsBound(log, domain, first, n - 1, rate);
      BucketBound(log, domain, first + n - 1, rate);
      GrantsSplit(log, domain, first * WINDOW_MS, (first + n - 1) * WINDOW_MS, (first + n) * WINDOW_MS);
      assert n * rate.Floor == (n - 1) * rate.Floor + rate.Floor;
    }
  }

  lemma {:induction false} NoGrants(log: seq<Attempt>, domain: string, t: int)
    ensures Grants(log, domain, t, t) == 0
  {
    if log != [] {
      NoGrants(log[..|log| - 1], domain, t);
    }
  }

  /** In any `length` milliseconds at most ceil(length / 1000) + 1 windows' worth is granted. */
  lemma WindowBound(log: seq<Attempt>, domain: string, from: nat, length: nat, rate: real)
    requires Fair(log) && RatesBelow(log, domain, rate) && rate >= 0.0
    ensures Grants(log, domain, from, from + length) <= ((length + WINDOW_MS - 1) / WINDOW_MS + 1) * rate.Floor
  {
    var first, n := from / WINDOW_MS, (length + WINDOW_MS - 1) / WINDOW_MS + 1;
    BucketsBound(log, domain, first, n, rate);
    assert first * WINDOW_MS <= from && from + length <= (first + n) * WINDOW_MS;
    GrantsSplit(log, domain, first * WINDOW_MS, from, (first + n) * WINDOW_MS);
    GrantsSplit(log, domain, from, from + length, (first + n) * WINDOW_MS);
  }

  /** In any second at most twice the rate is granted. */
  lemma SecondBound(log: seq<Attempt>, domain: string, from: nat, rate: real)
    requires Fair(log) && RatesBelow(log, domain, rate) && rate >= 0.0
    ensures Grants(log, domain, from, from + WINDOW_MS) <= 2 * rate.Floor
  {
    WindowBound(log, domain, from, WINDOW_MS, rate);
  }

  /** What the limiter's invariant means for its log. */
  lemma LimiterBound(l: Limiter, domain: string, from: nat, length: nat, rate: real)
    requires l.Valid() && AllPrompt(l.log) && RatesBelow(l.log, domain, rate) && rate >= 0.0
    ensures Grants(l.log, domain, from, from + length) <= ((length + WINDOW_MS - 1) / WINDOW_MS + 1) * rate.Floor
  {
    WindowBound(l.log, domain, from, length, rate);
  }

  /** Requests for one slot a second, all granted. */
  function Burst(domain: string, now: nat, rate: real, n: nat): (log: seq<Attempt>)
    ensures |log| == n && forall a <- log :: a == Attempt(domain, now, now, rate, true)
  {
    seq(n, i => Attempt(domain, now, now, rate, true))
  }

  /** Bursts at a window's end and at the next one's start. */
  function TwoBursts(domain: string, rate: real, n: nat): (log: seq<Attempt>)
    ensures |log| == 2 * n
  {
    Burst(domain, WINDOW_MS - 1, rate, n) + Burst(domain, WINDOW_MS, rate, n)
  }

  lemma {:induction false} TwoBurstsCount(domain: string, rate: real, n: nat, i: nat)
    requires i <= 2 * n
    ensures var log := TwoBursts(domain, rate, n)[..i];
      && Attempts(log, Key(domain, 0)) == (if i < n then i else n)
      && Attempts(log, Key(domain, 1)) == (if i < n then 0 else i - n)
      && Grants(log, domain, WINDOW_MS - 1, 2 * WINDOW_MS - 1) == i
  {
    if i > 0 {
      var log := TwoBursts(domain, rate, n);
      TwoBurstsCount(domain, rate, n, i - 1);
      assert log[..i][..i - 1] == log[..i - 1];
      assert log[i - 1] == Attempt(domain, if i - 1 < n then WINDOW_MS - 1 else WINDOW_MS,
                                   if i - 1 < n then WINDOW_MS - 1 else WINDOW_MS, rate, true);
    }
  }

  lemma TwoBurstsFair(domain: string, rate: real, n: nat)
    requires n as real <= rate
    ensures Fair(TwoBursts(domain, rate, n))
  {
    var log := TwoBursts(domain, rate, n);
    forall i | 0 <= i < |log|
      ensures log[i].allowed <==> (Attempts(log[..i], KeyOf(log[i])) + 1) as real <= log[i].rate
    {
      TwoBurstsCount(domain, rate, n, i);
      var now := if i < n then WINDOW_MS - 1 else WINDOW_MS;
      assert log[i] == Attempt(domain, now, now, rate, true);
      assert BucketOf(now) == if i < n then 0 else 1;
    }
  }

  /** The bound of twice the rate is met at every rate: a full window's end and the next one's start. */
  lemma SecondBoundIsTight(domain: string, rate: real) returns (log: seq<Attempt>)
    requires rate >= 0.0
    ensures Fair(log) && AllPrompt(log) && RatesBelow(log, domain, rate)
    ensures Grants(log, domain, WINDOW_MS - 1, 2 * WINDOW_MS - 1) == 2 * rate.Floor
  {
    var n: nat := rate.Floor;
    log := TwoBursts(domain, rate, n);
    TwoBurstsFair(domain, rate, n);
    TwoBurstsCount(domain, rate, n, 2 * n);
    assert log[..2 * n] == log;
  }

  /** The promptness is needed: a count that reaches the store when the window's key has expired starts
      its window again. */
  method LateCount(domain: string) returns (l: Limiter)
    ensures fresh(l) && l.Valid() && RatesBelow(l.log, domain, 1.0)
    ensures Grants(l.log, domain, 0, WINDOW_MS) == 2
  {
    l := new Limiter();
    var first := l.Incr(domain, 1.0, 0, 0);
    l.Pexpire(Key(domain, 0), 0);
    var second := l.Incr(domain, 1.0, WINDOW_MS - 1, 2 * WINDOW_MS);
    ghost var a, b := Attempt(domain, 0, 0, 1.0, true), Attempt(domain, WINDOW_MS - 1, 2 * WINDOW_MS, 1.0, true);
    assert [] + [a] == [a] && [a] + [b] == [a, b];
    assert l.log == [a, b];
    assert [a, b][..1] == [a] && [a][..0] == [];
    assert Grants([a], domain, 0, WINDOW_MS) == 1;
  }
}
