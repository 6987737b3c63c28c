// The fixed-window rate limiter, and the login check that counts an address and a name.
// Clocks run in milliseconds, as the counters' expiries do; limits and windows are settings.

module RateLimitSpec {
  import opened Basics

  datatype Counter = Counter(count: nat, exp: Option<int>)

  type Store = map<string, Counter>

  const SECOND := 1000

  datatype Result = Result(allowed: bool, retryAfter: int)

  predicate Live(s: Store, key: string, now: int) {
    key in s && (s[key].exp.Some? ==> now < s[key].exp.value)
  }

  // INCR: an expired counter is gone, and a new one starts without an expiry.
  function Incremented(s: Store, key: string, now: int): Counter {
    if Live(s, key, now) then Counter(s[key].count + 1, s[key].exp) else Counter(1, None)
  }

  // EXPIRE NX: sets an expiry only where there is none.
  function ExpireNx(c: Counter, window: nat, now: int): Counter {
    if c.exp.None? then c.(exp := Some(now + window * SECOND)) else c
  }

  // TTL: the remaining time in seconds, rounded to the nearest.
  function Ttl(c: Counter, now: int): int {
    if c.exp.None? then -1 else (c.exp.value - now + SECOND / 2) / SECOND
  }

  function Counted(s: Store, key: string, window: nat, now: int): Counter {
    ExpireNx(Incremented(s, key, now), window, now)
  }

  function Hit(s: Store, key: string, window: nat, now: int): Store {
    s[key := Counted(s, key, window, now)]
  }

  function Verdict(c: Counter, limit: int, window: nat, now: int): Result {
    if c.count <= limit then Result(true, 0)
    else Result(false, if Ttl(c, now) > 0 then Ttl(c, now) else window)
  }

  // Every counter in the store has counted something and has an expiry.
  ghost predicate NoOrphans(s: Store) {
    forall key :: key in s ==> s[key].count >= 1 && s[key].exp.Some?
  }

  // What the key has counted in its current window.
  function LiveCount(s: Store, key: string, now: int): nat {
    if Live(s, key, now) then s[key].count else 0
  }

  // A hit is allowed exactly if fewer than the limit came before it in the window.
  lemma AllowedIffBelow(s: Store, key: string, limit: int, window: nat, now: int)
    ensures Verdict(Counted(s, key, window, now), limit, window, now).allowed <==> LiveCount(s, key, now) < limit
  {
  }

  // ---------------------------------------------------------------------------------------
  // Runs
  // ---------------------------------------------------------------------------------------

  datatype Command = Count(key: string, limit: int, window: nat, at: int) | Clear(key: string, at: int)

  function Apply(s: Store, c: Command): Store {
    match c
    case Count(key, _, window, at) => Hit(s, key, window, at)
    case Clear(key, _) => s - {key}
  }

  function After(s: Store, cs: seq<Command>): Store {
    if cs == [] then s else Apply(After(s, cs[..|cs| - 1]), cs[|cs| - 1])
  }

  // The command is an allowed hit on the key inside the interval.
  predicate Allows(s: Store, c: Command, key: string, from: int, to: int) {
    && c.Count? && c.key == key && from <= c.at < to
    && Verdict(Counted(s, key, c.window, c.at), c.limit, c.window, c.at).allowed
  }

  function Allowed(s: Store, cs: seq<Command>, key: string, from: int, to: int): nat {
    if cs == [] then 0
    else
      var rest, c := cs[..|cs| - 1], cs[|cs| - 1];
      Allowed(s, rest, key, from, to) + if Allows(After(s, rest), c, key, from, to) then 1 else 0
  }

  predicate Ordered(cs: seq<Command>, now: int) {
    && (forall i :: 0 <= i < |cs| ==> now <= cs[i].at)
    && (forall i, j :: 0 <= i < j < |cs| ==> cs[i].at <= cs[j].at)
  }

  // Every hit on the key uses this limit and window.
  predicate Uniform(c: Command, key: string, limit: int, window: nat) {
    c.Count? && c.key == key ==> c.limit == limit && c.window == window
  }

  predicate Steady(cs: seq<Command>, key: string, limit: int, window: nat) {
    forall i :: 0 <= i < |cs| ==> Uniform(cs[i], key, limit, window) && cs[i] != Clear(key, cs[i].at)
  }

  function Last(cs: seq<Command>, now: int): int {
    if cs == [] then now else cs[|cs| - 1].at
  }

  // A reset key starts anew: it admits `limit` hits at once, and other keys keep their counters.
  lemma ResetStartsAnew(s: Store, key: string, limit: nat, window: nat, now: int, at: int)
    requires limit > 0 && window > 0
    ensures Allowed(Apply(s, Clear(key, now)), Burst(key, limit, window, at, limit), key, at, at + 1) == limit
    ensures forall k :: k != key ==> (k in Apply(s, Clear(key, now)) <==> k in s)
    ensures forall k :: k != key && k in s ==> Apply(s, Clear(key, now))[k] == s[k]
  {
    BurstIsAllowed(Apply(s, Clear(key, now)), key, limit, window, at, limit, at, at + 1);
  }

  // No run leaves a counter without an expiry.
  lemma {:induction false} NoOrphansEver(s: Store, cs: seq<Command>)
    requires NoOrphans(s)
    ensures NoOrphans(After(s, cs))
  {
    if cs != [] {
      NoOrphansEver(s, cs[..|cs| - 1]);
    }
  }

  // ---------------------------------------------------------------------------------------
  // How much one interval of the window's length lets through
  // ---------------------------------------------------------------------------------------

  function Min(x: int, y: int): int { if x <= y then x else y }

  // What the current window of the key says about the hits allowed so far in
  // [from, from + window). A window that started before the interval spent its first hit outside.
  ghost predicate Budget(s: Store, key: string, limit: int, window: nat, from: int, now: int, allowed: nat) {
    if limit <= 0 then allowed == 0
    else if key !in s then allowed == 0
    else
      && s[key].count >= 1 && s[key].exp.Some?
      && var length := window * SECOND;
         var start := s[key].exp.value - length;
         && start <= now
         && (start < from ==> allowed <= Min(s[key].count, limit) - 1)
         && (start == from ==> allowed <= Min(s[key].count, limit))
         && (from < start < from + length ==> allowed <= limit - 1 + Min(s[key].count, limit))
         && (start >= from + length ==> allowed <= 2 * limit - 1)
         && (s[key].exp.value <= from ==> allowed == 0)
  }

  lemma BudgetBounds(s: Store, key: string, limit: int, window: nat, from: int, now: int, allowed: nat)
    requires Budget(s, key, limit, window, from, now, allowed)
    ensures allowed <= if limit <= 0 then 0 else 2 * limit - 1
  {
  }

  lemma BudgetStarts(s: Store, key: string, limit: int, window: nat, from: int, now: int)
    requires NoOrphans(s) && (key in s ==> s[key].exp.value <= now + window * SECOND)
    ensures Budget(s, key, limit, window, from, now, 0)
  {
  }

  lemma BudgetNext(s: Store, c: Command, key: string, limit: int, window: nat, from: int, now: int, allowed: nat)
    requires Budget(s, key, limit, window, from, now, allowed) && now <= c.at && window > 0
    requires Uniform(c, key, limit, window) && c != Clear(key, c.at)
    ensures
      var more := if Allows(s, c, key, from, from + window * SECOND) then 1 else 0;
      Budget(Apply(s, c), key, limit, window, from, c.at, allowed + more)
  {
  }

  lemma {:induction false} BudgetAfter(s: Store, cs: seq<Command>, key: string, limit: int, window: nat, from: int,
      now: int)
    requires Budget(s, key, limit, window, from, now, 0) && window > 0
    requires Ordered(cs, now) && Steady(cs, key, limit, window)
    ensures Budget(After(s, cs), key, limit, window, from, Last(cs, now),
                   Allowed(s, cs, key, from, from + window * SECOND))
  {
    if cs != [] {
      var rest, c := cs[..|cs| - 1], cs[|cs| - 1];
      BudgetAfter(s, rest, key, limit, window, from, now);
      BudgetNext(After(s, rest), c, key, limit, window, from, Last(rest, now),
                 Allowed(s, rest, key, from, from + window * SECOND));
    }
  }

  // In any run in which the key is not reset, no interval as long as the window lets more than
  // 2 * limit - 1 hits through.
  lemma WindowBound(s: Store, cs: seq<Command>, key: string, limit: int, window: nat, from: int, now: int)
    requires NoOrphans(s) && (key in s ==> s[key].exp.value <= now + window * SECOND) && window > 0
    requires Ordered(cs, now) && Steady(cs, key, limit, window)
    ensures Allowed(s, cs, key, from, from + window * SECOND) <= if limit <= 0 then 0 else 2 * limit - 1
  {
    BudgetStarts(s, key, limit, window, from, now);
    BudgetAfter(s, cs, key, limit, window, from, now);
    BudgetBounds(After(s, cs), key, limit, window, from, Last(cs, now),
        Allowed(s, cs, key, from, from + window * SECOND));
  }

  // `n` hits on the key at one moment.
  function Burst(key: string, limit: int, window: nat, at: int, n: nat): seq<Command> {
    seq(n, _ => Count(key, limit, window, at))
  }

  lemma {:induction false} BurstIsAllowed(s: Store, key: string, limit: int, window: nat, at: int, n: nat, from: int,
      to: int)
    requires !Live(s, key, at) || s[key].exp.Some?
    requires (if Live(s, key, at) then s[key].count else 0) + n <= limit && window > 0 && n > 0
    ensures
      var t := After(s, Burst(key, limit, window, at, n));
      && key in t && t[key].count == (if Live(s, key, at) then s[key].count else 0) + n
      && t[key].exp == (if Live(s, key, at) then s[key].exp else Some(at + window * SECOND))
      && Allowed(s, Burst(key, limit, window, at, n), key, from, to) == if from <= at < to then n else 0
  {
    var b := Burst(key, limit, window, at, n);
    assert b[..n - 1] == Burst(key, limit, window, at, n - 1);
    if n > 1 {
      BurstIsAllowed(s, key, limit, window, at, n - 1, from, to);
    }
  }

  lemma {:induction false} AfterJoin(s: Store, cs: seq<Command>, ds: seq<Command>, key: string, from: int, to: int)
    ensures After(s, cs + ds) == After(After(s, cs), ds)
    ensures Allowed(s, cs + ds, key, from, to) ==
            Allowed(s, cs, key, from, to) + Allowed(After(s, cs), ds, key, from, to)
    decreases |ds|
  {
    hide Apply, Allows;
    if ds == [] {
      assert cs + ds == cs;
    } else {
      var all, rest := cs + ds, ds[..|ds| - 1];
      assert all[..|all| - 1] == cs + rest && all[|all| - 1] == ds[|ds| - 1];
      AfterJoin(s, cs, rest, key, from, to);
    }
  }

  // The hits that reach the bound: one, the rest of its window at the end, and a whole new window.
  function Straddle(key: string, limit: nat, window: nat): seq<Command>
    requires limit > 0 && window > 0
  {
    Burst(key, limit, window, 0, 1)
    + (Burst(key, limit, window, window * SECOND - 1, limit - 1) + Burst(key, limit, window, window * SECOND, limit))
  }

  lemma StraddleIsARun(key: string, limit: nat, window: nat)
    requires limit > 0 && window > 0
    ensures Ordered(Straddle(key, limit, window), 0) && Steady(Straddle(key, limit, window), key, limit, window)
  {
  }

  lemma EndOfWindow(s: Store, key: string, limit: nat, window: nat, from: int, to: int)
    requires limit > 0 && window > 0 && key in s && s[key] == Counter(1, Some(window * SECOND))
    requires from == window * SECOND - 1 && from < to
    ensures
      var b := Burst(key, limit, window, from, limit - 1);
      Allowed(s, b, key, from, to) == limit - 1 && !Live(After(s, b), key, window * SECOND)
  {
    hide After, Allowed;
    if limit > 1 {
      BurstIsAllowed(s, key, limit, window, from, limit - 1, from, to);
    } else {
      EmptyBurst(s, key, limit, window, from, to);
    }
  }

  lemma StraddleAllowed(key: string, limit: nat, window: nat, from: int, to: int)
    requires limit > 0 && window > 0 && from == window * SECOND - 1 && to == from + window * SECOND
    ensures Allowed(map[], Straddle(key, limit, window), key, from, to) == 2 * limit - 1
  {
    hide After, Allowed, Burst;
    var b0 := Burst(key, limit, window, 0, 1);
    var b1 := Burst(key, limit, window, window * SECOND - 1, limit - 1);
    var b2 := Burst(key, limit, window, window * SECOND, limit);
    BurstIsAllowed(map[], key, limit, window, 0, 1, from, to);
    var s1 := After(map[], b0);
    EndOfWindow(s1, key, limit, window, from, to);
    var s2 := After(s1, b1);
    BurstIsAllowed(s2, key, limit, window, window * SECOND, limit, from, to);
    AfterJoin(s1, b1, b2, key, from, to);
    AfterJoin(map[], b0, b1 + b2, key, from, to);
  }

  lemma EmptyBurst(s: Store, key: string, limit: int, window: nat, from: int, to: int)
    ensures After(s, Burst(key, limit, window, from, 0)) == s
    ensures Allowed(s, Burst(key, limit, window, from, 0), key, from, to) == 0
  {
  }

  // The bound is reached for every limit and window.
  lemma WindowBoundIsReached(key: string, limit: nat, window: nat)
    requires limit > 0 && window > 0
    ensures Ordered(Straddle(key, limit, window), 0) && Steady(Straddle(key, limit, window), key, limit, window)
    ensures Allowed(map[], Straddle(key, limit, window), key, window * SECOND - 1, 2 * window * SECOND - 1) ==
            2 * limit - 1
  {
    StraddleIsARun(key, limit, window);
    StraddleAllowed(key, limit, window, window * SECOND - 1, 2 * window * SECOND - 1);
  }

  // ---------------------------------------------------------------------------------------
  // When a denied key admits again
  // ---------------------------------------------------------------------------------------

  // Until the counter's expiry every hit on the key is denied, whatever else happens.
  lemma {:induction false} DeniedUntilExpiry(s: Store, cs: seq<Command>, key: string, limit: int, window: nat, now: int)
    requires key in s && s[key].exp.Some? && s[key].count >= limit
    requires Ordered(cs, now) && Steady(cs, key, limit, window) && Last(cs, now) < s[key].exp.value
    ensures key in After(s, cs) && After(s, cs)[key].exp == s[key].exp && After(s, cs)[key].count >= limit
    ensures Allowed(s, cs, key, now, s[key].exp.value) == 0
  {
    if cs != [] {
      var rest, c := cs[..|cs| - 1], cs[|cs| - 1];
      assert rest == [] || rest[|rest| - 1].at <= c.at;
      DeniedUntilExpiry(s, rest, key, limit, window, now);
      assert Uniform(c, key, limit, window);
    }
  }

  // A denied hit at `now`, then any commands that do not reset the key and come before its
  // expiry, then a hit at `t`: it is allowed exactly when the expiry has come.
  lemma AdmitsAtExpiry(s: Store, cs: seq<Command>, key: string, limit: int, window: nat, now: int, t: int)
    requires NoOrphans(s) && window > 0 && limit >= 1
    requires !Verdict(Counted(s, key, window, now), limit, window, now).allowed
    requires
      var exp := Hit(s, key, window, now)[key].exp.value;
      Ordered(cs, now) && Steady(cs, key, limit, window) && Last(cs, now) < exp && Last(cs, now) <= t
    ensures
      var later := After(Hit(s, key, window, now), cs);
      Verdict(Counted(later, key, window, t), limit, window, t).allowed <==>
          t >= Hit(s, key, window, now)[key].exp.value
  {
    DeniedUntilExpiry(Hit(s, key, window, now), cs, key, limit, window, now);
  }

  // What a denied hit reports, against the time that is left. It is never early by half a
  // second or more, waiting that long is enough exactly under the condition, and it is the
  // exact time when the time left is whole seconds.
  lemma RetryAfterIsRounded(c: Counter, limit: int, window: nat, now: int)
    requires c.exp.Some? && now < c.exp.value <= now + window * SECOND && !Verdict(c, limit, window, now).allowed
    ensures
      var left := c.exp.value - now;
      var wait := Verdict(c, limit, window, now).retryAfter * SECOND;
      && (wait >= left <==> left < SECOND / 2 || left % SECOND == 0 || left % SECOND >= SECOND / 2)
      && (wait == left <==> left % SECOND == 0)
      && left - SECOND / 2 < wait <= window * SECOND
  {
  }

  // Half a second can be missing: the client that waits as told is denied once more.
  lemma RetryAfterCanBeEarly(key: string)
    ensures
      var s := Hit(map[], key, 60, 0);
      var denied := Verdict(Counted(s, key, 60, 600), 1, 60, 600);
      var retry := 600 + denied.retryAfter * SECOND;
      !denied.allowed && !Verdict(Counted(Hit(s, key, 60, 600), key, 60, retry), 1, 60, retry).allowed
  {
    var s := Hit(map[], key, 60, 0);
    assert Verdict(Counted(s, key, 60, 600), 1, 60, 600) == Result(false, 59);
  }
}

// Logins and registrations as interleaved commands on one store.
module LoginLimits {
  import opened Basics
  import opened RateLimitSpec

  datatype Config = Config(prefix: string, ipLimit: int, userLimit: int, window: nat, registerLimit: int,
      registerWindow: nat)

  // Addresses and lower-cased names are texts.
  function IpKey(cfg: Config, ip: string): string { cfg.prefix + ":rl:login-ip:" + ip }

  function UserKey(cfg: Config, ip: string, name: string): string { cfg.prefix + ":rl:login:" + (ip + ":" + name) }

  function RegisterKey(cfg: Config, ip: string): string { cfg.prefix + ":rl:register:" + ip }

  lemma KeysApart(cfg: Config, ip: string, other: string, name: string)
    ensures IpKey(cfg, ip) != UserKey(cfg, other, name)
    ensures IpKey(cfg, ip) != RegisterKey(cfg, other)
    ensures IpKey(cfg, ip) == IpKey(cfg, other) ==> ip == other
  {
    var p, i, u, r := |cfg.prefix|, IpKey(cfg, ip), UserKey(cfg, other, name), RegisterKey(cfg, other);
    assert i[p + 9] == '-' && u[p + 9] == ':' && i[p + 4] == 'l' && r[p + 4] == 'r';
    assert i[p + 13..] == ip && IpKey(cfg, other)[p + 13..] == other;
  }

  // Two pairs of an address and a name share a counter only if one address holds a colon and the
  // other name does too.
  lemma UserKeysApart(cfg: Config, ip: string, name: string, ip': string, name': string)
    requires UserKey(cfg, ip, name) == UserKey(cfg, ip', name')
    ensures (ip == ip' && name == name') || (':' in ip && ':' in name') || (':' in ip' && ':' in name)
  {
    var p, s, t := |cfg.prefix| + 10, ip + ":" + name, ip' + ":" + name';
    assert UserKey(cfg, ip, name)[p..] == s && UserKey(cfg, ip', name')[p..] == t;
    if |ip| < |ip'| {
      assert ip'[|ip|] == t[|ip|] == s[|ip|] == ':';
      assert name[|ip'| - |ip| - 1] == s[|ip'|] == t[|ip'|] == ':';
    } else if |ip'| < |ip| {
      assert ip[|ip'|] == s[|ip'|] == t[|ip'|] == ':';
      assert name'[|ip| - |ip'| - 1] == t[|ip|] == s[|ip|] == ':';
    } else {
      assert s[..|ip|] == ip && t[..|ip'|] == ip';
      assert s[|ip| + 1..] == name && t[|ip'| + 1..] == name';
    }
  }

  // Another pair, with an address that can occur, has the same counter.
  ghost predicate Shared(cfg: Config, address: string -> bool, ip: string, name: string) {
    exists ip', name' :: address(ip') && (ip', name') != (ip, name)
        && UserKey(cfg, ip', name') == UserKey(cfg, ip, name)
  }

  // A colon of the address, or of the name, behind which the text could start anew.
  ghost predicate Splits(address: string -> bool, ip: string, name: string) {
    || (exists i :: 0 <= i < |ip| && ip[i] == ':' && address(ip[..i]))
    || (exists i :: 0 <= i < |name| && name[i] == ':' && address(ip + ":" + name[..i]))
  }

  // Where a colon splits the joined text anew, another pair shares the counter.
  lemma UserKeysMeet(cfg: Config, ip: string, name: string, i: nat)
    requires (i < |ip| && ip[i] == ':') || (|ip| < i <= |ip| + |name| && name[i - |ip| - 1] == ':')
    ensures
      var s := ip + ":" + name;
      s[..i] != ip && UserKey(cfg, s[..i], s[i + 1..]) == UserKey(cfg, ip, name)
  {
    var s := ip + ":" + name;
    assert s[i] == ':';
    assert s[..i] + ":" + s[i + 1..] == s;
  }

  lemma SharedSplits(cfg: Config, address: string -> bool, ip: string, name: string, ip': string, name': string)
    requires address(ip') && UserKey(cfg, ip', name') == UserKey(cfg, ip, name)
    ensures (ip == ip' && name == name') || Splits(address, ip, name)
  {
    var p, s, t := |cfg.prefix| + 10, ip + ":" + name, ip' + ":" + name';
    assert UserKey(cfg, ip, name)[p..] == s && UserKey(cfg, ip', name')[p..] == t;
    if |ip'| < |ip| {
      assert ip[..|ip'|] == s[..|ip'|] == t[..|ip'|] == ip';
      assert ip[|ip'|] == s[|ip'|] == t[|ip'|] == ':';
    } else if |ip| < |ip'| {
      var i := |ip'| - |ip| - 1;
      assert ip'[|ip|] == t[|ip|] == s[|ip|] == ':';
      assert name[i] == s[|ip'|] == t[|ip'|] == ':';
      assert ip + ":" + name[..i] == s[..|ip'|] == t[..|ip'|] == ip';
    } else {
      assert s[..|ip|] == ip && t[..|ip'|] == ip';
      assert s[|ip| + 1..] == name && t[|ip'| + 1..] == name';
    }
  }

  // Whatever addresses can occur: the counter of an address and a name is shared with another pair
  // exactly if a front part of the joined text, up to another colon, is an address too.
  lemma UserKeyIsSharedIff(cfg: Config, address: string -> bool, ip: string, name: string)
    ensures Shared(cfg, address, ip, name) <==> Splits(address, ip, name)
    ensures address(ip) && (forall a :: address(a) ==> ':' !in a) ==> !Shared(cfg, address, ip, name)
  {
    var s := ip + ":" + name;
    if i :| 0 <= i < |ip| && ip[i] == ':' && address(ip[..i]) {
      UserKeysMeet(cfg, ip, name, i);
      assert s[..i] == ip[..i];
    } else if i :| 0 <= i < |name| && name[i] == ':' && address(ip + ":" + name[..i]) {
      UserKeysMeet(cfg, ip, name, |ip| + 1 + i);
      assert s[..|ip| + 1 + i] == ip + ":" + name[..i];
    }
    forall ip', name' | address(ip') && (ip', name') != (ip, name) && UserKey(cfg, ip', name') == UserKey(cfg, ip, name)
      ensures Splits(address, ip, name)
    {
      SharedSplits(cfg, address, ip, name, ip', name');
    }
    assert forall i :: 0 <= i < |name| ==> ':' in ip + ":" + name[..i];
    assert forall i :: 0 <= i < |ip| && ip[i] == ':' ==> ':' in ip;
  }

  // Two IPv6 addresses do share one: a name that looks like the rest of the longer address.
  lemma SharedByTwoAddresses(cfg: Config)
    ensures UserKey(cfg, "1::2", "3:bob") == UserKey(cfg, "1::2:3", "bob")
  {
    assert "1::2" + ":" + "3:bob" == "1::2:3" + ":" + "bob";
  }

  // A login attempt counts its address first; if that is allowed it counts, later, the address
  // and name. `attempt` is the position of the attempt's first count in the run. A successful
  // login resets its address and name.
  datatype Event =
    | CountIp(ip: string, name: string, at: int)
    | CountUser(attempt: nat, at: int)
    | Success(ip: string, name: string, at: int)
    | Registration(ip: string, at: int)

  predicate WellFormed(es: seq<Event>) {
    forall i :: 0 <= i < |es| ==> es[i].CountUser? ==> es[i].attempt < i && es[es[i].attempt].CountIp?
  }

  function CommandOf(cfg: Config, es: seq<Event>, i: nat): Command
    requires WellFormed(es) && i < |es|
  {
    match es[i]
    case CountIp(ip, _, at) => Count(IpKey(cfg, ip), cfg.ipLimit, cfg.window, at)
    case CountUser(k, at) => Count(UserKey(cfg, es[k].ip, es[k].name), cfg.userLimit, cfg.window, at)
    case Success(ip, name, at) => Clear(UserKey(cfg, ip, name), at)
    case Registration(ip, at) => Count(RegisterKey(cfg, ip), cfg.registerLimit, cfg.registerWindow, at)
  }

  function Commands(cfg: Config, es: seq<Event>): seq<Command>
    requires WellFormed(es)
  {
    seq(|es|, i requires 0 <= i < |es| => CommandOf(cfg, es, i))
  }

  // The count at position `i` was allowed.
  predicate AllowedAt(s: Store, cs: seq<Command>, i: nat)
    requires i < |cs| && cs[i].Count?
  {
    Verdict(Counted(After(s, cs[..i]), cs[i].key, cs[i].window, cs[i].at), cs[i].limit, cs[i].window, cs[i].at).allowed
  }

  // Both counts of the attempt were allowed, and the first came in the interval.
  ghost predicate Passed(cfg: Config, s: Store, es: seq<Event>, i: nat, ip: string, from: int, to: int)
    requires WellFormed(es)
  {
    && i < |es| && es[i].CountIp? && es[i].ip == ip && from <= es[i].at < to
    && AllowedAt(s, Commands(cfg, es), i)
    && exists j :: i < j < |es| && es[j].CountUser? && es[j].attempt == i && AllowedAt(s, Commands(cfg, es), j)
  }

  ghost function PassedLogins(cfg: Config, s: Store, es: seq<Event>, ip: string, from: int, to: int): set<nat>
    requires WellFormed(es)
  {
    set i: nat | i < |es| && Passed(cfg, s, es, i, ip, from, to)
  }

  ghost function AllowedHits(s: Store, cs: seq<Command>, key: string, from: int, to: int): set<nat> {
    set i: nat | i < |cs| && Allows(After(s, cs[..i]), cs[i], key, from, to)
  }

  lemma HitsOfPrefix(s: Store, cs: seq<Command>, key: string, from: int, to: int)
    requires cs != []
    ensures
      var n := |cs| - 1;
      var before := AllowedHits(s, cs[..n], key, from, to);
      && n !in before
      && AllowedHits(s, cs, key, from, to) ==
         before + if Allows(After(s, cs[..n]), cs[n], key, from, to) then {n} else {}
  {
    hide After, Allows;
    var rest := cs[..|cs| - 1];
    forall i: nat | i < |rest| ensures cs[..i] == rest[..i] {
    }
  }

  lemma {:induction false} AllowedIsCardinality(s: Store, cs: seq<Command>, key: string, from: int, to: int)
    ensures |AllowedHits(s, cs, key, from, to)| == Allowed(s, cs, key, from, to)
  {
    hide After, Allows, AllowedHits;
    if cs == [] {
      NoHits(s, key, from, to);
    } else {
      HitsOfPrefix(s, cs, key, from, to);
      AllowedIsCardinality(s, cs[..|cs| - 1], key, from, to);
    }
  }

  lemma NoHits(s: Store, key: string, from: int, to: int)
    ensures AllowedHits(s, [], key, from, to) == {}
  {
  }

  lemma IpKeyIsSteady(cfg: Config, es: seq<Event>, ip: string)
    requires WellFormed(es)
    ensures Steady(Commands(cfg, es), IpKey(cfg, ip), cfg.ipLimit, cfg.window)
  {
    var cs := Commands(cfg, es);
    forall i | 0 <= i < |cs|
      ensures Uniform(cs[i], IpKey(cfg, ip), cfg.ipLimit, cfg.window) && cs[i] != Clear(IpKey(cfg, ip), cs[i].at)
    {
      match es[i]
      case CountIp(_, _, _) =>
      case CountUser(k, _) => KeysApart(cfg, ip, es[k].ip, es[k].name);
      case Success(other, name, _) => KeysApart(cfg, ip, other, name);
      case Registration(other, _) => KeysApart(cfg, ip, other, "");
    }
  }

  lemma PassedIsAllowed(cfg: Config, s: Store, es: seq<Event>, ip: string, from: int, to: int, i: nat)
    requires WellFormed(es) && i < |es| && Passed(cfg, s, es, i, ip, from, to)
    ensures i in AllowedHits(s, Commands(cfg, es), IpKey(cfg, ip), from, to)
  {
    hide After, Verdict, Counted, IpKey, UserKey, RegisterKey;
    assert Commands(cfg, es)[i] == CommandOf(cfg, es, i);
  }

  // However attempts, successes and registrations interleave, no interval as long as the window
  // lets one address start more than 2 * limit - 1 attempts that pass: resets do not help it.
  lemma LoginsPerAddress(cfg: Config, s: Store, es: seq<Event>, ip: string, from: int, now: int)
    requires WellFormed(es) && Ordered(Commands(cfg, es), now) && cfg.window > 0 && cfg.ipLimit > 0
    requires NoOrphans(s) && (IpKey(cfg, ip) in s ==> s[IpKey(cfg, ip)].exp.value <= now + cfg.window * SECOND)
    ensures |PassedLogins(cfg, s, es, ip, from, from + cfg.window * SECOND)| <= 2 * cfg.ipLimit - 1
  {
    hide After, Allowed, AllowedHits, Passed, Commands, IpKey;
    var cs, key, to := Commands(cfg, es), IpKey(cfg, ip), from + cfg.window * SECOND;
    IpKeyIsSteady(cfg, es, ip);
    WindowBound(s, cs, key, cfg.ipLimit, cfg.window, from, now);
    AllowedIsCardinality(s, cs, key, from, to);
    forall i | i in PassedLogins(cfg, s, es, ip, from, to) ensures i in AllowedHits(s, cs, key, from, to) {
      PassedIsAllowed(cfg, s, es, ip, from, to, i);
    }
    SubsetSize(PassedLogins(cfg, s, es, ip, from, to), AllowedHits(s, cs, key, from, to));
  }

  // ---------------------------------------------------------------------------------------
  // The bound for one address and name
  // ---------------------------------------------------------------------------------------

  lemma RegisterKeyApart(cfg: Config, ip: string, name: string, other: string)
    ensures UserKey(cfg, ip, name) != RegisterKey(cfg, other)
  {
    var p, u, r := |cfg.prefix|, UserKey(cfg, ip, name), RegisterKey(cfg, other);
    assert u[p + 4] == 'l' && r[p + 4] == 'r';
  }

  // The second counts of attempts for the pair that passed in the interval.
  ghost function PassedForPair(cfg: Config, s: Store, es: seq<Event>, ip: string, name: string, from: int, to: int):
    set<nat>
    requires WellFormed(es)
  {
    set j: nat | j < |es| && SecondPasses(cfg, s, es, j, ip, name, from, to)
  }

  predicate SecondPasses(cfg: Config, s: Store, es: seq<Event>, j: nat, ip: string, name: string, from: int, to: int)
    requires WellFormed(es)
  {
    && j < |es| && es[j].CountUser? && from <= es[j].at < to
    && es[es[j].attempt].ip == ip && es[es[j].attempt].name == name
    && AllowedAt(s, Commands(cfg, es), j)
  }

  predicate NoResetOf(cfg: Config, es: seq<Event>, key: string) {
    forall i :: 0 <= i < |es| && es[i].Success? ==> UserKey(cfg, es[i].ip, es[i].name) != key
  }

  lemma UserKeyIsSteady(cfg: Config, es: seq<Event>, ip: string, name: string)
    requires WellFormed(es) && NoResetOf(cfg, es, UserKey(cfg, ip, name))
    ensures Steady(Commands(cfg, es), UserKey(cfg, ip, name), cfg.userLimit, cfg.window)
  {
    var cs, key := Commands(cfg, es), UserKey(cfg, ip, name);
    forall i | 0 <= i < |cs|
      ensures Uniform(cs[i], key, cfg.userLimit, cfg.window) && cs[i] != Clear(key, cs[i].at)
    {
      match es[i]
      case CountIp(other, _, _) => KeysApart(cfg, other, ip, name);
      case CountUser(_, _) =>
      case Success(_, _, _) =>
      case Registration(other, _) => RegisterKeyApart(cfg, ip, name, other);
    }
  }

  lemma SecondIsAllowed(cfg: Config, s: Store, es: seq<Event>, j: nat, ip: string, name: string, from: int, to: int)
    requires WellFormed(es) && SecondPasses(cfg, s, es, j, ip, name, from, to)
    ensures j in AllowedHits(s, Commands(cfg, es), UserKey(cfg, ip, name), from, to)
  {
    hide After, Verdict, Counted, IpKey, UserKey, RegisterKey;
    assert Commands(cfg, es)[j] == CommandOf(cfg, es, j);
  }

  // However everything interleaves, no interval as long as the window lets more than 2 * limit - 1
  // attempts for one address and name pass, as long as none of them is reset.
  lemma LoginsPerPair(cfg: Config, s: Store, es: seq<Event>, ip: string, name: string, from: int, now: int)
    requires WellFormed(es) && Ordered(Commands(cfg, es), now) && cfg.window > 0 && cfg.userLimit > 0
    requires NoResetOf(cfg, es, UserKey(cfg, ip, name)) && NoOrphans(s)
    requires UserKey(cfg, ip, name) in s ==> s[UserKey(cfg, ip, name)].exp.value <= now + cfg.window * SECOND
    ensures |PassedForPair(cfg, s, es, ip, name, from, from + cfg.window * SECOND)| <= 2 * cfg.userLimit - 1
  {
    hide After, Allowed, AllowedHits, SecondPasses, Commands, UserKey;
    var cs, key, to := Commands(cfg, es), UserKey(cfg, ip, name), from + cfg.window * SECOND;
    UserKeyIsSteady(cfg, es, ip, name);
    WindowBound(s, cs, key, cfg.userLimit, cfg.window, from, now);
    AllowedIsCardinality(s, cs, key, from, to);
    forall j | j in PassedForPair(cfg, s, es, ip, name, from, to) ensures j in AllowedHits(s, cs, key, from, to) {
      SecondIsAllowed(cfg, s, es, j, ip, name, from, to);
    }
    SubsetSize(PassedForPair(cfg, s, es, ip, name, from, to), AllowedHits(s, cs, key, from, to));
  }
}

// The limiter over its stored counters, and the login check over the limiter.
module RateLimitClasses {
  import opened Basics
  import opened RateLimitSpec
  import opened LoginLimits

  class RateLimiter {
    var counters: Store

    ghost predicate Valid()
      reads this
    {
      NoOrphans(counters)
    }

    constructor ()
      ensures Valid() && counters == map[]
    {
      counters := map[];
    }

    // INCR, EXPIRE NX and TTL in one transaction.
    method Hit(key: string, limit: int, window: nat, now: int) returns (r: Result)
      requires Valid()
      modifies this
      ensures Valid() && counters == Apply(old(counters), Count(key, limit, window, now))
      ensures r == Verdict(Counted(old(counters), key, window, now), limit, window, now)
      ensures !r.allowed && window > 0 ==> r.retryAfter > 0
    {
      if !Live(counters, key, now) {
        counters := counters[key := Counter(0, None)];
      }
      counters := counters[key := Counter(counters[key].count + 1, counters[key].exp)];
      if counters[key].exp.None? {
        counters := counters[key := Counter(counters[key].count, Some(now + window * SECOND))];
      }
      var count, ttl := counters[key].count, Ttl(counters[key], now);
      if count <= limit {
        return Result(true, 0);
      }
      r := Result(false, if ttl > 0 then ttl else window);
    }

    method Reset(key: string, now: int)
      requires Valid()
      modifies this
      ensures Valid() && counters == Apply(old(counters), Clear(key, now))
    {
      counters := counters - {key};
    }
  }

  // The two counts of an attempt, if the first is allowed.
  function LoginCommands(cfg: Config, s: Store, ip: string, name: string, t1: int, t2: int): seq<Command> {
    var first := Count(IpKey(cfg, ip), cfg.ipLimit, cfg.window, t1);
    if Verdict(Counted(s, first.key, cfg.window, t1), cfg.ipLimit, cfg.window, t1).allowed
    then [first, Count(UserKey(cfg, ip, name), cfg.userLimit, cfg.window, t2)]
    else [first]
  }

  lemma AfterTwo(s: Store, c: Command, d: Command)
    ensures After(s, [c]) == Apply(s, c) && After(s, [c, d]) == Apply(Apply(s, c), d)
  {
    assert [c][..0] == [] && [c, d][..1] == [c];
  }

  // A call is an attempt of the runs: its first count, and its second if the first was allowed.
  lemma CallIsAttempt(cfg: Config, s: Store, ip: string, name: string, t1: int, t2: int)
    ensures
      var es := [CountIp(ip, name, t1), CountUser(0, t2)];
      && WellFormed(es) && WellFormed(es[..1])
      && LoginCommands(cfg, s, ip, name, t1, t2) ==
         if LiveCount(s, IpKey(cfg, ip), t1) < cfg.ipLimit then Commands(cfg, es) else Commands(cfg, es[..1])
  {
    AllowedIffBelow(s, IpKey(cfg, ip), cfg.ipLimit, cfg.window, t1);
  }

  // The first count leaves the second one's counter alone.
  lemma CountsApart(cfg: Config, s: Store, ip: string, name: string, t1: int, t2: int)
    ensures LiveCount(Hit(s, IpKey(cfg, ip), cfg.window, t1), UserKey(cfg, ip, name), t2) ==
            LiveCount(s, UserKey(cfg, ip, name), t2)
  {
    KeysApart(cfg, ip, ip, name);
  }

  lemma CallCounts(cfg: Config, s: Store, ip: string, name: string, t1: int, t2: int)
    ensures
      var s1 := Hit(s, IpKey(cfg, ip), cfg.window, t1);
      && (Verdict(Counted(s, IpKey(cfg, ip), cfg.window, t1), cfg.ipLimit, cfg.window, t1).allowed <==>
          LiveCount(s, IpKey(cfg, ip), t1) < cfg.ipLimit)
      && (Verdict(Counted(s1, UserKey(cfg, ip, name), cfg.window, t2), cfg.userLimit, cfg.window, t2).allowed <==>
          LiveCount(s, UserKey(cfg, ip, name), t2) < cfg.userLimit)
  {
    AllowedIffBelow(s, IpKey(cfg, ip), cfg.ipLimit, cfg.window, t1);
    AllowedIffBelow(Hit(s, IpKey(cfg, ip), cfg.window, t1), UserKey(cfg, ip, name), cfg.userLimit, cfg.window, t2);
    CountsApart(cfg, s, ip, name, t1, t2);
  }

  // Counts the address, then the address and name; the first count over its limit ends it. The
  // refusal carries what that count reports.
  method LoginRateLimit(limiter: RateLimiter, cfg: Config, ip: string, name: string, t1: int, t2: int)
    returns (refused: Option<int>, key: string)
    requires limiter.Valid()
    modifies limiter
    ensures limiter.Valid() && key == UserKey(cfg, ip, name)
    ensures refused.None? <==>
      && LiveCount(old(limiter.counters), IpKey(cfg, ip), t1) < cfg.ipLimit
      && LiveCount(old(limiter.counters), UserKey(cfg, ip, name), t2) < cfg.userLimit
    ensures limiter.counters == After(old(limiter.counters),
            LoginCommands(cfg, old(limiter.counters), ip, name, t1, t2))
    ensures
      var cs := LoginCommands(cfg, old(limiter.counters), ip, name, t1, t2);
      && (refused.None? <==>
            |cs| == 2 && AllowedAt(old(limiter.counters), cs, 0) && AllowedAt(old(limiter.counters), cs, 1))
      && (refused.Some? ==>
            var c := cs[|cs| - 1];
            var at := Counted(After(old(limiter.counters), cs[..|cs| - 1]), c.key, c.window, c.at);
            refused.value == Verdict(at, c.limit, c.window, c.at).retryAfter)
  {
    ghost var before := limiter.counters;
    ghost var cs := LoginCommands(cfg, before, ip, name, t1, t2);
    key := UserKey(cfg, ip, name);
    var checks := [Count(IpKey(cfg, ip), cfg.ipLimit, cfg.window, t1), Count(key, cfg.userLimit, cfg.window, t2)];
    AfterTwo(before, checks[0], checks[1]);
    CallCounts(cfg, before, ip, name, t1, t2);
    var i := 0;
    while i < 2
      invariant 0 <= i <= 2 && limiter.Valid()
      invariant i > 0 ==> cs == checks && AllowedAt(before, cs, 0)
      invariant i == 2 ==> AllowedAt(before, cs, 1)
      invariant limiter.counters == After(before, checks[..i])
    {
      assert checks[..2] == checks && checks[..1] == [checks[0]];
      var r := limiter.Hit(checks[i].key, checks[i].limit, checks[i].window, checks[i].at);
      if !r.allowed {
        return Some(r.retryAfter), key;
      }
      i := i + 1;
    }
    return None, key;
  }
}
