/** The notification rate limiter: a table of last sends that forgets, at most once a cooldown,
    what it thinks no longer matters. */
module RateLimit {
  import opened Collections
  import opened Wrappers

  datatype Call = Call(eventType: string, source: string, now: int)

  function Key(c: Call): string {
    c.eventType + ":" + c.source
  }

  type Sent = map<string, int>

  datatype Limiter = Limiter(lastSent: Sent, lastPrune: Option<int>)

  predicate Fresh(sent: Sent, cooldown: int, k: string, now: int) {
    k in sent && now - sent[k] < cooldown
  }

  function Pruned(l: Limiter, cooldown: int, now: int): Limiter {
    if l.lastPrune.Some? && now - l.lastPrune.value < cooldown then l
    else Limiter(l.lastSent - Elapsed(l.lastSent, cooldown, now), Some(now))
  }

  function Elapsed(sent: Sent, cooldown: int, now: int): set<string> {
    set k | k in sent && now - sent[k] >= cooldown
  }

  predicate Allows(l: Limiter, cooldown: int, c: Call) {
    !Fresh(Pruned(l, cooldown, c.now).lastSent, cooldown, Key(c), c.now)
  }

  function Called(l: Limiter, cooldown: int, c: Call): Limiter {
    var p := Pruned(l, cooldown, c.now);
    if Allows(l, cooldown, c) then p.(lastSent := p.lastSent[Key(c) := c.now]) else p
  }

  /** The limiter after the first `n` calls. */
  function After(cooldown: int, calls: seq<Call>, n: nat): Limiter
    requires n <= |calls|
    decreases n
  {
    if n == 0 then Limiter(map[], None) else Called(After(cooldown, calls, n - 1), cooldown, calls[n - 1])
  }

  predicate Decision(cooldown: int, calls: seq<Call>, i: nat)
    requires i < |calls|
  {
    Allows(After(cooldown, calls, i), cooldown, calls[i])
  }

  // ---------------------------------------------------------------- what it should decide

  /** A call is granted unless a granted call of the same key was made less than a cooldown ago. */
  ghost predicate Granted(cooldown: int, calls: seq<Call>, i: nat)
    requires i < |calls|
    decreases i
  {
    forall j | 0 <= j < i && Key(calls[j]) == Key(calls[i]) && Granted(cooldown, calls, j) ::
      calls[i].now - calls[j].now >= cooldown
  }

  ghost predicate Ordered(calls: seq<Call>) {
    forall i, j | 0 <= i <= j < |calls| :: calls[i].now <= calls[j].now
  }

  /** The table tells for key `k` at time `now` what the granted calls among the first `n` tell. */
  ghost predicate Tells(cooldown: int, calls: seq<Call>, n: nat, sent: Sent, k: string, now: int)
    requires n <= |calls|
  {
    && (Fresh(sent, cooldown, k, now) ==> exists j :: 0 <= j < n && Recent(cooldown, calls, j, k, now))
    && (forall j | 0 <= j < n && Recent(cooldown, calls, j, k, now) :: k in sent && sent[k] >= calls[j].now)
  }

  ghost predicate Recent(cooldown: int, calls: seq<Call>, j: nat, k: string, now: int)
    requires j < |calls|
  {
    Key(calls[j]) == k && Granted(cooldown, calls, j) && now - calls[j].now < cooldown
  }

  /** From the last call on, the table tells what the whole history tells. */
  ghost predicate TellsAll(cooldown: int, calls: seq<Call>, n: nat, sent: Sent)
    requires n <= |calls|
  {
    forall k, now | n == 0 || now >= calls[n - 1].now :: Tells(cooldown, calls, n, sent, k, now)
  }

  /** Pruning takes nothing away that is fresh now or will be later. */
  lemma {:induction false} PruningTells(cooldown: int, calls: seq<Call>, n: nat, l: Limiter, at: int, k: string, now: int)
    requires n <= |calls| && at <= now
    requires Tells(cooldown, calls, n, l.lastSent, k, at) && Tells(cooldown, calls, n, l.lastSent, k, now)
    ensures Tells(cooldown, calls, n, Pruned(l, cooldown, at).lastSent, k, now)
  {
    var p := Pruned(l, cooldown, at);
    forall j | 0 <= j < n && Recent(cooldown, calls, j, k, now)
      ensures k in p.lastSent && p.lastSent[k] >= calls[j].now
    {
      assert Recent(cooldown, calls, j, k, at);
    }
  }

  lemma {:induction false} CallTells(cooldown: int, calls: seq<Call>, n: nat, l: Limiter, k: string, now: int)
    requires n < |calls| && Ordered(calls) && TellsAll(cooldown, calls, n, l.lastSent) && now >= calls[n].now
    requires Allows(l, cooldown, calls[n]) <==> Granted(cooldown, calls, n)
    ensures Tells(cooldown, calls, n + 1, Called(l, cooldown, calls[n]).lastSent, k, now)
  {
    var c := calls[n];
    var p, q := Pruned(l, cooldown, c.now), Called(l, cooldown, c);
    assert Tells(cooldown, calls, n, l.lastSent, k, c.now) && Tells(cooldown, calls, n, l.lastSent, k, now);
    PruningTells(cooldown, calls, n, l, c.now, k, now);
    if Fresh(q.lastSent, cooldown, k, now) {
      if Allows(l, cooldown, c) && k == Key(c) {
        assert Recent(cooldown, calls, n, k, now);
      } else {
        var j :| 0 <= j < n && Recent(cooldown, calls, j, k, now);
        assert Recent(cooldown, calls, j, k, now);
      }
    }
    forall j | 0 <= j < n + 1 && Recent(cooldown, calls, j, k, now)
      ensures k in q.lastSent && q.lastSent[k] >= calls[j].now
    {
      if j < n {
        assert k in p.lastSent && p.lastSent[k] >= calls[j].now;
      }
    }
  }

  lemma {:induction false} DecidesRight(cooldown: int, calls: seq<Call>, n: nat, l: Limiter)
    requires n < |calls| && Ordered(calls) && TellsAll(cooldown, calls, n, l.lastSent)
    ensures Allows(l, cooldown, calls[n]) <==> Granted(cooldown, calls, n)
  {
    var c := calls[n];
    assert Tells(cooldown, calls, n, l.lastSent, Key(c), c.now);
    PruningTells(cooldown, calls, n, l, c.now, Key(c), c.now);
    var p := Pruned(l, cooldown, c.now);
    if Fresh(p.lastSent, cooldown, Key(c), c.now) {
      var j :| 0 <= j < n && Recent(cooldown, calls, j, Key(c), c.now);
      assert !Granted(cooldown, calls, n);
    } else if !Granted(cooldown, calls, n) {
      var j :| 0 <= j < n && Key(calls[j]) == Key(c) && Granted(cooldown, calls, j) && c.now - calls[j].now < cooldown;
      assert Recent(cooldown, calls, j, Key(c), c.now);
    }
  }

  lemma {:induction false} TableTells(cooldown: int, calls: seq<Call>, n: nat)
    requires n <= |calls| && Ordered(calls)
    ensures TellsAll(cooldown, calls, n, After(cooldown, calls, n).lastSent)
    decreases n
  {
    if n > 0 {
      TableTells(cooldown, calls, n - 1);
      var l := After(cooldown, calls, n - 1);
      DecidesRight(cooldown, calls, n - 1, l);
      forall k, now | now >= calls[n - 1].now
        ensures Tells(cooldown, calls, n, After(cooldown, calls, n).lastSent, k, now)
      {
        CallTells(cooldown, calls, n - 1, l, k, now);
      }
    }
  }

  /** Every call is decided as if nothing were ever pruned. */
  lemma {:induction false} EveryCallIsDecidedRight(cooldown: int, calls: seq<Call>, i: nat)
    requires i < |calls| && Ordered(calls)
    ensures Decision(cooldown, calls, i) <==> Granted(cooldown, calls, i)
  {
    TableTells(cooldown, calls, i);
    DecidesRight(cooldown, calls, i, After(cooldown, calls, i));
  }

  // ---------------------------------------------------------------- calls out of clock order

  /** The last call of the key among the first `n` that was allowed. */
  function LastAllowed(cooldown: int, calls: seq<Call>, n: nat, k: string): Option<nat>
    requires n <= |calls|
    decreases n
  {
    if n == 0 then None
    else if Key(calls[n - 1]) == k && Decision(cooldown, calls, n - 1) then Some(n - 1)
    else LastAllowed(cooldown, calls, n - 1, k)
  }

  lemma {:induction false} LastAllowedIs(cooldown: int, calls: seq<Call>, n: nat, k: string)
    requires n <= |calls|
    ensures var last := LastAllowed(cooldown, calls, n, k);
      last.Some? ==> last.value < n && Key(calls[last.value]) == k && Decision(cooldown, calls, last.value)
    ensures var last := LastAllowed(cooldown, calls, n, k);
      forall j | 0 <= j < n && Key(calls[j]) == k && Decision(cooldown, calls, j) :: last.Some? && j <= last.value
    decreases n
  {
    if n > 0 {
      LastAllowedIs(cooldown, calls, n - 1, k);
    }
  }

  predicate Sweeps(l: Limiter, cooldown: int, now: int) {
    l.lastPrune.None? || now - l.lastPrune.value >= cooldown
  }

  /** Call `m` sweeps the table, and by its clock call `j` is a cooldown ago. */
  predicate Drops(cooldown: int, calls: seq<Call>, m: nat, j: nat)
    requires m < |calls| && j < |calls|
  {
    Sweeps(After(cooldown, calls, m), cooldown, calls[m].now) && calls[m].now - calls[j].now >= cooldown
  }

  /** A call after `j` and before `n` drops what `j` left. */
  predicate Dropped(cooldown: int, calls: seq<Call>, j: nat, n: nat)
    requires j < n <= |calls|
    decreases n
  {
    n > j + 1 && (Drops(cooldown, calls, n - 1, j) || Dropped(cooldown, calls, j, n - 1))
  }

  lemma {:induction false} DroppedBy(cooldown: int, calls: seq<Call>, j: nat, n: nat)
    requires j < n <= |calls|
    ensures Dropped(cooldown, calls, j, n) <==> exists m | j < m < n :: Drops(cooldown, calls, m, j)
    decreases n
  {
    if n > j + 1 {
      DroppedBy(cooldown, calls, j, n - 1);
    }
  }

  /** The entry of a key is the last allowed call of it, until a sweep drops it. */
  ghost predicate Holds(cooldown: int, calls: seq<Call>, n: nat, sent: Sent, k: string)
    requires n <= |calls|
  {
    match LastAllowed(cooldown, calls, n, k)
    case None => k !in sent
    case Some(j) =>
      && j < n && (k in sent <==> !Dropped(cooldown, calls, j, n))
      && (k in sent ==> sent[k] == calls[j].now)
  }

  lemma {:induction false} PrunedEntry(l: Limiter, cooldown: int, now: int, k: string)
    ensures var p := Pruned(l, cooldown, now).lastSent;
      && (k in p <==> k in l.lastSent && !(Sweeps(l, cooldown, now) && now - l.lastSent[k] >= cooldown))
      && (k in p ==> p[k] == l.lastSent[k])
  {
  }

  lemma {:induction false} CallHolds(cooldown: int, calls: seq<Call>, n: nat, k: string)
    requires n < |calls| && Holds(cooldown, calls, n, After(cooldown, calls, n).lastSent, k)
    ensures Holds(cooldown, calls, n + 1, After(cooldown, calls, n + 1).lastSent, k)
  {
    PrunedEntry(After(cooldown, calls, n), cooldown, calls[n].now, k);
  }

  lemma {:induction false} TableHolds(cooldown: int, calls: seq<Call>, n: nat, k: string)
    requires n <= |calls|
    ensures Holds(cooldown, calls, n, After(cooldown, calls, n).lastSent, k)
    decreases n
  {
    if n > 0 {
      TableHolds(cooldown, calls, n - 1, k);
      CallHolds(cooldown, calls, n - 1, k);
    }
  }

  /** Whatever the order of the clocks: a call is allowed exactly when no call of its key was, or
      the last one that was is a cooldown ago, or a call in between dropped it. */
  lemma {:induction false} DecisionIs(cooldown: int, calls: seq<Call>, i: nat)
    requires i < |calls|
    ensures var last := LastAllowed(cooldown, calls, i, Key(calls[i]));
      Decision(cooldown, calls, i) <==>
        last.None? || (last.value < i && (calls[i].now - calls[last.value].now >= cooldown || Dropped(cooldown, calls, last.value, i)))
  {
    TableHolds(cooldown, calls, i, Key(calls[i]));
    PrunedEntry(After(cooldown, calls, i), cooldown, calls[i].now, Key(calls[i]));
  }

  /** Every denial is right: an allowed call of the key was made less than a cooldown ago. */
  lemma {:induction false} DenialsAreRight(cooldown: int, calls: seq<Call>, i: nat)
    requires i < |calls| && !Decision(cooldown, calls, i)
    ensures exists j :: 0 <= j < i && AllowedRecently(cooldown, calls, j, i)
  {
    DecisionIs(cooldown, calls, i);
    LastAllowedIs(cooldown, calls, i, Key(calls[i]));
    assert AllowedRecently(cooldown, calls, LastAllowed(cooldown, calls, i, Key(calls[i])).value, i);
  }

  /** Call `j` was allowed less than a cooldown before call `i`, which has its key. */
  predicate AllowedRecently(cooldown: int, calls: seq<Call>, j: nat, i: nat)
    requires j < |calls| && i < |calls|
  {
    Key(calls[j]) == Key(calls[i]) && Decision(cooldown, calls, j) && calls[i].now - calls[j].now < cooldown
  }

  ghost predicate LastRecent(cooldown: int, calls: seq<Call>, j: nat, i: nat)
    requires j < i < |calls|
  {
    && AllowedRecently(cooldown, calls, j, i)
    && forall x | j < x < i :: !AllowedRecently(cooldown, calls, x, i)
  }

  /** By the later clock of a call in between, `j` is a cooldown ago, and that call sweeps. */
  ghost predicate Forgotten(cooldown: int, calls: seq<Call>, j: nat, i: nat)
    requires j < i < |calls|
  {
    exists m | j < m < i :: Drops(cooldown, calls, m, j) && calls[m].now > calls[i].now
  }

  /** Only a call that sees `j` a cooldown ago takes its entry over, so it is recent if `j` is. */
  lemma {:induction false} NextAllowedDrops(cooldown: int, calls: seq<Call>, j: nat, last: nat, i: nat)
    requires cooldown >= 0 && j < last < i < |calls| && LastRecent(cooldown, calls, j, i)
    requires Key(calls[last]) == Key(calls[i]) && Decision(cooldown, calls, last)
    ensures Dropped(cooldown, calls, j, last)
    decreases last
  {
    var before := LastAllowed(cooldown, calls, last, Key(calls[i]));
    LastAllowedIs(cooldown, calls, last, Key(calls[i]));
    DecisionIs(cooldown, calls, last);
    assert !AllowedRecently(cooldown, calls, last, i);
    if before.value > j {
      NextAllowedDrops(cooldown, calls, j, before.value, i);
      DroppedBy(cooldown, calls, j, before.value);
      DroppedBy(cooldown, calls, j, last);
    }
  }

  /** What a call decides once the last recently allowed one of its key is known. */
  lemma {:induction false} RecentDecides(cooldown: int, calls: seq<Call>, j: nat, i: nat)
    requires cooldown >= 0 && j < i < |calls| && LastRecent(cooldown, calls, j, i)
    ensures Decision(cooldown, calls, i) <==> Forgotten(cooldown, calls, j, i)
  {
    DecisionIs(cooldown, calls, i);
    LastAllowedIs(cooldown, calls, i, Key(calls[i]));
    DroppedBy(cooldown, calls, j, i);
    var last := LastAllowed(cooldown, calls, i, Key(calls[i]));
    if last.value > j {
      NextAllowedDrops(cooldown, calls, j, last.value, i);
      DroppedBy(cooldown, calls, j, last.value);
      assert !AllowedRecently(cooldown, calls, last.value, i);
    }
  }

  lemma {:induction false} FindLastRecent(cooldown: int, calls: seq<Call>, n: nat, i: nat) returns (found: Option<nat>)
    requires n <= i < |calls|
    ensures found.Some? ==> found.value < n && AllowedRecently(cooldown, calls, found.value, i)
    ensures forall x | (if found.Some? then found.value + 1 else 0) <= x < n :: !AllowedRecently(cooldown, calls, x, i)
  {
    if n == 0 {
      found := None;
    } else if AllowedRecently(cooldown, calls, n - 1, i) {
      found := Some(n - 1);
    } else {
      found := FindLastRecent(cooldown, calls, n - 1, i);
    }
  }

  /** A call is wrongly allowed exactly when a call with a later clock swept the table after the
      last one allowed that is recent for it. */
  lemma {:induction false} WrongGrantIs(cooldown: int, calls: seq<Call>, i: nat)
    requires cooldown >= 0 && i < |calls|
    ensures Decision(cooldown, calls, i) && (exists j | 0 <= j < i :: AllowedRecently(cooldown, calls, j, i)) <==>
      exists j | 0 <= j < i :: LastRecent(cooldown, calls, j, i) && Forgotten(cooldown, calls, j, i)
  {
    forall j | 0 <= j < i && LastRecent(cooldown, calls, j, i)
      ensures Decision(cooldown, calls, i) <==> Forgotten(cooldown, calls, j, i)
    {
      RecentDecides(cooldown, calls, j, i);
    }
    var found := FindLastRecent(cooldown, calls, i, i);
    assert found.Some? ==> LastRecent(cooldown, calls, found.value, i);
  }

  /** Two goroutines that take the lock in the other order than they read the clock. */
  lemma {:induction false} ClockRaceGrants()
    ensures var calls := [Call("cpu", "a", 0), Call("cpu", "b", 10), Call("cpu", "a", 9)];
      Decision(10, calls, 2) && AllowedRecently(10, calls, 0, 2)
  {
    var calls := [Call("cpu", "a", 0), Call("cpu", "b", 10), Call("cpu", "a", 9)];
    var a, b := Key(calls[0]), Key(calls[1]);
    assert a[4] == 'a' && b[4] == 'b';
    assert After(10, calls, 1) == Limiter(map[a := 0], Some(0));
    assert Elapsed(map[a := 0], 10, 10) == {a};
    assert After(10, calls, 2) == Limiter(map[b := 10], Some(10));
  }

  // ---------------------------------------------------------------- what it keeps

  /** The last prune is less than a cooldown old, and left nothing a cooldown old. */
  ghost predicate Young(l: Limiter, cooldown: int, now: int) {
    && l.lastPrune.Some? && l.lastPrune.value <= now < l.lastPrune.value + cooldown
    && forall k <- l.lastSent :: l.lastPrune.value - l.lastSent[k] < cooldown
  }

  lemma {:induction false} StaysYoung(cooldown: int, calls: seq<Call>, n: nat)
    requires 0 < n <= |calls| && Ordered(calls) && cooldown > 0
    ensures Young(After(cooldown, calls, n), cooldown, calls[n - 1].now)
    decreases n
  {
    if n > 1 {
      StaysYoung(cooldown, calls, n - 1);
      assert calls[n - 2].now <= calls[n - 1].now;
    }
  }

  /** With a positive cooldown no entry is ever two cooldowns old. */
  lemma {:induction false} NothingTwoCooldownsOld(cooldown: int, calls: seq<Call>, n: nat, k: string)
    requires 0 < n <= |calls| && Ordered(calls) && cooldown > 0 && k in After(cooldown, calls, n).lastSent
    ensures calls[n - 1].now - After(cooldown, calls, n).lastSent[k] < 2 * cooldown
  {
    StaysYoung(cooldown, calls, n);
  }

  // ---------------------------------------------------------------- the limiter

  lemma {:induction false} Visits(all: Sent, elapsed: set<string>, rest: set<string>, k: string)
    requires k in rest && rest <= all.Keys
    ensures k in all - (elapsed - rest) && (all - (elapsed - rest))[k] == all[k]
    ensures all - (elapsed - (rest - {k})) ==
      if k in elapsed then (all - (elapsed - rest)) - {k} else all - (elapsed - rest)
  {
  }

  /** The deleting loop of a prune. */
  method DropElapsed(sent: Sent, cooldown: int, now: int) returns (kept: Sent)
    ensures kept == sent - Elapsed(sent, cooldown, now)
  {
    kept := sent;
    var rest := sent.Keys;
    ghost var elapsed := Elapsed(sent, cooldown, now);
    while rest != {}
      invariant rest <= sent.Keys && kept == sent - (elapsed - rest)
      decreases |rest|
    {
      var k := AnyOf(rest);
      Visits(sent, elapsed, rest, k);
      rest := rest - {k};
      if now - kept[k] >= cooldown {
        kept := kept - {k};
      }
    }
    assert elapsed - rest == elapsed;
  }

  class RateLimiter {
    var lastSent: Sent
    const cooldown: int
    var lastPrune: Option<int>

    function State(): Limiter
      reads this
    {
      Limiter(lastSent, lastPrune)
    }

    constructor (cooldown: int)
      ensures State() == Limiter(map[], None) && this.cooldown == cooldown
    {
      this.cooldown := cooldown;
      lastSent, lastPrune := map[], None;
    }

    method Allow(c: Call) returns (ok: bool)
      modifies this
      ensures ok == Allows(old(State()), cooldown, c)
      ensures State() == Called(old(State()), cooldown, c)
    {
      PruneLocked(c.now);
      if Key(c) in lastSent && c.now - lastSent[Key(c)] < cooldown {
        return false;
      }
      lastSent := lastSent[Key(c) := c.now];
      ok := true;
    }

    method PruneLocked(now: int)
      modifies this
      ensures State() == Pruned(old(State()), cooldown, now)
    {
      if lastPrune.Some? && now - lastPrune.value < cooldown {
        return;
      }
      lastPrune := Some(now);
      lastSent := DropElapsed(lastSent, cooldown, now);
    }
  }
}
