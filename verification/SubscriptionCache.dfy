/** The cache in front of remote subscriptions: one leader fetches a URL while the others wait for
    its result, and entries past the capacity are evicted oldest first. Goroutines interleave at
    every lock section; `L` is the type of a decoded list of links. */
module SubscriptionCache {
  import opened Collections
  import opened Wrappers
  import opened Text

  const TTL := 5 * 60
  const CAPACITY := 256

  type Url = Bytes

  datatype Entry<L> = Entry(links: L, fetchedAt: int)

  /** `leader` is history: the caller that opened the fetch. */
  datatype Fetch<L> = Fetch(url: Url, links: Option<L>, done: bool, leader: nat)

  /** Where a call stands. A Stored caller has filled the cache but not yet its fetch; a Closing
      one has yet to run its deferred clean-up. `via` is history: the fetch an answer came from. */
  datatype Caller<L> =
    | Waiting(url: Url, fetch: nat)
    | Leading(url: Url, fetch: nat, stale: Option<L>)
    | Stored(url: Url, fetch: nat, links: L)
    | Closing(url: Url, fetch: nat)
    | Answered(url: Url, answer: Option<L>, via: Option<nat>)

  /** `produced` is history: the lists successfully fetched, in order. */
  datatype State<L> = State(
    cache: map<Url, Entry<L>>, inflight: map<Url, nat>,
    fetches: seq<Fetch<L>>, callers: seq<Caller<L>>, produced: seq<Product<L>>)

  datatype Product<L> = Product(url: Url, entry: Entry<L>)

  datatype Step<L> =
    | Arrive(rawURL: Bytes, now: int)
    | FetchFails(g: nat)
    | Store(g: nat, links: L, now: int, kept: map<Url, Entry<L>>)
    | Publish(g: nat)
    | Close(g: nat)
    | Wake(g: nat)

  function Empty<L>(): State<L> {
    State(map[], map[], [], [], [])
  }

  datatype Lookup<L> = Hit(links: L) | Wait(fetch: nat) | Lead(stale: Option<L>)

  /** The first lock section. */
  function Look<L>(cache: map<Url, Entry<L>>, inflight: map<Url, nat>, url: Url, now: int): Lookup<L> {
    if url in cache && now - cache[url].fetchedAt < TTL then Hit(cache[url].links)
    else if url in inflight then Wait(inflight[url])
    else Lead(if url in cache then Some(cache[url].links) else None)
  }

  /** Eviction leaves `kept` of `m`: at most CAPACITY entries, with `keep` among them, and nothing
      evicted is newer than anything else kept. */
  ghost predicate TrimsTo<L>(m: map<Url, Entry<L>>, keep: Url, kept: map<Url, Entry<L>>) {
    && (forall u <- kept :: u in m && kept[u] == m[u])
    && (keep in m ==> keep in kept)
    && |kept| == (if |m| <= CAPACITY then |m| else CAPACITY)
    && OldestGo(m, keep, kept)
  }

  ghost predicate OldestGo<L>(m: map<Url, Entry<L>>, keep: Url, kept: map<Url, Entry<L>>) {
    forall gone <- m, u <- kept | gone !in kept && u != keep && u in m :: m[gone].fetchedAt <= m[u].fetchedAt
  }

  predicate IsCaller<L>(s: State<L>, g: nat) {
    g < |s.callers|
  }

  ghost predicate Enabled<L>(s: State<L>, step: Step<L>) {
    match step
    case Arrive(_, _) => true
    case FetchFails(g) => IsCaller(s, g) && s.callers[g].Leading?
    case Store(g, links, now, kept) =>
      && IsCaller(s, g) && s.callers[g].Leading?
      && TrimsTo(s.cache[s.callers[g].url := Entry(links, now)], s.callers[g].url, kept)
    case Publish(g) => IsCaller(s, g) && s.callers[g].Stored?
    case Close(g) => IsCaller(s, g) && s.callers[g].Closing?
    case Wake(g) => IsCaller(s, g) && s.callers[g].Waiting? && Fetched(s, s.callers[g].fetch)
  }

  predicate Fetched<L>(s: State<L>, f: nat) {
    f < |s.fetches| && s.fetches[f].done
  }

  function WithCaller<L>(s: State<L>, g: nat, c: Caller<L>): State<L>
    requires IsCaller(s, g)
  {
    s.(callers := s.callers[g := c])
  }

  function WithLinks<L>(s: State<L>, f: nat, links: Option<L>): State<L> {
    if f < |s.fetches| then s.(fetches := s.fetches[f := s.fetches[f].(links := links)]) else s
  }

  function LinksOf<L>(s: State<L>, f: nat): Option<L> {
    if f < |s.fetches| then s.fetches[f].links else None
  }

  function Enter<L>(s: State<L>, url: Url, now: int): State<L> {
    if url == [] then s.(callers := s.callers + [Answered(url, None, None)])
    else
      match Look(s.cache, s.inflight, url, now)
      case Hit(links) => s.(callers := s.callers + [Answered(url, Some(links), None)])
      case Wait(f) => s.(callers := s.callers + [Waiting(url, f)])
      case Lead(stale) =>
        s.(callers := s.callers + [Leading(url, |s.fetches|, stale)],
           fetches := s.fetches + [Fetch(url, None, false, |s.callers|)],
           inflight := s.inflight[url := |s.fetches|])
  }

  function Shut<L>(s: State<L>, g: nat): State<L>
    requires IsCaller(s, g) && s.callers[g].Closing?
  {
    var c := s.callers[g];
    var closed := if c.fetch < |s.fetches| then s.fetches[c.fetch := s.fetches[c.fetch].(done := true)] else s.fetches;
    WithCaller(s, g, Answered(c.url, LinksOf(s, c.fetch), Some(c.fetch)))
      .(fetches := closed, inflight := s.inflight - {c.url})
  }

  ghost function Next<L>(s: State<L>, step: Step<L>): State<L>
    requires Enabled(s, step)
  {
    match step
    case Arrive(rawURL, now) => Enter(s, TrimSpace(rawURL), now)
    case FetchFails(g) =>
      var c := s.callers[g];
      var filled := if c.stale.Some? then WithLinks(s, c.fetch, c.stale) else s;
      WithCaller(filled, g, Closing(c.url, c.fetch))
    case Store(g, links, now, kept) =>
      var c := s.callers[g];
      WithCaller(s, g, Stored(c.url, c.fetch, links))
        .(cache := kept, produced := s.produced + [Product(c.url, Entry(links, now))])
    case Publish(g) =>
      var c := s.callers[g];
      WithCaller(WithLinks(s, c.fetch, Some(c.links)), g, Closing(c.url, c.fetch))
    case Close(g) => Shut(s, g)
    case Wake(g) =>
      var c := s.callers[g];
      WithCaller(s, g, Answered(c.url, LinksOf(s, c.fetch), Some(c.fetch)))
  }

  // ---------------------------------------------------------------- what every run keeps

  /** The last list fetched for a URL. */
  function Latest<L>(produced: seq<Product<L>>, url: Url): Option<Entry<L>>
    decreases |produced|
  {
    if produced == [] then None
    else if produced[|produced| - 1].url == url then Some(produced[|produced| - 1].entry)
    else Latest(produced[..|produced| - 1], url)
  }

  predicate Driving<L>(c: Caller<L>) {
    c.Leading? || c.Stored? || c.Closing?
  }

  predicate Drives<L>(c: Caller<L>, f: nat) {
    Driving(c) && c.fetch == f
  }

  predicate AnsweredFrom<L>(c: Caller<L>, f: nat) {
    c.Answered? && c.via == Some(f)
  }

  /** An open fetch is the one in flight for its URL, and its leader is still at work on it. */
  ghost predicate FetchOk<L>(s: State<L>, f: nat)
    requires f < |s.fetches|
  {
    var x := s.fetches[f];
    && x.url != []
    && (x.links.Some? ==> Produced(s, x.url, x.links.value))
    && (x.done || (x.url in s.inflight && s.inflight[x.url] == f))
    && x.leader < |s.callers|
    && (if x.done then AnsweredFrom(s.callers[x.leader], f) else Drives(s.callers[x.leader], f))
  }

  ghost predicate Produced<L>(s: State<L>, url: Url, links: L) {
    exists k | 0 <= k < |s.produced| :: s.produced[k].url == url && s.produced[k].entry.links == links
  }

  ghost predicate DriverOk<L>(s: State<L>, g: nat)
    requires IsCaller(s, g)
  {
    var c := s.callers[g];
    Driving(c) ==>
      && c.fetch < |s.fetches| && !s.fetches[c.fetch].done
      && s.fetches[c.fetch].url == c.url && s.fetches[c.fetch].leader == g
  }

  /** A list a caller holds was fetched for its URL; one kept for a failure is the last one. */
  ghost predicate CallerOk<L>(s: State<L>, g: nat)
    requires IsCaller(s, g)
  {
    match s.callers[g]
    case Waiting(url, f) => f < |s.fetches| && s.fetches[f].url == url
    case Leading(url, f, stale) => IsLatest(s, url, stale) && LinksOf(s, f).None?
    case Stored(url, f, links) => IsLatest(s, url, Some(links))
    case Closing(url, f) => true
    case Answered(url, answer, via) =>
      && (answer.Some? ==> Produced(s, url, answer.value))
      && (via.Some? ==> Fetched(s, via.value) && s.fetches[via.value].url == url && answer == s.fetches[via.value].links)
  }

  /** A list, if there is one, is the last fetched for the URL. */
  ghost predicate IsLatest<L>(s: State<L>, url: Url, links: Option<L>) {
    links.Some? ==> Latest(s.produced, url).Some? && Latest(s.produced, url).value.links == links.value
  }

  ghost predicate CacheOk<L>(s: State<L>) {
    && |s.cache| <= CAPACITY
    && (forall u <- s.cache :: u != [] && Latest(s.produced, u) == Some(s.cache[u]))
  }

  ghost predicate InflightOk<L>(s: State<L>) {
    forall u <- s.inflight :: s.inflight[u] < |s.fetches| && s.fetches[s.inflight[u]].url == u && !s.fetches[s.inflight[u]].done
  }

  ghost predicate Inv<L>(s: State<L>) {
    && CacheOk(s) && InflightOk(s)
    && (forall f | 0 <= f < |s.fetches| :: FetchOk(s, f))
    && (forall g | 0 <= g < |s.callers| :: DriverOk(s, g))
    && (forall g | 0 <= g < |s.callers| :: CallerOk(s, g))
  }

  lemma {:induction false} LatestIsProduced<L>(s: State<L>, url: Url, n: nat)
    requires n <= |s.produced| && Latest(s.produced[..n], url).Some?
    ensures Produced(s, url, Latest(s.produced[..n], url).value.links)
    decreases n
  {
    if s.produced[n - 1].url == url {
      assert Latest(s.produced[..n], url).value == s.produced[n - 1].entry;
    } else {
      assert s.produced[..n][..n - 1] == s.produced[..n - 1];
      LatestIsProduced(s, url, n - 1);
    }
  }

  lemma {:induction false} LatestProduced<L>(s: State<L>, url: Url)
    requires Latest(s.produced, url).Some?
    ensures Produced(s, url, Latest(s.produced, url).value.links)
  {
    assert s.produced[..|s.produced|] == s.produced;
    LatestIsProduced(s, url, |s.produced|);
  }

  lemma {:induction false} ProducedStays<L>(s: State<L>, t: State<L>, p: Product<L>, url: Url, links: L)
    requires t.produced == s.produced || t.produced == s.produced + [p]
    requires Produced(s, url, links)
    ensures Produced(t, url, links)
  {
    var k :| 0 <= k < |s.produced| && s.produced[k].url == url && s.produced[k].entry.links == links;
    assert t.produced[k] == s.produced[k];
  }

  lemma {:induction false} LatestAfter<L>(produced: seq<Product<L>>, p: Product<L>, url: Url)
    ensures Latest(produced + [p], url) == if p.url == url then Some(p.entry) else Latest(produced, url)
  {
    assert (produced + [p])[..|produced|] == produced;
  }

  /** What a step that stores nothing leaves of the facts about lists. */
  lemma {:induction false} SameLists<L>(s: State<L>, t: State<L>)
    requires t.produced == s.produced
    ensures forall u, l :: Produced(t, u, l) == Produced(s, u, l)
    ensures forall u, l :: IsLatest(t, u, l) == IsLatest(s, u, l)
  {
  }

  /** A call that needs no fetch of its own. */
  lemma {:induction false} JoinKeepsInv<L>(s: State<L>, c: Caller<L>)
    requires Inv(s) && !Driving(c)
    requires CallerOk(s.(callers := s.callers + [c]), |s.callers|)
    ensures Inv(s.(callers := s.callers + [c]))
  {
    var t := s.(callers := s.callers + [c]);
    SameLists(s, t);
    forall g | 0 <= g < |s.callers|
      ensures DriverOk(t, g) && CallerOk(t, g)
    {
      assert DriverOk(s, g) && CallerOk(s, g);
    }
    forall f | 0 <= f < |s.fetches|
      ensures FetchOk(t, f)
    {
      assert FetchOk(s, f);
    }
  }

  lemma {:induction false} LeadKeepsInv<L>(s: State<L>, url: Url, now: int)
    requires Inv(s) && url != [] && Look(s.cache, s.inflight, url, now).Lead?
    ensures Inv(Enter(s, url, now))
  {
    var t := Enter(s, url, now);
    SameLists(s, t);
    forall g | 0 <= g < |s.callers|
      ensures DriverOk(t, g) && CallerOk(t, g)
    {
      assert DriverOk(s, g) && CallerOk(s, g);
    }
    forall f | 0 <= f < |s.fetches|
      ensures FetchOk(t, f)
    {
      assert FetchOk(s, f);
    }
  }

  lemma {:induction false} EnterKeepsInv<L>(s: State<L>, url: Url, now: int)
    requires Inv(s)
    ensures Inv(Enter(s, url, now))
  {
    if url != [] && Look(s.cache, s.inflight, url, now).Lead? {
      LeadKeepsInv(s, url, now);
    } else {
      var t := Enter(s, url, now);
      SameLists(s, t);
      if url != [] && url in s.cache {
        LatestProduced(s, url);
      }
      JoinKeepsInv(s, t.callers[|s.callers|]);
    }
  }

  // ---------------------------------------------------------------- storing a list

  lemma {:induction false} StoreKeepsInv<L>(s: State<L>, g: nat, links: L, now: int, kept: map<Url, Entry<L>>)
    requires Inv(s) && Enabled(s, Store(g, links, now, kept))
    ensures Inv(Next(s, Store(g, links, now, kept)))
  {
    var t := Next(s, Store(g, links, now, kept));
    var c := s.callers[g];
    var p := Product(c.url, Entry(links, now));
    assert DriverOk(s, g);
    assert FetchOk(s, c.fetch);
    StoreKeepsCache(s, t, p);
    LatestAfter(s.produced, p, c.url);
    forall h | 0 <= h < |s.callers|
      ensures DriverOk(t, h) && CallerOk(t, h)
    {
      assert DriverOk(s, h) && CallerOk(s, h);
      if h != g {
        StoreKeepsCaller(s, t, p, g, h);
      }
    }
    forall f | 0 <= f < |s.fetches|
      ensures FetchOk(t, f)
    {
      assert FetchOk(s, f);
      var x := s.fetches[f];
      if x.links.Some? {
        ProducedStays(s, t, p, x.url, x.links.value);
      }
    }
  }

  lemma {:induction false} StoreKeepsCache<L>(s: State<L>, t: State<L>, p: Product<L>)
    requires CacheOk(s) && InflightOk(s) && p.url != []
    requires TrimsTo(s.cache[p.url := p.entry], p.url, t.cache)
    requires t.produced == s.produced + [p] && t.inflight == s.inflight && t.fetches == s.fetches
    ensures CacheOk(t) && InflightOk(t)
  {
    forall u <- t.cache
      ensures u != [] && Latest(t.produced, u) == Some(t.cache[u])
    {
      LatestAfter(s.produced, p, u);
    }
  }

  /** Another caller never leads a fetch of the same URL, so its kept list is still the last one. */
  lemma {:induction false} StoreKeepsCaller<L>(s: State<L>, t: State<L>, p: Product<L>, g: nat, h: nat)
    requires Inv(s) && IsCaller(s, g) && IsCaller(s, h) && h != g && |t.callers| == |s.callers|
    requires Driving(s.callers[g]) && s.callers[g].url == p.url
    requires t.produced == s.produced + [p] && t.fetches == s.fetches && t.callers[h] == s.callers[h]
    ensures CallerOk(t, h)
  {
    assert CallerOk(s, h) && DriverOk(s, h) && DriverOk(s, g);
    var c := s.callers[h];
    if Driving(c) {
      OneFetcher(s, g, h);
    }
    LatestAfter(s.produced, p, c.url);
    if c.Answered? && c.answer.Some? {
      ProducedStays(s, t, p, c.url, c.answer.value);
    }
  }

  /** At most one goroutine is fetching a given URL. */
  lemma {:induction false} OneFetcher<L>(s: State<L>, g: nat, h: nat)
    requires Inv(s) && IsCaller(s, g) && IsCaller(s, h) && g != h
    requires Driving(s.callers[g]) && Driving(s.callers[h])
    ensures s.callers[g].url != s.callers[h].url
  {
    assert DriverOk(s, g) && DriverOk(s, h);
    assert FetchOk(s, s.callers[g].fetch) && FetchOk(s, s.callers[h].fetch);
  }

  lemma {:induction false} FailKeepsInv<L>(s: State<L>, g: nat)
    requires Inv(s) && Enabled(s, FetchFails(g))
    ensures Inv(Next(s, FetchFails(g)))
  {
    var t := Next(s, FetchFails(g));
    var c := s.callers[g];
    SameLists(s, t);
    assert DriverOk(s, g) && CallerOk(s, g);
    if c.stale.Some? {
      LatestProduced(s, c.url);
    }
    OthersKept(s, t, g, c.fetch);
    assert FetchOk(s, c.fetch);
  }

  lemma {:induction false} PublishKeepsInv<L>(s: State<L>, g: nat)
    requires Inv(s) && Enabled(s, Publish(g))
    ensures Inv(Next(s, Publish(g)))
  {
    var t := Next(s, Publish(g));
    var c := s.callers[g];
    SameLists(s, t);
    assert DriverOk(s, g) && CallerOk(s, g);
    LatestProduced(s, c.url);
    OthersKept(s, t, g, c.fetch);
    assert FetchOk(s, c.fetch);
  }

  lemma {:induction false} CloseKeepsInv<L>(s: State<L>, g: nat)
    requires Inv(s) && Enabled(s, Close(g))
    ensures Inv(Shut(s, g))
  {
    var t := Shut(s, g);
    var c := s.callers[g];
    assert DriverOk(s, g) && FetchOk(s, c.fetch);
    SameLists(s, t);
    OthersKept(s, t, g, c.fetch);
    assert FetchOk(t, c.fetch);
    assert DriverOk(t, g) && CallerOk(t, g);
    CloseKeepsInflight(s, g);
  }

  lemma {:induction false} CloseKeepsInflight<L>(s: State<L>, g: nat)
    requires InflightOk(s) && Enabled(s, Close(g)) && DriverOk(s, g)
    ensures InflightOk(Shut(s, g))
  {
  }

  lemma {:induction false} WakeKeepsInv<L>(s: State<L>, g: nat)
    requires Inv(s) && Enabled(s, Wake(g))
    ensures Inv(Next(s, Wake(g)))
  {
    var t := Next(s, Wake(g));
    var c := s.callers[g];
    SameLists(s, t);
    assert DriverOk(s, g) && CallerOk(s, g);
    OthersKept(s, t, g, c.fetch);
    assert FetchOk(s, c.fetch);
  }

  ghost predicate Leads<L>(s: State<L>, g: nat, f: nat)
    requires IsCaller(s, g) && f < |s.fetches|
  {
    s.fetches[f].leader == g && Drives(s.callers[g], f) && !s.fetches[f].done
  }

  /** A step of caller `g` on its fetch `f`, which it leads or waits for, disturbs nobody else. */
  lemma {:induction false} OthersKept<L>(s: State<L>, t: State<L>, g: nat, f: nat)
    requires Inv(s) && IsCaller(s, g) && f < |s.fetches|
    requires t.produced == s.produced && Elsewhere(s, t, g, f)
    requires t.inflight == s.inflight || t.inflight == s.inflight - {s.fetches[f].url}
    requires t.fetches[f].(links := s.fetches[f].links, done := s.fetches[f].done) == s.fetches[f]
    requires Leads(s, g, f) || (t.fetches == s.fetches && t.inflight == s.inflight && s.callers[g].Waiting?)
    ensures forall h | 0 <= h < |s.callers| && h != g :: DriverOk(t, h) && CallerOk(t, h)
    ensures forall x | 0 <= x < |s.fetches| && x != f :: FetchOk(t, x)
  {
    SameLists(s, t);
    assert FetchOk(s, f);
    forall h | 0 <= h < |s.callers| && h != g
      ensures DriverOk(t, h) && CallerOk(t, h)
    {
      assert DriverOk(s, h) && CallerOk(s, h);
    }
    forall x | 0 <= x < |s.fetches| && x != f
      ensures FetchOk(t, x)
    {
      assert FetchOk(s, x);
    }
  }

  /** Callers other than `g` and fetches other than `f` are as before. */
  ghost predicate Elsewhere<L>(s: State<L>, t: State<L>, g: nat, f: nat) {
    && |t.callers| == |s.callers| && |t.fetches| == |s.fetches|
    && (forall i | 0 <= i < |s.callers| && i != g :: t.callers[i] == s.callers[i])
    && (forall i | 0 <= i < |s.fetches| && i != f :: t.fetches[i] == s.fetches[i])
  }

  // ---------------------------------------------------------------- runs

  lemma {:induction false} StepKeepsInv<L>(s: State<L>, step: Step<L>)
    requires Inv(s) && Enabled(s, step)
    ensures Inv(Next(s, step))
  {
    match step
    case Arrive(rawURL, now) => EnterKeepsInv(s, TrimSpace(rawURL), now);
    case FetchFails(g) => FailKeepsInv(s, g);
    case Store(g, links, now, kept) => StoreKeepsInv(s, g, links, now, kept);
    case Publish(g) => PublishKeepsInv(s, g);
    case Close(g) => CloseKeepsInv(s, g);
    case Wake(g) => WakeKeepsInv(s, g);
  }

  ghost predicate Runs<L>(s: State<L>, steps: seq<Step<L>>)
    decreases |steps|
  {
    steps == [] || (Enabled(s, steps[0]) && Runs(Next(s, steps[0]), steps[1..]))
  }

  ghost function After<L>(s: State<L>, steps: seq<Step<L>>): State<L>
    requires Runs(s, steps)
    decreases |steps|
  {
    if steps == [] then s else After(Next(s, steps[0]), steps[1..])
  }

  lemma {:induction false} RunKeepsInv<L>(s: State<L>, steps: seq<Step<L>>)
    requires Inv(s) && Runs(s, steps)
    ensures Inv(After(s, steps))
    decreases |steps|
  {
    if steps != [] {
      StepKeepsInv(s, steps[0]);
      RunKeepsInv(Next(s, steps[0]), steps[1..]);
    }
  }

  /** Whatever the interleaving: one fetcher a URL, every waiter answered exactly as the leader
      it waited for, no answer but none or a list fetched for that very URL, and a bounded cache. */
  lemma {:induction false} EveryRun<L>(steps: seq<Step<L>>)
    requires Runs(Empty<L>(), steps)
    ensures var s := After(Empty<L>(), steps);
      && |s.cache| <= 256
      && (forall g, h | 0 <= g < h < |s.callers| && Driving(s.callers[g]) && Driving(s.callers[h]) ::
            s.callers[g].url != s.callers[h].url)
      && (forall g | 0 <= g < |s.callers| && s.callers[g].Answered? :: AnswerOk(s, g))
  {
    RunKeepsInv(Empty<L>(), steps);
    var s := After(Empty<L>(), steps);
    forall g, h | 0 <= g < h < |s.callers| && Driving(s.callers[g]) && Driving(s.callers[h])
      ensures s.callers[g].url != s.callers[h].url
    {
      OneFetcher(s, g, h);
    }
    forall g | 0 <= g < |s.callers| && s.callers[g].Answered?
      ensures AnswerOk(s, g)
    {
      assert CallerOk(s, g);
      if s.callers[g].via.Some? {
        var f := s.callers[g].via.value;
        assert FetchOk(s, f);
        assert CallerOk(s, s.fetches[f].leader);
      }
    }
  }

  ghost predicate AnswerOk<L>(s: State<L>, g: nat)
    requires IsCaller(s, g) && s.callers[g].Answered?
  {
    var c := s.callers[g];
    && (c.answer.Some? ==> Produced(s, c.url, c.answer.value))
    && (c.via.Some? ==> c.via.value < |s.fetches| && SameAsLeader(s, c, s.fetches[c.via.value].leader))
  }

  predicate SameAsLeader<L(==)>(s: State<L>, c: Caller<L>, leader: nat)
    requires c.Answered?
  {
    && leader < |s.callers| && s.callers[leader].Answered?
    && s.callers[leader].url == c.url && s.callers[leader].answer == c.answer
  }

  /** A done channel is closed once: the caller that closes it finds it open. */
  lemma {:induction false} ClosedOnce<L>(s: State<L>, g: nat)
    requires Inv(s) && Enabled(s, Close(g))
    ensures !Fetched(s, s.callers[g].fetch) && s.callers[g].url in s.inflight
  {
    assert DriverOk(s, g);
    assert FetchOk(s, s.callers[g].fetch);
  }

  ghost predicate AnswersKept<L>(s: State<L>, t: State<L>) {
    && |t.callers| >= |s.callers| && s.produced <= t.produced
    && forall g | 0 <= g < |s.callers| && s.callers[g].Answered? :: t.callers[g] == s.callers[g]
  }

  lemma {:induction false} OneCallerMoves<L>(s: State<L>, t: State<L>, g: nat, c: Caller<L>)
    requires IsCaller(s, g) && !s.callers[g].Answered? && t.callers == s.callers[g := c] && s.produced <= t.produced
    ensures AnswersKept(s, t)
  {
  }

  /** Answers never change again. */
  lemma {:induction false} StepKeepsAnswers<L>(s: State<L>, step: Step<L>)
    requires Enabled(s, step)
    ensures AnswersKept(s, Next(s, step))
  {
    var t := Next(s, step);
    if !step.Arrive? {
      OneCallerMoves(s, t, step.g, t.callers[step.g]);
    }
  }

  lemma {:induction false} OneFetchMoves<L>(s: State<L>, t: State<L>, x: nat, f: nat)
    requires Fetched(s, f) && !Fetched(s, x) && |t.fetches| >= |s.fetches|
    requires forall i | 0 <= i < |s.fetches| && i != x :: t.fetches[i] == s.fetches[i]
    ensures f < |t.fetches| && t.fetches[f] == s.fetches[f]
  {
  }

  /** Nor do finished fetches, so what a waiter reads is final. */
  lemma {:induction false} StepKeepsFinishedFetches<L>(s: State<L>, step: Step<L>, f: nat)
    requires Inv(s) && Enabled(s, step) && Fetched(s, f)
    ensures f < |Next(s, step).fetches| && Next(s, step).fetches[f] == s.fetches[f]
  {
    if step.FetchFails? || step.Publish? || step.Close? {
      assert DriverOk(s, step.g);
      OneFetchMoves(s, Next(s, step), s.callers[step.g].fetch, f);
    }
  }

  /** An entry of the cache less than five minutes old. */
  predicate IsFresh<L>(s: State<L>, url: Url, now: int) {
    url in s.cache && now - s.cache[url].fetchedAt < 300
  }

  /** A call is answered at once, without a request, exactly when its URL is blank or has a fresh
      entry, and a fresh entry is the last list fetched for it. */
  lemma {:induction false} HitIsFresh<L>(s: State<L>, rawURL: Bytes, now: int)
    requires Inv(s)
    ensures var t, url := Next(s, Arrive(rawURL, now)), TrimSpace(rawURL);
      var c := t.callers[|s.callers|];
      && t.callers == s.callers + [c] && c.url == url
      && (c.Answered? <==> url == [] || IsFresh(s, url, now))
      && (c.Answered? ==> t.fetches == s.fetches && t.inflight == s.inflight && t.cache == s.cache)
      && (url == [] ==> c.answer == None)
      && (IsFresh(s, url, now) ==>
            var last := Latest(s.produced, url);
            last == Some(s.cache[url]) && c.answer == Some(last.value.links))
  {
    assert CacheOk(s);
  }

  /** Any other call waits for the fetch of its URL that is in flight, or opens one and keeps the
      list cached at that moment, if there is one, for a failure. */
  lemma {:induction false} MissWaitsOrLeads<L>(s: State<L>, rawURL: Bytes, now: int)
    requires Inv(s) && TrimSpace(rawURL) != [] && !IsFresh(s, TrimSpace(rawURL), now)
    ensures var t, url := Next(s, Arrive(rawURL, now)), TrimSpace(rawURL);
      var c := t.callers[|s.callers|];
      if url in s.inflight then
        c == Waiting(url, s.inflight[url]) && t == s.(callers := s.callers + [c])
      else
        && c == Leading(url, |s.fetches|, CachedLinks(s, url))
        && t == s.(callers := s.callers + [c], inflight := s.inflight[url := |s.fetches|],
                   fetches := s.fetches + [Fetch(url, None, false, |s.callers|)])
  {
  }

  function CachedLinks<L>(s: State<L>, url: Url): Option<L> {
    if url in s.cache then Some(s.cache[url].links) else None
  }

  /** A failed fetch answers the last list fetched for its URL, if it was cached at the start. */
  lemma {:induction false} FailureFallsBack<L>(s: State<L>, g: nat)
    requires Inv(s) && Enabled(s, FetchFails(g))
    ensures var c := s.callers[g];
      var links := LinksOf(Next(s, FetchFails(g)), c.fetch);
      if c.stale.None? then links.None?
      else Latest(s.produced, c.url).Some? && links == Some(Latest(s.produced, c.url).value.links)
  {
    assert CallerOk(s, g) && DriverOk(s, g);
  }

  lemma {:induction false} SameSize<T>(m: map<Url, T>, kept: map<Url, T>)
    requires (forall u <- kept :: u in m && kept[u] == m[u]) && |kept| == |m|
    ensures kept == m
  {
    assert kept.Keys <= m.Keys && |kept.Keys| == |kept| && |m.Keys| == |m|;
    SubsetIsAll(kept.Keys, m.Keys);
  }

  lemma {:induction false} SubsetIsAll<T>(a: set<T>, b: set<T>)
    requires a <= b && |a| == |b|
    ensures a == b
  {
    if x :| x in b && x !in a {
      SubsetSize(a, b - {x});
      assert false;
    }
  }

  /** Nothing is evicted as long as 256 entries suffice; otherwise 256 are left, and what goes is no
      newer than what stays, the entry just stored aside. */
  lemma {:induction false} StoreEvictsTheOldest<L>(s: State<L>, g: nat, links: L, now: int, kept: map<Url, Entry<L>>)
    requires Inv(s) && Enabled(s, Store(g, links, now, kept))
    ensures var url, t := s.callers[g].url, Next(s, Store(g, links, now, kept));
      var full := s.cache[url := Entry(links, now)];
      if |full| <= 256 then t.cache == full
      else
        && |t.cache| == 256 && (forall u <- t.cache :: u in full && t.cache[u] == full[u])
        && forall gone <- full, u <- t.cache | gone !in t.cache && u != url :: full[gone].fetchedAt <= t.cache[u].fetchedAt
  {
    var full := s.cache[s.callers[g].url := Entry(links, now)];
    if |full| <= 256 {
      SameSize(full, kept);
    }
  }

  /** The list just stored survives its own eviction, and it is what the waiters will be given. */
  lemma {:induction false} StoredSurvives<L>(s: State<L>, g: nat, links: L, now: int, kept: map<Url, Entry<L>>)
    requires Inv(s) && Enabled(s, Store(g, links, now, kept))
    ensures var url, f := s.callers[g].url, s.callers[g].fetch;
      var t := Next(s, Store(g, links, now, kept));
      && |t.cache| <= CAPACITY && url in t.cache && t.cache[url] == Entry(links, now)
      && Enabled(t, Publish(g)) && LinksOf(Next(t, Publish(g)), f) == Some(links)
  {
    assert DriverOk(s, g);
  }

  // ---------------------------------------------------------------- what a leader answers

  lemma {:induction false} StillNotLeading<L>(s: State<L>, step: Step<L>, g: nat)
    requires Enabled(s, step) && IsCaller(s, g) && !s.callers[g].Leading?
    ensures IsCaller(Next(s, step), g) && !Next(s, step).callers[g].Leading?
    ensures step != FetchFails(g) && !(step.Store? && step.g == g)
  {
  }

  /** A caller that does not lead never comes to lead. */
  lemma {:induction false} NeverLeadsAgain<L>(s: State<L>, steps: seq<Step<L>>, g: nat)
    requires Runs(s, steps) && IsCaller(s, g) && !s.callers[g].Leading?
    ensures forall i | 0 <= i < |steps| :: steps[i] != FetchFails(g) && !(steps[i].Store? && steps[i].g == g)
    decreases |steps|
  {
    if steps != [] {
      StillNotLeading(s, steps[0], g);
      NeverLeadsAgain(Next(s, steps[0]), steps[1..], g);
      forall i | 0 < i < |steps|
        ensures steps[i] != FetchFails(g) && !(steps[i].Store? && steps[i].g == g)
      {
        assert steps[i] == steps[1..][i - 1];
      }
    }
  }

  lemma {:induction false} AnswerStays<L>(s: State<L>, steps: seq<Step<L>>, g: nat)
    requires Runs(s, steps) && IsCaller(s, g) && s.callers[g].Answered?
    ensures IsCaller(After(s, steps), g) && After(s, steps).callers[g] == s.callers[g]
    decreases |steps|
  {
    if steps != [] {
      StepKeepsAnswers(s, steps[0]);
      AnswerStays(Next(s, steps[0]), steps[1..], g);
    }
  }

  /** The caller and the state of its fetch are the same. */
  predicate LeftAlone<L(==)>(s: State<L>, t: State<L>, g: nat, f: nat) {
    IsCaller(s, g) && IsCaller(t, g) && t.callers[g] == s.callers[g] && LinksOf(t, f) == LinksOf(s, f)
  }

  lemma {:induction false} ArrivalLeavesIt<L>(s: State<L>, url: Url, now: int, g: nat, f: nat)
    requires IsCaller(s, g) && f < |s.fetches|
    ensures LeftAlone(s, Enter(s, url, now), g, f)
  {
  }

  lemma {:induction false} OtherFetch<L>(s: State<L>, t: State<L>, g: nat, f: nat, h: nat, x: nat)
    requires Elsewhere(s, t, h, x) && IsCaller(s, g) && g != h && f < |s.fetches| && f != x
    ensures LeftAlone(s, t, g, f)
  {
  }

  lemma {:induction false} MovesElsewhere<L>(s: State<L>, step: Step<L>)
    requires Inv(s) && Enabled(s, step) && !step.Arrive? && Driving(s.callers[step.g])
    ensures Elsewhere(s, Next(s, step), step.g, s.callers[step.g].fetch)
  {
  }

  lemma {:induction false} WakeLeavesIt<L>(s: State<L>, h: nat, g: nat, f: nat)
    requires Enabled(s, Wake(h)) && IsCaller(s, g) && g != h && f < |s.fetches|
    ensures LeftAlone(s, Next(s, Wake(h)), g, f)
  {
  }

  /** The steps of other calls leave a leader and its fetch alone. */
  lemma {:induction false} OthersLeaveIt<L>(s: State<L>, step: Step<L>, g: nat)
    requires Inv(s) && Enabled(s, step) && IsCaller(s, g) && Driving(s.callers[g]) && (step.Arrive? || step.g != g)
    ensures LeftAlone(s, Next(s, step), g, s.callers[g].fetch)
  {
    assert DriverOk(s, g);
    var f := s.callers[g].fetch;
    if step.Arrive? {
      ArrivalLeavesIt(s, TrimSpace(step.rawURL), step.now, g, f);
    } else if step.Wake? {
      WakeLeavesIt(s, step.g, g, f);
    } else {
      assert DriverOk(s, step.g);
      MovesElsewhere(s, step);
      OtherFetch(s, Next(s, step), g, f, step.g, s.callers[step.g].fetch);
    }
  }

  predicate AnswerIs<L(==)>(s: State<L>, g: nat, answer: Option<L>) {
    IsCaller(s, g) && s.callers[g].Answered? ==> s.callers[g].answer == answer
  }

  lemma {:induction false} ClosingAnswers<L>(s: State<L>, steps: seq<Step<L>>, g: nat)
    requires Inv(s) && Runs(s, steps) && IsCaller(s, g) && s.callers[g].Closing?
    ensures AnswerIs(After(s, steps), g, LinksOf(s, s.callers[g].fetch))
    decreases |steps|
  {
    if steps != [] {
      var t := Next(s, steps[0]);
      StepKeepsInv(s, steps[0]);
      if steps[0] == Close(g) {
        AnswerStays(t, steps[1..], g);
      } else {
        OthersLeaveIt(s, steps[0], g);
        ClosingAnswers(t, steps[1..], g);
      }
    }
  }

  lemma {:induction false} StoredAnswers<L>(s: State<L>, steps: seq<Step<L>>, g: nat)
    requires Inv(s) && Runs(s, steps) && IsCaller(s, g) && s.callers[g].Stored?
    ensures AnswerIs(After(s, steps), g, Some(s.callers[g].links))
    decreases |steps|
  {
    if steps != [] {
      var t := Next(s, steps[0]);
      StepKeepsInv(s, steps[0]);
      if steps[0] == Publish(g) {
        assert DriverOk(s, g);
        ClosingAnswers(t, steps[1..], g);
      } else {
        OthersLeaveIt(s, steps[0], g);
        StoredAnswers(t, steps[1..], g);
      }
    }
  }

  /** A leader answers what it kept when its fetch fails, and what it fetched when it does not. */
  lemma {:induction false} LeaderAnswers<L>(s: State<L>, steps: seq<Step<L>>, g: nat)
    requires Inv(s) && Runs(s, steps) && IsCaller(s, g) && s.callers[g].Leading?
    ensures FetchFails(g) in steps ==> AnswerIs(After(s, steps), g, s.callers[g].stale)
    ensures forall i | 0 <= i < |steps| && steps[i].Store? && steps[i].g == g :: AnswerIs(After(s, steps), g, Some(steps[i].links))
    decreases |steps|
  {
    if steps != [] {
      var t := Next(s, steps[0]);
      StepKeepsInv(s, steps[0]);
      if steps[0] == FetchFails(g) {
        FailedLinks(s, g);
        ClosingAnswers(t, steps[1..], g);
        NeverLeadsAgain(t, steps[1..], g);
        assert forall i | 0 < i < |steps| :: steps[i] == steps[1..][i - 1];
      } else if steps[0].Store? && steps[0].g == g {
        StoredAnswers(t, steps[1..], g);
        NeverLeadsAgain(t, steps[1..], g);
        assert forall i | 0 < i < |steps| :: steps[i] == steps[1..][i - 1];
      } else {
        OthersLeaveIt(s, steps[0], g);
        LeaderAnswers(t, steps[1..], g);
        assert forall i | 0 < i < |steps| :: steps[i] == steps[1..][i - 1];
      }
    }
  }

  lemma {:induction false} FailedLinks<L>(s: State<L>, g: nat)
    requires Inv(s) && Enabled(s, FetchFails(g))
    ensures LinksOf(Next(s, FetchFails(g)), s.callers[g].fetch) == s.callers[g].stale
  {
    assert CallerOk(s, g) && DriverOk(s, g);
  }

  /** From its arrival on, in every interleaving: a call that had to fetch its URL is answered the
      list cached when it came if the fetch fails, nothing if none was cached, and the fetched list
      if it succeeds. */
  lemma {:induction false} FetchIsAnswered<L>(s: State<L>, rawURL: Bytes, now: int, steps: seq<Step<L>>)
    requires Inv(s) && TrimSpace(rawURL) != [] && !IsFresh(s, TrimSpace(rawURL), now)
    requires TrimSpace(rawURL) !in s.inflight && Runs(Next(s, Arrive(rawURL, now)), steps)
    ensures var g, t := |s.callers|, After(Next(s, Arrive(rawURL, now)), steps);
      && (FetchFails(g) in steps ==> AnswerIs(t, g, CachedLinks(s, TrimSpace(rawURL))))
      && (forall i | 0 <= i < |steps| && steps[i].Store? && steps[i].g == g :: AnswerIs(t, g, Some(steps[i].links)))
  {
    MissWaitsOrLeads(s, rawURL, now);
    StepKeepsInv(s, Arrive(rawURL, now));
    LeaderAnswers(Next(s, Arrive(rawURL, now)), steps, |s.callers|);
  }

  // ---------------------------------------------------------------- no waiter is stranded

  function Rank<L>(c: Caller<L>): nat {
    match c
    case Leading(_, _, _) => 3
    case Stored(_, _, _) => 2
    case Closing(_, _) => 1
    case _ => 0
  }

  /** A step the leader itself can always take next. */
  function Onward<L>(c: Caller<L>, l: nat): Step<L> {
    match c
    case Stored(_, _, _) => Publish(l)
    case Closing(_, _) => Close(l)
    case _ => FetchFails(l)
  }

  ghost predicate CanAdvance<L>(s: State<L>, l: nat)
    requires IsCaller(s, l)
  {
    var step := Onward(s.callers[l], l);
    Enabled(s, step) && IsCaller(Next(s, step), l) && Rank(Next(s, step).callers[l]) < Rank(s.callers[l])
  }

  lemma {:induction false} LeaderAdvances<L>(s: State<L>, l: nat)
    requires IsCaller(s, l) && Driving(s.callers[l])
    ensures CanAdvance(s, l)
  {
  }

  /** No waiter is stranded: its fetch is done, or the leader has a next step of its own, nearer
      to closing the fetch. */
  lemma {:induction false} WaiterIsServed<L>(s: State<L>, g: nat)
    requires Inv(s) && IsCaller(s, g) && s.callers[g].Waiting?
    ensures var f := s.callers[g].fetch;
      f < |s.fetches| && if s.fetches[f].done then Enabled(s, Wake(g)) else LedOn(s, f)
  {
    assert CallerOk(s, g);
    var f := s.callers[g].fetch;
    assert FetchOk(s, f);
    if !s.fetches[f].done {
      LeaderAdvances(s, s.fetches[f].leader);
    }
  }

  /** The leader of the fetch is at work on it and can go on. */
  ghost predicate LedOn<L>(s: State<L>, f: nat)
    requires f < |s.fetches|
  {
    var l := s.fetches[f].leader;
    IsCaller(s, l) && Drives(s.callers[l], f) && CanAdvance(s, l)
  }

  // ---------------------------------------------------------------- every call is answered

  /** The steps a call still has before it, whoever it waits for. */
  function Left<L>(c: Caller<L>): nat {
    match c
    case Leading(_, _, _) => 3
    case Stored(_, _, _) => 2
    case Closing(_, _) => 1
    case Waiting(_, _) => 1
    case Answered(_, _, _) => 0
  }

  function AllLeft<L>(callers: seq<Caller<L>>): nat
    decreases |callers|
  {
    if callers == [] then 0 else AllLeft(callers[..|callers| - 1]) + Left(callers[|callers| - 1])
  }

  lemma {:induction false} OneLess<L>(callers: seq<Caller<L>>, g: nat, c: Caller<L>)
    requires g < |callers| && Left(c) < Left(callers[g])
    ensures AllLeft(callers[g := c]) < AllLeft(callers)
    decreases |callers|
  {
    var n := |callers| - 1;
    if g < n {
      OneLess(callers[..n], g, c);
      assert callers[g := c][..n] == callers[..n][g := c];
    } else {
      assert callers[g := c][..n] == callers[..n];
    }
  }

  /** Every step but the arrival of a call leaves less to do. */
  lemma {:induction false} StepsRunOut<L>(s: State<L>, step: Step<L>)
    requires Enabled(s, step) && !step.Arrive?
    ensures AllLeft(Next(s, step).callers) < AllLeft(s.callers)
  {
    var c := Next(s, step).callers[step.g];
    assert Next(s, step).callers == s.callers[step.g := c];
    OneLess(s.callers, step.g, c);
  }

  predicate CanMove<L>(s: State<L>, g: nat) {
    IsCaller(s, g) && (Driving(s.callers[g]) || (s.callers[g].Waiting? && Fetched(s, s.callers[g].fetch)))
  }

  /** No call at hand can take a step. */
  ghost predicate Stuck<L(!new)>(s: State<L>) {
    forall step: Step<L> | !step.Arrive? :: !Enabled(s, step)
  }

  lemma {:induction false} MoverSteps<L(!new)>(s: State<L>, g: nat)
    requires CanMove(s, g)
    ensures !Stuck(s)
  {
    var step: Step<L> := if s.callers[g].Waiting? then Wake(g) else Onward(s.callers[g], g);
    assert Enabled(s, step);
  }

  /** As long as a call has no answer it or the leader it waits for can move. */
  lemma {:induction false} Mover<L>(s: State<L>, g: nat) returns (h: nat)
    requires Inv(s) && IsCaller(s, g) && !s.callers[g].Answered?
    ensures CanMove(s, h)
  {
    h := g;
    if s.callers[g].Waiting? && !Fetched(s, s.callers[g].fetch) {
      WaiterIsServed(s, g);
      h := s.fetches[s.callers[g].fetch].leader;
    }
  }

  /** Nothing can move only when every call has its answer. */
  lemma {:induction false} StuckIsAnswered<L(!new)>(s: State<L>, g: nat)
    requires Inv(s) && Stuck(s) && IsCaller(s, g)
    ensures s.callers[g].Answered?
  {
    if !s.callers[g].Answered? {
      var h := Mover(s, g);
      MoverSteps(s, h);
      assert false;
    }
  }

  /** However the calls at hand are scheduled, with no new ones arriving: they take no more steps
      than are left to them, and when none can take another every call has been answered. */
  lemma {:induction false} CallsAreAnswered<L(!new)>(s: State<L>, steps: seq<Step<L>>)
    requires Inv(s) && Runs(s, steps) && forall i | 0 <= i < |steps| :: !steps[i].Arrive?
    ensures |steps| + AllLeft(After(s, steps).callers) <= AllLeft(s.callers)
    ensures Stuck(After(s, steps)) ==> forall g | 0 <= g < |After(s, steps).callers| :: After(s, steps).callers[g].Answered?
    decreases |steps|
  {
    if steps == [] {
      if Stuck(s) {
        forall g | 0 <= g < |s.callers|
          ensures s.callers[g].Answered?
        {
          StuckIsAnswered(s, g);
        }
      }
    } else {
      StepKeepsInv(s, steps[0]);
      StepsRunOut(s, steps[0]);
      CallsAreAnswered(Next(s, steps[0]), steps[1..]);
    }
  }

  // ---------------------------------------------------------------- the shared cache

  class Cache<L> {
    var m: map<Url, Entry<L>>
    var inflight: map<Url, nat>

    constructor ()
      ensures m == map[] && inflight == map[]
    {
      m, inflight := map[], map[];
    }

    method Lookup(url: Url, now: int, next: nat) returns (found: Lookup<L>)
      modifies this`inflight
      ensures found == Look(m, old(inflight), url, now)
      ensures inflight == if found.Lead? then old(inflight)[url := next] else old(inflight)
    {
      var ok := url in m;
      if ok && now - m[url].fetchedAt < TTL {
        return Hit(m[url].links);
      }
      if url in inflight {
        return Wait(inflight[url]);
      }
      inflight := inflight[url := next];
      found := Lead(if ok then Some(m[url].links) else None);
    }

    /** The oldest entry but `keep`; [] when there is no other. */
    method Oldest(keep: Url) returns (url: Url)
      requires [] !in m
      ensures url == [] ==> forall u <- m :: u == keep
      ensures url != [] ==> url in m && url != keep
      ensures url != [] ==> forall u <- m | u != keep :: m[url].fetchedAt <= m[u].fetchedAt
    {
      url := [];
      var oldest := 0;
      var rest := m.Keys;
      while rest != {}
        invariant rest <= m.Keys
        invariant url == [] ==> forall u <- m | u !in rest :: u == keep
        invariant url != [] ==> url in m && url != keep && m[url].fetchedAt == oldest
        invariant url != [] ==> forall u <- m | u !in rest && u != keep :: oldest <= m[u].fetchedAt
        decreases |rest|
      {
        var u :| u in rest;
        rest := rest - {u};
        if u != keep && (url == [] || m[u].fetchedAt < oldest) {
          url, oldest := u, m[u].fetchedAt;
        }
      }
    }

    method Trim(keep: Url)
      requires [] !in m && keep in m
      modifies this`m
      ensures TrimsTo(old(m), keep, m)
    {
      while |m| > CAPACITY
        invariant forall u <- m :: u in old(m) && m[u] == old(m)[u]
        invariant keep in m
        invariant |m| >= CAPACITY || m == old(m)
        invariant |m| <= |old(m)|
        invariant OldestGo(old(m), keep, m)
        decreases |m|
      {
        var oldest := Oldest(keep);
        if oldest == [] {
          OnlyOne(m, keep);
          assert false;
        }
        m := m - {oldest};
      }
    }

    /** The second lock section, which a leader enters with the list it fetched. */
    method Keep(url: Url, links: L, now: int)
      requires [] !in m && url != []
      modifies this`m
      ensures TrimsTo(old(m)[url := Entry(links, now)], url, m)
    {
      m := m[url := Entry(links, now)];
      Trim(url);
    }

    method Release(url: Url)
      modifies this`inflight
      ensures inflight == old(inflight) - {url}
    {
      inflight := inflight - {url};
    }
  }

  lemma {:induction false} OnlyOne<T>(m: map<Url, T>, keep: Url)
    requires forall u <- m :: u == keep
    ensures |m| <= 1
  {
    assert m.Keys <= {keep};
    SubsetSize(m.Keys, {keep});
  }

}
