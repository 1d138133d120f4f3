/** Collecting client traffic from the sidecars: a snapshot under the lock, a scrape without it and
    a write-back under it again, while processes come, go and count. */
module MtprotoTraffic {
  import opened Collections
  import opened Text
  import opened MtprotoManager

  type Email = Bytes

  const ZERO := Counters(0, 0)

  predicate Le(a: Counters, b: Counters) {
    a.up <= b.up && a.down <= b.down
  }

  predicate Same(a: Counters, b: Counters) {
    a.up == b.up && a.down == b.down
  }

  predicate SumsTo(a: Counters, b: Counters, sum: Counters) {
    a.up + b.up == sum.up && a.down + b.down == sum.down
  }

  function At(m: map<Email, Counters>, e: Email): Counters {
    if e in m then m[e] else ZERO
  }

  /** Growth since the previous scrape, never negative; none when there was no previous one. */
  function Delta(last: map<Email, Counters>, e: Email, now: Counters): Counters {
    if e in last then
      Counters(if now.up < last[e].up then 0 else now.up - last[e].up,
               if now.down < last[e].down then 0 else now.down - last[e].down)
    else ZERO
  }

  function Credited(reported: Counters, last: map<Email, Counters>, e: Email, now: Counters): Counters {
    var d := Delta(last, e, now);
    Counters(reported.up + d.up, reported.down + d.down)
  }

  // ---------------------------------------------------------------- one scraped process

  datatype User = User(bytesIn: int, bytesOut: int, connections: int)

  datatype Traffic = Traffic(tag: Bytes, email: Email, up: int, down: int)

  function Reading(u: User): Counters {
    Counters(u.bytesIn, u.bytesOut)
  }

  function TrafficOf(tag: Bytes, e: Email, d: Counters): Traffic {
    Traffic(tag, e, d.up, d.down)
  }

  /** The report has one line for every client that moved bytes, and no other line. */
  ghost predicate Reports(out: seq<Traffic>, tag: Bytes, users: map<Email, User>, last: map<Email, Counters>) {
    && (forall i | 0 <= i < |out| :: LineOk(out[i], tag, users, last))
    && (forall i, j | 0 <= i < j < |out| :: out[i].email != out[j].email)
    && (forall e <- users | Delta(last, e, Reading(users[e])) != ZERO :: Listed(out, e))
  }

  ghost predicate Listed(out: seq<Traffic>, e: Email) {
    exists i | 0 <= i < |out| :: out[i].email == e
  }

  function Readings(users: map<Email, User>): map<Email, Counters> {
    map e | e in users :: Reading(users[e])
  }

  function Online(users: map<Email, User>): set<Email> {
    set e | e in users && users[e].connections > 0
  }

  ghost predicate LineOk(t: Traffic, tag: Bytes, users: map<Email, User>, last: map<Email, Counters>) {
    && t.email in users && t == TrafficOf(tag, t.email, Delta(last, t.email, Reading(users[t.email])))
    && Counters(t.up, t.down) != ZERO
  }

  /** Bytes since the previous scrape; a counter below the previous one moved nothing. */
  function Grown(now: int, was: int): int {
    if now < was then 0 else now - was
  }

  predicate Moved(u: User, was: Counters) {
    u.bytesIn > was.up || u.bytesOut > was.down
  }

  /** A client's upload is what the sidecar took in since the previous scrape, and its download what
      the sidecar put out. */
  predicate BillsUser(t: Traffic, tag: Bytes, users: map<Email, User>, last: map<Email, Counters>) {
    && t.email in users && t.email in last && t.tag == tag
    && t.up == Grown(users[t.email].bytesIn, last[t.email].up)
    && t.down == Grown(users[t.email].bytesOut, last[t.email].down)
    && Moved(users[t.email], last[t.email])
  }

  /** The bill of one scrape: a line for every client of the previous scrape that moved bytes, and
      no other line. */
  ghost predicate Bills(out: seq<Traffic>, tag: Bytes, users: map<Email, User>, last: map<Email, Counters>) {
    && (forall i | 0 <= i < |out| :: BillsUser(out[i], tag, users, last))
    && (forall i, j | 0 <= i < j < |out| :: out[i].email != out[j].email)
    && (forall e <- users | e in last && Moved(users[e], last[e]) :: Listed(out, e))
  }

  lemma {:induction false} ReportsBill(out: seq<Traffic>, tag: Bytes, users: map<Email, User>, last: map<Email, Counters>)
    requires Reports(out, tag, users, last)
    ensures Bills(out, tag, users, last)
  {
    forall i | 0 <= i < |out|
      ensures BillsUser(out[i], tag, users, last)
    {
      assert LineOk(out[i], tag, users, last);
    }
    forall e | e in users && e in last && Moved(users[e], last[e])
      ensures Listed(out, e)
    {
      assert Delta(last, e, Reading(users[e])) != ZERO;
    }
  }

  /** The baseline of the next scrape. */
  ghost predicate Notes(newLast: map<Email, Counters>, users: map<Email, User>) {
    && newLast.Keys == users.Keys
    && forall e <- users :: newLast[e].up == users[e].bytesIn && newLast[e].down == users[e].bytesOut
  }

  /** All users but `rest` are dealt with. */
  ghost predicate Visited(tag: Bytes, users: map<Email, User>, last: map<Email, Counters>, rest: set<Email>,
    out: seq<Traffic>, online: set<Email>, newLast: map<Email, Counters>)
  {
    newLast == Readings(users) - rest && online == Online(users) - rest && Reports(out, tag, users - rest, last)
  }

  /** The loop over the users of one scrape. */
  method Deltas(tag: Bytes, users: map<Email, User>, last: map<Email, Counters>)
    returns (out: seq<Traffic>, online: set<Email>, newLast: map<Email, Counters>)
    ensures Notes(newLast, users) && Bills(out, tag, users, last)
    ensures forall e :: e in online <==> e in users && users[e].connections > 0
  {
    out, online, newLast := [], {}, map[];
    var rest := users.Keys;
    NoneVisited(tag, users, last);
    while rest != {}
      invariant rest <= users.Keys && Visited(tag, users, last, rest, out, online, newLast)
      decreases |rest|
    {
      var e := AnyOf(rest);
      out, online, newLast := Visit(tag, users, last, rest, e, out, online, newLast);
      rest := rest - {e};
    }
    AllVisited(tag, users, last, out, online, newLast);
    ReportsBill(out, tag, users, last);
  }

  lemma {:induction false} NoneVisited(tag: Bytes, users: map<Email, User>, last: map<Email, Counters>)
    ensures Visited(tag, users, last, users.Keys, [], {}, map[])
  {
    assert users - users.Keys == map[];
    assert Readings(users) - users.Keys == map[];
    assert Online(users) - users.Keys == {};
  }

  lemma {:induction false} AllVisited(tag: Bytes, users: map<Email, User>, last: map<Email, Counters>,
    out: seq<Traffic>, online: set<Email>, newLast: map<Email, Counters>)
    requires Visited(tag, users, last, {}, out, online, newLast)
    ensures newLast == Readings(users) && online == Online(users) && Reports(out, tag, users, last)
  {
    assert users - {} == users;
    assert Readings(users) - {} == Readings(users);
    assert Online(users) - {} == Online(users);
  }

  method Visit(tag: Bytes, users: map<Email, User>, last: map<Email, Counters>, ghost rest: set<Email>, e: Email,
    out: seq<Traffic>, online: set<Email>, newLast: map<Email, Counters>)
    returns (out': seq<Traffic>, online': set<Email>, newLast': map<Email, Counters>)
    requires e in rest && rest <= users.Keys && Visited(tag, users, last, rest, out, online, newLast)
    ensures Visited(tag, users, last, rest - {e}, out', online', newLast')
  {
    Uncovered(users, rest, e);
    var u := users[e];
    newLast' := newLast[e := Reading(u)];
    online' := online + if u.connections > 0 then {e} else {};
    out' := Report(out, tag, users - rest, last, e, u);
  }

  lemma {:induction false} Uncovered(users: map<Email, User>, rest: set<Email>, e: Email)
    requires e in rest && rest <= users.Keys
    ensures users - (rest - {e}) == (users - rest)[e := users[e]] && e !in users - rest
    ensures Readings(users) - (rest - {e}) == (Readings(users) - rest)[e := Reading(users[e])]
    ensures Online(users) - (rest - {e}) == Online(users) - rest + if users[e].connections > 0 then {e} else {}
  {
  }

  method Report(out: seq<Traffic>, tag: Bytes, ghost users: map<Email, User>, last: map<Email, Counters>, e: Email, u: User)
    returns (more: seq<Traffic>)
    requires Reports(out, tag, users, last) && e !in users
    ensures Reports(more, tag, users[e := u], last)
  {
    var d := Delta(last, e, Reading(u));
    if d.up > 0 || d.down > 0 {
      ReportOneMore(out, tag, users, last, e, u);
      more := out + [TrafficOf(tag, e, d)];
    } else {
      ReportSame(out, tag, users, last, e, u);
      more := out;
    }
  }

  lemma {:induction false} ReportOneMore(out: seq<Traffic>, tag: Bytes, users: map<Email, User>, last: map<Email, Counters>, e: Email, u: User)
    requires Reports(out, tag, users, last) && e !in users && Delta(last, e, Reading(u)) != ZERO
    ensures Reports(out + [TrafficOf(tag, e, Delta(last, e, Reading(u)))], tag, users[e := u], last)
  {
    var t := TrafficOf(tag, e, Delta(last, e, Reading(u)));
    forall i | 0 <= i < |out|
      ensures LineOk(out[i], tag, users[e := u], last) && out[i].email != e
    {
      assert LineOk(out[i], tag, users, last);
    }
    forall x | x in users[e := u] && Delta(last, x, Reading(users[e := u][x])) != ZERO
      ensures Listed(out + [t], x)
    {
      if x == e {
        assert (out + [t])[|out|].email == x;
      } else {
        assert x in users && Listed(out, x);
        var i :| 0 <= i < |out| && out[i].email == x;
        assert (out + [t])[i].email == x;
      }
    }
  }

  lemma {:induction false} ReportSame(out: seq<Traffic>, tag: Bytes, users: map<Email, User>, last: map<Email, Counters>, e: Email, u: User)
    requires Reports(out, tag, users, last) && e !in users && Delta(last, e, Reading(u)) == ZERO
    ensures Reports(out, tag, users[e := u], last)
  {
    forall i | 0 <= i < |out|
      ensures LineOk(out[i], tag, users[e := u], last)
    {
      assert LineOk(out[i], tag, users, last);
    }
  }

  // ---------------------------------------------------------------- the protocol

  /** The stretches of scrapes that found a client, the latest one last, and whether the latest scrape
      is among them. */
  datatype Seen = Seen(stretches: seq<Stretch>, found: bool)

  /** An unbroken stretch of scrapes that found a client: the first and the latest value. */
  datatype Stretch = Stretch(first: Counters, latest: Counters)

  /** A sidecar process of the inbound `owner`. `reported` totals the deltas reported from it, and
      `seen` is history; `strayed` says that a write-back meant for an earlier process hit it. */
  datatype Proc = Proc(
    owner: int, counters: map<Email, Counters>, reported: map<Email, Counters>,
    seen: map<Email, Seen>, strayed: bool)

  datatype Entry = Entry(proc: nat, last: map<Email, Counters>)

  datatype Snap = Snap(id: int, proc: nat, last: map<Email, Counters>)

  datatype Collector =
    | Idle
    | Scraping(snaps: seq<Snap>)
    | Writing(snap: Snap, newLast: map<Email, Counters>, rest: seq<Snap>)

  datatype State = State(procs: seq<Proc>, entries: map<int, Entry>, collector: Collector)

  datatype Step =
    | Launch(id: int)
    | Drop(id: int)
    | Flow(p: nat, e: Email, now: Counters)
    | Snapshot(ids: seq<int>)
    | ScrapeFails
    | Scrape(users: set<Email>)
    | WriteBack
    | Finish

  predicate Enabled(s: State, step: Step) {
    match step
    case Launch(_) => true
    case Drop(_) => true
    case Flow(p, e, now) => p < |s.procs| && Le(At(s.procs[p].counters, e), now)
    case Snapshot(ids) =>
      && s.collector.Idle? && (forall i | 0 <= i < |ids| :: ids[i] in s.entries)
      && (forall i, j | 0 <= i < j < |ids| :: ids[i] != ids[j])
    case ScrapeFails => s.collector.Scraping? && s.collector.snaps != []
    case Scrape(_) => s.collector.Scraping? && s.collector.snaps != [] && s.collector.snaps[0].proc < |s.procs|
    case WriteBack => s.collector.Writing?
    case Finish => s.collector.Scraping? && s.collector.snaps == []
  }

  function SnapOf(s: State, id: int): Snap
    requires id in s.entries
  {
    Snap(id, s.entries[id].proc, s.entries[id].last)
  }

  function Values(p: Proc, users: set<Email>): map<Email, Counters> {
    map e | e in users :: At(p.counters, e)
  }

  /** The latest scrape found the client. */
  predicate Open(seen: Seen) {
    seen.found && seen.stretches != []
  }

  function LatestOf(seen: Seen): Counters
    requires seen.stretches != []
  {
    seen.stretches[|seen.stretches| - 1].latest
  }

  function Extended(stretches: seq<Stretch>, now: Counters): seq<Stretch>
    requires stretches != []
  {
    var n := |stretches| - 1;
    stretches[..n] + [Stretch(stretches[n].first, now)]
  }

  /** What a client grew by over its stretches of scrapes. */
  function Growth(stretches: seq<Stretch>): Counters
    decreases |stretches|
  {
    if stretches == [] then ZERO
    else
      var n := |stretches| - 1;
      var grown := Growth(stretches[..n]);
      Counters(grown.up + stretches[n].latest.up - stretches[n].first.up,
               grown.down + stretches[n].latest.down - stretches[n].first.down)
  }

  lemma {:induction false} GrowthExtends(stretches: seq<Stretch>, now: Counters, d: Counters)
    requires stretches != [] && SumsTo(stretches[|stretches| - 1].latest, d, now)
    ensures SumsTo(Growth(stretches), d, Growth(Extended(stretches, now)))
  {
    var n := |stretches| - 1;
    assert Extended(stretches, now)[..n] == stretches[..n];
  }

  lemma {:induction false} GrowthRestarts(stretches: seq<Stretch>, now: Counters)
    ensures Growth(stretches + [Stretch(now, now)]) == Growth(stretches)
  {
    assert (stretches + [Stretch(now, now)])[..|stretches|] == stretches;
  }

  function Watched(p: Proc, users: set<Email>, e: Email): Seen
    requires e in p.seen || e in users
  {
    var now := At(p.counters, e);
    if e !in p.seen then Seen([Stretch(now, now)], true)
    else if e !in users then p.seen[e].(found := false)
    else Seen(if Open(p.seen[e]) then Extended(p.seen[e].stretches, now) else p.seen[e].stretches + [Stretch(now, now)], true)
  }

  /** A process whose counters of `users` were read, with the deltas against `last` reported. */
  function Scraped(p: Proc, users: set<Email>, last: map<Email, Counters>): Proc {
    p.(reported := map e | e in p.reported.Keys + users ::
         if e in users then Credited(At(p.reported, e), last, e, At(p.counters, e)) else At(p.reported, e),
       seen := map e | e in p.seen.Keys + users :: Watched(p, users, e))
  }

  /** The write-back does not check that the entry still belongs to the process scraped. */
  function Written(s: State): State
    requires s.collector.Writing?
  {
    var c := s.collector;
    var t := s.(collector := Scraping(c.rest));
    if c.snap.id !in s.entries then t
    else
      var e := s.entries[c.snap.id];
      var procs := if e.proc != c.snap.proc && e.proc < |s.procs| then s.procs[e.proc := s.procs[e.proc].(strayed := true)] else s.procs;
      t.(entries := s.entries[c.snap.id := e.(last := c.newLast)], procs := procs)
  }

  function Next(s: State, step: Step): State
    requires Enabled(s, step)
  {
    match step
    case Launch(id) =>
      s.(procs := s.procs + [Proc(id, map[], map[], map[], false)],
         entries := s.entries[id := Entry(|s.procs|, map[])])
    case Drop(id) => s.(entries := s.entries - {id})
    case Flow(p, e, now) => s.(procs := s.procs[p := s.procs[p].(counters := s.procs[p].counters[e := now])])
    case Snapshot(ids) =>
      s.(collector := Scraping(seq(|ids|, i requires 0 <= i < |ids| && ids[i] in s.entries => SnapOf(s, ids[i]))))
    case ScrapeFails => s.(collector := Scraping(s.collector.snaps[1..]))
    case Scrape(users) =>
      var snap := s.collector.snaps[0];
      var p := s.procs[snap.proc];
      s.(procs := s.procs[snap.proc := Scraped(p, users, snap.last)],
         collector := Writing(snap, Values(p, users), s.collector.snaps[1..]))
    case WriteBack => Written(s)
    case Finish => s.(collector := Idle)
  }

  // ---------------------------------------------------------------- what every run keeps

  /** Nothing reported from the process exceeds what it counted; every client was reported no less
      than its growth over its stretches of scrapes; and exactly that unless a write-back strayed. */
  ghost predicate ProcOk(p: Proc) {
    (forall e :: Bounded(p, e) && Covered(p, e)) && (p.strayed || forall e :: Exact(p, e))
  }

  predicate Covered(p: Proc, e: Email) {
    e in p.seen ==> Le(Growth(p.seen[e].stretches), At(p.reported, e))
  }

  predicate Bounded(p: Proc, e: Email) {
    && Le(ZERO, At(p.reported, e)) && Le(At(p.reported, e), At(p.counters, e))
    && (e in p.seen ==> p.seen[e].stretches != [] && Le(LatestOf(p.seen[e]), At(p.counters, e)))
  }

  predicate Exact(p: Proc, e: Email) {
    if e !in p.seen then Same(At(p.reported, e), ZERO)
    else Same(Growth(p.seen[e].stretches), At(p.reported, e))
  }

  /** A baseline for the process: no lower than what was reported, the latest value of every client
      the latest scrape found, and unless a write-back strayed nothing of other clients. */
  ghost predicate BaseOk(p: Proc, last: map<Email, Counters>) {
    (forall e :: Above(p, last, e) && Recalls(p, last, e)) && (p.strayed || forall e :: Follows(p, last, e))
  }

  predicate Above(p: Proc, last: map<Email, Counters>, e: Email) {
    e in last ==> Le(At(p.reported, e), last[e])
  }

  predicate Recalls(p: Proc, last: map<Email, Counters>, e: Email) {
    e in p.seen && Open(p.seen[e]) ==> e in last && last[e] == LatestOf(p.seen[e])
  }

  predicate Follows(p: Proc, last: map<Email, Counters>, e: Email) {
    (e in last ==> e in p.seen && p.seen[e].found) && Recalls(p, last, e)
  }

  function Pending(c: Collector): seq<Snap> {
    match c
    case Idle => []
    case Scraping(snaps) => snaps
    case Writing(_, _, rest) => rest
  }

  predicate JustScraped(c: Collector, p: nat) {
    c.Writing? && c.snap.proc == p
  }

  ghost predicate EntryOk(s: State, id: int)
    requires id in s.entries
  {
    var e := s.entries[id];
    && e.proc < |s.procs| && s.procs[e.proc].owner == id
    && (JustScraped(s.collector, e.proc) || BaseOk(s.procs[e.proc], e.last))
  }

  /** A process launched since the snapshot has not been scraped. */
  ghost predicate SnapOwns(s: State, snap: Snap) {
    && snap.proc < |s.procs| && s.procs[snap.proc].owner == snap.id
    && (snap.id in s.entries && s.entries[snap.id].proc != snap.proc ==>
          s.entries[snap.id].proc < |s.procs| && Unscraped(s.procs[s.entries[snap.id].proc]))
  }

  predicate Unscraped(p: Proc) {
    p.reported == map[] && p.seen == map[]
  }

  ghost predicate SnapOk(s: State, snap: Snap) {
    SnapOwns(s, snap) && BaseOk(s.procs[snap.proc], snap.last)
  }

  ghost predicate WritingOk(s: State) {
    s.collector.Writing? ==>
      && SnapOwns(s, s.collector.snap) && BaseOk(s.procs[s.collector.snap.proc], s.collector.newLast)
      && forall i | 0 <= i < |s.collector.rest| :: s.collector.rest[i].id != s.collector.snap.id
  }

  ghost predicate DistinctSnaps(snaps: seq<Snap>) {
    forall i, j | 0 <= i < j < |snaps| :: snaps[i].id != snaps[j].id
  }

  ghost predicate Inv(s: State) {
    && (forall p | 0 <= p < |s.procs| :: ProcOk(s.procs[p]))
    && (forall id <- s.entries :: EntryOk(s, id))
    && (forall i | 0 <= i < |Pending(s.collector)| :: SnapOk(s, Pending(s.collector)[i]))
    && DistinctSnaps(Pending(s.collector)) && WritingOk(s)
  }

  /** Reporting the deltas of a scrape against a good baseline stays within the counters, stays
      exact, and leaves the scraped values a good baseline. */
  lemma {:induction false} ScrapeIsSound(p: Proc, users: set<Email>, last: map<Email, Counters>)
    requires ProcOk(p) && BaseOk(p, last)
    ensures ProcOk(Scraped(p, users, last)) && BaseOk(Scraped(p, users, last), Values(p, users))
  {
    var q := Scraped(p, users, last);
    forall e
      ensures Bounded(q, e) && Above(q, Values(p, users), e) && Covered(q, e) && Recalls(q, Values(p, users), e)
    {
      assert Bounded(p, e) && Above(p, last, e) && Covered(p, e) && Recalls(p, last, e);
      ScrapeIsBounded(p, users, last, e);
      ScrapeIsCovered(p, users, last, e);
      ScrapeIsFollowed(p, users, last, e);
    }
    if !p.strayed {
      forall e
        ensures Exact(q, e) && Follows(q, Values(p, users), e)
      {
        assert Bounded(p, e) && Exact(p, e) && Follows(p, last, e);
        ScrapeIsExact(p, users, last, e);
        ScrapeIsFollowed(p, users, last, e);
      }
    }
  }

  lemma {:induction false} ScrapeIsBounded(p: Proc, users: set<Email>, last: map<Email, Counters>, e: Email)
    requires Bounded(p, e) && Above(p, last, e)
    ensures Bounded(Scraped(p, users, last), e) && Above(Scraped(p, users, last), Values(p, users), e)
  {
    if e in users {
      FoundIsCredited(p, users, last, e);
      FoundIsWatched(p, users, last, e);
      CreditFits(last, e, At(p.reported, e), At(p.counters, e));
      FoundIsBounded(p, Scraped(p, users, last), users, e);
    } else {
      MissedIsKept(p, users, last, e);
      MissedIsLapsed(p, users, last, e);
      MissedIsBounded(p, Scraped(p, users, last), e);
    }
  }

  lemma {:induction false} CreditFits(last: map<Email, Counters>, e: Email, reported: Counters, now: Counters)
    requires Le(ZERO, reported) && Le(reported, now) && (e in last ==> Le(reported, last[e]))
    ensures Le(ZERO, Credited(reported, last, e, now)) && Le(Credited(reported, last, e, now), now)
  {
  }

  lemma {:induction false} FoundIsBounded(p: Proc, q: Proc, users: set<Email>, e: Email)
    requires e in users && q.counters == p.counters && Le(ZERO, At(q.reported, e)) && Le(At(q.reported, e), At(p.counters, e))
    requires e in q.seen && q.seen[e] == Watched(p, users, e)
    ensures Bounded(q, e) && Above(q, Values(p, users), e)
  {
    assert LatestOf(q.seen[e]) == At(p.counters, e);
  }

  lemma {:induction false} MissedIsBounded(p: Proc, q: Proc, e: Email)
    requires Bounded(p, e) && q.counters == p.counters && Same(At(p.reported, e), At(q.reported, e))
    requires e in q.seen <==> e in p.seen
    requires e in q.seen ==> q.seen[e] == p.seen[e].(found := false)
    ensures Bounded(q, e)
  {
  }

  lemma {:induction false} FoundIsCredited(p: Proc, users: set<Email>, last: map<Email, Counters>, e: Email)
    requires e in users
    ensures At(Scraped(p, users, last).reported, e) == Credited(At(p.reported, e), last, e, At(p.counters, e))
  {
  }

  lemma {:induction false} FoundIsWatched(p: Proc, users: set<Email>, last: map<Email, Counters>, e: Email)
    requires e in users
    ensures e in Scraped(p, users, last).seen && Scraped(p, users, last).seen[e] == Watched(p, users, e)
  {
  }

  lemma {:induction false} MissedIsKept(p: Proc, users: set<Email>, last: map<Email, Counters>, e: Email)
    requires e !in users
    ensures Same(At(p.reported, e), At(Scraped(p, users, last).reported, e))
  {
  }

  lemma {:induction false} MissedIsLapsed(p: Proc, users: set<Email>, last: map<Email, Counters>, e: Email)
    requires e !in users
    ensures e in Scraped(p, users, last).seen <==> e in p.seen
    ensures e in p.seen ==> Scraped(p, users, last).seen[e] == p.seen[e].(found := false)
  {
  }

  /** The answer of a process to a scrape shows its counters: bytes in as up, bytes out as down. */
  ghost predicate Shows(users: map<Email, User>, p: Proc) {
    forall e <- users :: At(p.counters, e) == Counters(users[e].bytesIn, users[e].bytesOut)
  }

  /** What a bill charges a client. */
  function Charged(out: seq<Traffic>, e: Email): Counters
    decreases |out|
  {
    if out == [] then ZERO
    else
      var n := |out| - 1;
      var before := Charged(out[..n], e);
      if out[n].email == e then Counters(before.up + out[n].up, before.down + out[n].down) else before
  }

  lemma {:induction false} UnlistedIsFree(out: seq<Traffic>, e: Email)
    requires forall i | 0 <= i < |out| :: out[i].email != e
    ensures Charged(out, e) == ZERO
    decreases |out|
  {
    if out != [] {
      UnlistedIsFree(out[..|out| - 1], e);
    }
  }

  lemma {:induction false} ListedIsCharged(out: seq<Traffic>, i: nat)
    requires i < |out| && forall j, k | 0 <= j < k < |out| :: out[j].email != out[k].email
    ensures Charged(out, out[i].email) == Counters(out[i].up, out[i].down)
    decreases |out|
  {
    var n := |out| - 1;
    if i < n {
      ListedIsCharged(out[..n], i);
    } else {
      UnlistedIsFree(out[..n], out[n].email);
    }
  }

  lemma {:induction false} ChargeIs(out: seq<Traffic>, tag: Bytes, users: map<Email, User>, last: map<Email, Counters>, e: Email)
    requires Bills(out, tag, users, last)
    ensures e in users && e in last ==>
      Charged(out, e) == Counters(Grown(users[e].bytesIn, last[e].up), Grown(users[e].bytesOut, last[e].down))
    ensures !(e in users && e in last) ==> Charged(out, e) == ZERO
  {
    if Listed(out, e) {
      var i :| 0 <= i < |out| && out[i].email == e;
      ListedIsCharged(out, i);
      assert BillsUser(out[i], tag, users, last);
    } else {
      UnlistedIsFree(out, e);
    }
  }

  /** The scrape of the step machine is the loop over its users: what it credits a client is what the
      bill charges it, and the baseline it leaves is the one the loop notes. */
  lemma {:induction false} ScrapeIsTheBill(p: Proc, tag: Bytes, users: map<Email, User>, last: map<Email, Counters>,
    out: seq<Traffic>, newLast: map<Email, Counters>, e: Email)
    requires Shows(users, p) && Bills(out, tag, users, last) && Notes(newLast, users)
    ensures newLast == Values(p, users.Keys)
    ensures SumsTo(At(p.reported, e), Charged(out, e), At(Scraped(p, users.Keys, last).reported, e))
  {
    ChargeIs(out, tag, users, last, e);
    assert forall x | x in users :: newLast[x] == At(p.counters, x);
    if e in users {
      FoundIsCredited(p, users.Keys, last, e);
    } else {
      MissedIsKept(p, users.Keys, last, e);
    }
  }

  lemma {:induction false} ScrapeIsCovered(p: Proc, users: set<Email>, last: map<Email, Counters>, e: Email)
    requires Bounded(p, e) && Covered(p, e) && Recalls(p, last, e)
    ensures Covered(Scraped(p, users, last), e)
  {
    if e in users {
      FoundIsCredited(p, users, last, e);
      FoundIsWatched(p, users, last, e);
      FoundIsCovered(p, last, e, Watched(p, users, e), At(Scraped(p, users, last).reported, e));
      CoveredFrom(Scraped(p, users, last), e);
    } else {
      MissedIsLapsed(p, users, last, e);
      MissedIsKept(p, users, last, e);
      MissedIsCovered(p, Scraped(p, users, last), e);
    }
  }

  lemma {:induction false} MissedIsCovered(p: Proc, q: Proc, e: Email)
    requires Covered(p, e) && Same(At(p.reported, e), At(q.reported, e))
    requires e in q.seen <==> e in p.seen
    requires e in q.seen ==> q.seen[e] == p.seen[e].(found := false)
    ensures Covered(q, e)
  {
  }

  lemma {:induction false} CoveredFrom(q: Proc, e: Email)
    requires e in q.seen && Le(Growth(q.seen[e].stretches), At(q.reported, e))
    ensures Covered(q, e)
  {
  }

  /** The arithmetic of a client found: what it is credited is its growth since the latest scrape if
      that found it too, and in any case not negative. */
  lemma {:induction false} FoundIsCovered(p: Proc, last: map<Email, Counters>, e: Email, seen: Seen, reported: Counters)
    requires Bounded(p, e) && Covered(p, e) && Recalls(p, last, e)
    requires reported == Credited(At(p.reported, e), last, e, At(p.counters, e))
    requires seen == Watched(p, {e}, e)
    ensures Le(Growth(seen.stretches), reported)
  {
    var now, d := At(p.counters, e), Delta(last, e, At(p.counters, e));
    assert Le(ZERO, d);
    if e !in p.seen {
      GrowthRestarts([], now);
    } else if Open(p.seen[e]) {
      assert SumsTo(last[e], d, now) by {
        assert Le(last[e], now);
      }
      GrowthExtends(p.seen[e].stretches, now, d);
    } else {
      GrowthRestarts(p.seen[e].stretches, now);
    }
  }

  lemma {:induction false} ScrapeIsExact(p: Proc, users: set<Email>, last: map<Email, Counters>, e: Email)
    requires Bounded(p, e) && Exact(p, e) && Follows(p, last, e)
    ensures Exact(Scraped(p, users, last), e)
  {
    if e in users {
      FoundIsCredited(p, users, last, e);
      FoundIsWatched(p, users, last, e);
      FoundIsExact(p, last, e, Watched(p, users, e), At(Scraped(p, users, last).reported, e));
      ExactFrom(Scraped(p, users, last), e);
    } else {
      MissedIsKept(p, users, last, e);
      MissedIsLapsed(p, users, last, e);
      MissedIsExact(p, Scraped(p, users, last), e);
    }
  }

  lemma {:induction false} ExactFrom(q: Proc, e: Email)
    requires e in q.seen && Same(Growth(q.seen[e].stretches), At(q.reported, e))
    ensures Exact(q, e)
  {
  }

  lemma {:induction false} MissedIsExact(p: Proc, q: Proc, e: Email)
    requires Exact(p, e) && Same(At(p.reported, e), At(q.reported, e))
    requires e in q.seen <==> e in p.seen
    requires e in q.seen ==> q.seen[e] == p.seen[e].(found := false)
    ensures Exact(q, e)
  {
  }

  lemma {:induction false} ScrapeIsFollowed(p: Proc, users: set<Email>, last: map<Email, Counters>, e: Email)
    ensures Follows(Scraped(p, users, last), Values(p, users), e)
  {
    if e in users {
      FoundIsWatched(p, users, last, e);
    } else {
      MissedIsLapsed(p, users, last, e);
    }
  }

  lemma {:induction false} ExactAdds(grown: Counters, reported: Counters, d: Counters, more: Counters)
    requires Same(grown, reported) && SumsTo(grown, d, more)
    ensures SumsTo(reported, d, more)
  {
  }

  lemma {:induction false} DeltaAdds(last: map<Email, Counters>, e: Email, now: Counters)
    requires e in last && Le(last[e], now)
    ensures SumsTo(last[e], Delta(last, e, now), now)
  {
  }

  lemma {:induction false} StretchGoesOn(stretches: seq<Stretch>, reported: Counters, now: Counters, d: Counters)
    requires stretches != [] && SumsTo(stretches[|stretches| - 1].latest, d, now)
    requires Same(Growth(stretches), reported)
    ensures SumsTo(reported, d, Growth(Extended(stretches, now)))
  {
    GrowthExtends(stretches, now, d);
    ExactAdds(Growth(stretches), reported, d, Growth(Extended(stretches, now)));
  }

  lemma {:induction false} DeltaSinceLatest(p: Proc, last: map<Email, Counters>, e: Email, seen: Seen, now: Counters)
    requires Bounded(p, e) && Recalls(p, last, e) && e in p.seen && Open(seen)
    requires seen == p.seen[e] && now == At(p.counters, e)
    ensures SumsTo(seen.stretches[|seen.stretches| - 1].latest, Delta(last, e, now), now)
  {
    DeltaAdds(last, e, now);
  }

  lemma {:induction false} FoundAgain(p: Proc, last: map<Email, Counters>, e: Email, seen: Seen, now: Counters)
    requires Bounded(p, e) && Exact(p, e) && Recalls(p, last, e) && e in p.seen && Open(seen)
    requires seen == p.seen[e] && now == At(p.counters, e)
    ensures Same(Growth(Extended(seen.stretches, now)), Credited(At(p.reported, e), last, e, now))
  {
    DeltaSinceLatest(p, last, e, seen, now);
    StretchGoesOn(seen.stretches, At(p.reported, e), now, Delta(last, e, now));
  }

  lemma {:induction false} FoundAnew(p: Proc, last: map<Email, Counters>, e: Email, stretches: seq<Stretch>)
    requires Exact(p, e) && Follows(p, last, e) && Bounded(p, e)
    requires e in p.seen ==> !Open(p.seen[e])
    requires stretches == if e in p.seen then p.seen[e].stretches else []
    ensures var now := At(p.counters, e);
      Same(Growth(stretches + [Stretch(now, now)]), Credited(At(p.reported, e), last, e, now))
  {
    GrowthRestarts(stretches, At(p.counters, e));
  }

  /** And it is nothing but that growth when no write-back strayed. */
  lemma {:induction false} FoundIsExact(p: Proc, last: map<Email, Counters>, e: Email, seen: Seen, reported: Counters)
    requires Bounded(p, e) && Exact(p, e) && Follows(p, last, e)
    requires reported == Credited(At(p.reported, e), last, e, At(p.counters, e))
    requires seen == Watched(p, {e}, e)
    ensures Same(Growth(seen.stretches), reported)
  {
    if e in p.seen && Open(p.seen[e]) {
      FoundAgain(p, last, e, p.seen[e], At(p.counters, e));
    } else {
      var now, stretches := At(p.counters, e), if e in p.seen then p.seen[e].stretches else [];
      FoundAnew(p, last, e, stretches);
      assert seen.stretches == stretches + [Stretch(now, now)];
    }
  }

  lemma {:induction false} NewIsOk(id: int)
    ensures ProcOk(Proc(id, map[], map[], map[], false)) && BaseOk(Proc(id, map[], map[], map[], false), map[])
  {
    var p := Proc(id, map[], map[], map[], false);
    forall e
      ensures Bounded(p, e) && Covered(p, e) && Exact(p, e) && Above(p, map[], e) && Follows(p, map[], e)
    {
    }
  }

  lemma {:induction false} LaunchKeepsInv(s: State, id: int)
    requires Inv(s)
    ensures Inv(Next(s, Launch(id)))
  {
    NewIsOk(id);
    var t := Next(s, Launch(id));
    forall i <- t.entries
      ensures EntryOk(t, i)
    {
      assert i in s.entries ==> EntryOk(s, i);
      if i == id {
        NewIsOk(id);
      }
    }
    forall i | 0 <= i < |Pending(t.collector)|
      ensures SnapOk(t, Pending(t.collector)[i])
    {
      assert SnapOk(s, Pending(s.collector)[i]);
    }
  }

  lemma {:induction false} DropKeepsInv(s: State, id: int)
    requires Inv(s)
    ensures Inv(Next(s, Drop(id)))
  {
    var t := Next(s, Drop(id));
    forall i <- t.entries
      ensures EntryOk(t, i)
    {
      assert EntryOk(s, i);
    }
    forall i | 0 <= i < |Pending(t.collector)|
      ensures SnapOk(t, Pending(t.collector)[i])
    {
      assert SnapOk(s, Pending(s.collector)[i]);
    }
  }

  lemma {:induction false} FlowKeepsInv(s: State, p: nat, e: Email, now: Counters)
    requires Inv(s) && Enabled(s, Flow(p, e, now))
    ensures Inv(Next(s, Flow(p, e, now)))
  {
    var t := Next(s, Flow(p, e, now));
    CountingIsHarmless(s.procs[p], e, now);
    forall i <- t.entries
      ensures EntryOk(t, i)
    {
      assert EntryOk(s, i);
      if !JustScraped(s.collector, s.entries[i].proc) {
        SameBase(s, t, s.entries[i].proc, s.entries[i].last);
      }
    }
    forall i | 0 <= i < |Pending(t.collector)|
      ensures SnapOk(t, Pending(t.collector)[i])
    {
      assert SnapOk(s, Pending(s.collector)[i]);
      SameBase(s, t, Pending(s.collector)[i].proc, Pending(s.collector)[i].last);
    }
    if s.collector.Writing? {
      SameBase(s, t, s.collector.snap.proc, s.collector.newLast);
    }
  }

  lemma {:induction false} CountingIsBounded(p: Proc, e: Email, now: Counters, x: Email)
    requires Bounded(p, x) && Le(At(p.counters, e), now)
    ensures Bounded(p.(counters := p.counters[e := now]), x)
  {
  }

  lemma {:induction false} CountingIsUnseen(p: Proc, counters: map<Email, Counters>, x: Email)
    ensures Covered(p.(counters := counters), x) == Covered(p, x) && Exact(p.(counters := counters), x) == Exact(p, x)
  {
  }

  lemma {:induction false} CountingIsHarmless(p: Proc, e: Email, now: Counters)
    requires ProcOk(p) && Le(At(p.counters, e), now)
    ensures ProcOk(p.(counters := p.counters[e := now]))
  {
    var q := p.(counters := p.counters[e := now]);
    forall x
      ensures Bounded(q, x) && Covered(q, x) && (p.strayed || Exact(q, x))
    {
      CountingIsBounded(p, e, now, x);
      CountingIsUnseen(p, p.counters[e := now], x);
    }
  }

  /** Baselines do not depend on the counters. */
  lemma {:induction false} SameBase(s: State, t: State, p: nat, last: map<Email, Counters>)
    requires p < |s.procs| == |t.procs|
    requires t.procs[p].(counters := s.procs[p].counters) == s.procs[p]
    requires BaseOk(s.procs[p], last)
    ensures BaseOk(t.procs[p], last)
  {
    forall e
      ensures Above(t.procs[p], last, e) && Recalls(t.procs[p], last, e) && (s.procs[p].strayed || Follows(t.procs[p], last, e))
    {
      assert Above(s.procs[p], last, e) && Recalls(s.procs[p], last, e) && (s.procs[p].strayed || Follows(s.procs[p], last, e));
    }
  }

  lemma {:induction false} SnapshotKeepsInv(s: State, ids: seq<int>)
    requires Inv(s) && Enabled(s, Snapshot(ids))
    ensures Inv(Next(s, Snapshot(ids)))
  {
    var t := Next(s, Snapshot(ids));
    forall i <- t.entries
      ensures EntryOk(t, i)
    {
      assert EntryOk(s, i);
    }
    forall i | 0 <= i < |ids|
      ensures SnapOk(t, Pending(t.collector)[i])
    {
      assert EntryOk(s, ids[i]);
    }
  }

  lemma {:induction false} SkipKeepsInv(s: State)
    requires Inv(s) && Enabled(s, ScrapeFails)
    ensures Inv(Next(s, ScrapeFails))
  {
    var t := Next(s, ScrapeFails);
    forall i <- t.entries
      ensures EntryOk(t, i)
    {
      assert EntryOk(s, i);
    }
    forall i | 0 <= i < |Pending(t.collector)|
      ensures SnapOk(t, Pending(t.collector)[i])
    {
      assert SnapOk(s, Pending(s.collector)[i + 1]);
    }
  }

  lemma {:induction false} ScrapeKeepsInv(s: State, users: set<Email>)
    requires Inv(s) && Enabled(s, Scrape(users))
    ensures Inv(Next(s, Scrape(users)))
  {
    var t := Next(s, Scrape(users));
    var snap := s.collector.snaps[0];
    assert SnapOk(s, Pending(s.collector)[0]);
    ScrapeIsSound(s.procs[snap.proc], users, snap.last);
    assert forall p | 0 <= p < |t.procs| :: ProcOk(t.procs[p]);
    forall i <- t.entries
      ensures EntryOk(t, i)
    {
      ScrapeSparesEntries(s, users, i);
    }
    forall i | 0 <= i < |Pending(t.collector)|
      ensures SnapOk(t, Pending(t.collector)[i]) && Pending(t.collector)[i].id != snap.id
    {
      ScrapeSparesOthers(s, users, i + 1);
    }
    ScrapedIsOwned(s, users);
    assert DistinctSnaps(Pending(t.collector)) by {
      assert forall i | 0 <= i < |Pending(t.collector)| :: Pending(t.collector)[i] == Pending(s.collector)[i + 1];
    }
  }

  lemma {:induction false} ScrapedIsOwned(s: State, users: set<Email>)
    requires Inv(s) && Enabled(s, Scrape(users))
    ensures SnapOwns(Next(s, Scrape(users)), s.collector.snaps[0])
  {
    var snap := s.collector.snaps[0];
    assert SnapOk(s, Pending(s.collector)[0]);
    if snap.id in s.entries {
      assert EntryOk(s, snap.id);
    }
  }

  lemma {:induction false} ScrapeSparesEntries(s: State, users: set<Email>, id: int)
    requires Inv(s) && Enabled(s, Scrape(users)) && id in s.entries
    ensures EntryOk(Next(s, Scrape(users)), id)
  {
    assert EntryOk(s, id);
  }

  lemma {:induction false} ScrapeSparesOthers(s: State, users: set<Email>, k: nat)
    requires Inv(s) && Enabled(s, Scrape(users)) && 0 < k < |s.collector.snaps|
    ensures SnapOk(Next(s, Scrape(users)), s.collector.snaps[k])
    ensures s.collector.snaps[k].id != s.collector.snaps[0].id
  {
    var x, snap := s.collector.snaps[k], s.collector.snaps[0];
    assert SnapOk(s, Pending(s.collector)[k]) && SnapOk(s, Pending(s.collector)[0]);
    assert Pending(s.collector)[0].id != Pending(s.collector)[k].id;
    if x.id in s.entries {
      assert EntryOk(s, x.id);
    }
  }

  lemma {:induction false} WriteKeepsInv(s: State)
    requires Inv(s) && Enabled(s, WriteBack)
    ensures Inv(Written(s))
  {
    var t := Written(s);
    var snap := s.collector.snap;
    if snap.id in s.entries {
      assert EntryOk(s, snap.id);
      StrayIsHarmless(s.procs[s.entries[snap.id].proc], s.procs[snap.proc], s.collector.newLast);
    }
    forall i <- t.entries
      ensures EntryOk(t, i)
    {
      assert EntryOk(s, i);
    }
    forall i | 0 <= i < |Pending(t.collector)|
      ensures SnapOk(t, Pending(t.collector)[i])
    {
      WriteSparesOthers(s, i);
    }
  }

  lemma {:induction false} StrayIsHarmless(p: Proc, from: Proc, last: map<Email, Counters>)
    requires ProcOk(p) && ProcOk(from) && BaseOk(from, last)
    ensures ProcOk(p.(strayed := true))
    ensures Unscraped(p) ==> BaseOk(p.(strayed := true), last)
  {
    var q := p.(strayed := true);
    forall e
      ensures Bounded(q, e) && Covered(q, e) && (Unscraped(p) ==> Above(q, last, e) && Recalls(q, last, e))
    {
      assert Bounded(p, e) && Covered(p, e) && Bounded(from, e) && Above(from, last, e);
    }
  }

  lemma {:induction false} WriteSparesOthers(s: State, k: nat)
    requires Inv(s) && Enabled(s, WriteBack) && k < |s.collector.rest|
    ensures SnapOk(Written(s), s.collector.rest[k])
  {
    var x, snap := s.collector.rest[k], s.collector.snap;
    assert SnapOk(s, Pending(s.collector)[k]);
    assert x.id != snap.id;
    if snap.id in s.entries {
      assert EntryOk(s, snap.id);
    }
    if x.id in s.entries {
      assert EntryOk(s, x.id);
    }
  }

  // ---------------------------------------------------------------- runs

  lemma {:induction false} StepKeepsInv(s: State, step: Step)
    requires Inv(s) && Enabled(s, step)
    ensures Inv(Next(s, step))
  {
    match step
    case Launch(id) => LaunchKeepsInv(s, id);
    case Drop(id) => DropKeepsInv(s, id);
    case Flow(p, e, now) => FlowKeepsInv(s, p, e, now);
    case Snapshot(ids) => SnapshotKeepsInv(s, ids);
    case ScrapeFails => SkipKeepsInv(s);
    case Scrape(users) => ScrapeKeepsInv(s, users);
    case WriteBack => WriteKeepsInv(s);
    case Finish => FinishKeepsInv(s);
  }

  lemma {:induction false} FinishKeepsInv(s: State)
    requires Inv(s) && Enabled(s, Finish)
    ensures Inv(Next(s, Finish))
  {
    forall i <- s.entries
      ensures EntryOk(Next(s, Finish), i)
    {
      assert EntryOk(s, i);
    }
  }

  predicate Runs(s: State, steps: seq<Step>)
    decreases |steps|
  {
    steps == [] || (Enabled(s, steps[0]) && Runs(Next(s, steps[0]), steps[1..]))
  }

  function After(s: State, steps: seq<Step>): State
    requires Runs(s, steps)
    decreases |steps|
  {
    if steps == [] then s else After(Next(s, steps[0]), steps[1..])
  }

  lemma {:induction false} RunKeepsInv(s: State, steps: seq<Step>)
    requires Inv(s) && Runs(s, steps)
    ensures Inv(After(s, steps))
    decreases |steps|
  {
    if steps != [] {
      StepKeepsInv(s, steps[0]);
      RunKeepsInv(Next(s, steps[0]), steps[1..]);
    }
  }

  const INITIAL := State([], map[], Idle)

  /** What was reported for a client over all processes, and what they counted. */
  function ReportedFor(procs: seq<Proc>, e: Email): Counters
    decreases |procs|
  {
    if procs == [] then ZERO
    else
      var before, here := ReportedFor(procs[..|procs| - 1], e), At(procs[|procs| - 1].reported, e);
      Counters(before.up + here.up, before.down + here.down)
  }

  function CountedFor(procs: seq<Proc>, e: Email): Counters
    decreases |procs|
  {
    if procs == [] then ZERO
    else
      var before, here := CountedFor(procs[..|procs| - 1], e), At(procs[|procs| - 1].counters, e);
      Counters(before.up + here.up, before.down + here.down)
  }

  lemma {:induction false} TotalsAreBounded(procs: seq<Proc>, e: Email)
    requires forall p | p in procs :: ProcOk(p)
    ensures Le(ReportedFor(procs, e), CountedFor(procs, e))
    decreases |procs|
  {
    if procs != [] {
      TotalsAreBounded(procs[..|procs| - 1], e);
      assert ProcOk(procs[|procs| - 1]);
      assert Bounded(procs[|procs| - 1], e);
    }
  }

  /** However collections interleave with starts, restarts and removals, a client is never billed
      more than its processes counted. */
  lemma {:induction false} NeverOverReports(steps: seq<Step>, e: Email)
    requires Runs(INITIAL, steps)
    ensures var procs := After(INITIAL, steps).procs;
      Le(ReportedFor(procs, e), CountedFor(procs, e))
  {
    RunKeepsInv(INITIAL, steps);
    TotalsAreBounded(After(INITIAL, steps).procs, e);
  }

  /** And never less than it is known to have grown: from the first to the latest scrape of every
      unbroken stretch of scrapes that found the client. */
  lemma {:induction false} NeverUnderReports(steps: seq<Step>, p: nat, e: Email)
    requires Runs(INITIAL, steps)
    requires p < |After(INITIAL, steps).procs| && e in After(INITIAL, steps).procs[p].seen
    ensures var proc := After(INITIAL, steps).procs[p];
      Le(Growth(proc.seen[e].stretches), At(proc.reported, e)) && Le(At(proc.reported, e), At(proc.counters, e))
  {
    RunKeepsInv(INITIAL, steps);
    assert ProcOk(After(INITIAL, steps).procs[p]);
    assert Bounded(After(INITIAL, steps).procs[p], e) && Covered(After(INITIAL, steps).procs[p], e);
  }

  // ---------------------------------------------------------------- restarts during a collection

  /** Read off the steps alone: the inbounds whose snapshot awaits its write-back, and those of them
      with a process launched since the snapshot and not dropped. */
  datatype Watch = Watch(pending: seq<int>, restarted: set<int>)

  const UNWATCHED := Watch([], {})

  function Follow(w: Watch, step: Step): Watch {
    match step
    case Launch(id) => if id in w.pending then w.(restarted := w.restarted + {id}) else w
    case Drop(id) => w.(restarted := w.restarted - {id})
    case Snapshot(ids) => Watch(ids, {})
    case ScrapeFails => if w.pending == [] then w else w.(pending := w.pending[1..])
    case WriteBack => if w.pending == [] then w else w.(pending := w.pending[1..])
    case _ => w
  }

  /** The step writes back for the inbound, whose process is no longer the one in the snapshot. */
  predicate Hits(w: Watch, step: Step, id: int) {
    step.WriteBack? && w.pending != [] && w.pending[0] == id && id in w.restarted
  }

  /** No write-back of the inbound comes after a restart of it since its snapshot. */
  predicate Undisturbed(w: Watch, steps: seq<Step>, id: int)
    decreases |steps|
  {
    steps == [] || (!Hits(w, steps[0], id) && Undisturbed(Follow(w, steps[0]), steps[1..], id))
  }

  /** The inbound is never launched between a snapshot of it and its write-back. */
  predicate NeverRestartedMeanwhile(w: Watch, steps: seq<Step>, id: int)
    decreases |steps|
  {
    steps == [] ||
    (!(steps[0] == Launch(id) && id in w.pending) && NeverRestartedMeanwhile(Follow(w, steps[0]), steps[1..], id))
  }

  lemma {:induction false} QuietIsUndisturbed(w: Watch, steps: seq<Step>, id: int)
    requires id !in w.restarted && NeverRestartedMeanwhile(w, steps, id)
    ensures Undisturbed(w, steps, id)
    decreases |steps|
  {
    if steps != [] {
      QuietIsUndisturbed(Follow(w, steps[0]), steps[1..], id);
    }
  }

  function Outstanding(c: Collector): seq<Snap> {
    match c
    case Idle => []
    case Scraping(snaps) => snaps
    case Writing(snap, _, rest) => [snap] + rest
  }

  predicate TrackedAt(s: State, w: Watch, snap: Snap) {
    && snap.proc < |s.procs|
    && (snap.id in w.restarted <==> snap.id in s.entries && s.entries[snap.id].proc != snap.proc)
  }

  predicate TracksAt(s: State, w: Watch, i: nat)
    requires i < |w.pending| == |Outstanding(s.collector)|
  {
    w.pending[i] == Outstanding(s.collector)[i].id && TrackedAt(s, w, Outstanding(s.collector)[i])
  }

  /** What the watch says of the steps is so in the state. */
  ghost predicate Tracks(s: State, w: Watch) {
    && |w.pending| == |Outstanding(s.collector)|
    && forall i | 0 <= i < |w.pending| :: TracksAt(s, w, i)
  }

  lemma {:induction false} StaysTracked(s: State, w: Watch, step: Step, snap: Snap)
    requires Enabled(s, step) && !step.Snapshot? && TrackedAt(s, w, snap) && snap.id in w.pending
    ensures TrackedAt(Next(s, step), Follow(w, step), snap)
  {
  }

  /** A write-back, or a failed scrape, is over with the first snapshot. */
  function Done(step: Step): nat {
    if step.ScrapeFails? || step.WriteBack? then 1 else 0
  }

  lemma {:induction false} OutstandingAfter(s: State, w: Watch, step: Step)
    requires Enabled(s, step) && !step.Snapshot? && |w.pending| == |Outstanding(s.collector)|
    ensures Done(step) <= |w.pending| && Outstanding(Next(s, step).collector) == Outstanding(s.collector)[Done(step)..]
    ensures Follow(w, step).pending == w.pending[Done(step)..]
  {
  }

  lemma {:induction false} SnapshotTracks(s: State, w: Watch, ids: seq<int>)
    requires Inv(s) && Enabled(s, Snapshot(ids))
    ensures Tracks(Next(s, Snapshot(ids)), Follow(w, Snapshot(ids)))
  {
    var t, v := Next(s, Snapshot(ids)), Follow(w, Snapshot(ids));
    forall i | 0 <= i < |ids|
      ensures TracksAt(t, v, i)
    {
      assert EntryOk(s, ids[i]);
    }
  }

  lemma {:induction false} ShiftTracks(s: State, w: Watch, t: State, v: Watch, d: nat, i: nat)
    requires |w.pending| == |Outstanding(s.collector)| && d + i < |w.pending|
    requires v.pending == w.pending[d..] && Outstanding(t.collector) == Outstanding(s.collector)[d..]
    requires TracksAt(s, w, d + i) && TrackedAt(t, v, Outstanding(s.collector)[d + i])
    ensures TracksAt(t, v, i)
  {
  }

  lemma {:induction false} StaysTrackedAt(s: State, w: Watch, step: Step, j: nat)
    requires Enabled(s, step) && !step.Snapshot? && j < |w.pending| == |Outstanding(s.collector)| && TracksAt(s, w, j)
    ensures TrackedAt(Next(s, step), Follow(w, step), Outstanding(s.collector)[j])
  {
    assert w.pending[j] in w.pending;
    StaysTracked(s, w, step, Outstanding(s.collector)[j]);
  }

  lemma {:induction false} OtherTracks(s: State, w: Watch, step: Step)
    requires Enabled(s, step) && !step.Snapshot? && Tracks(s, w)
    ensures Tracks(Next(s, step), Follow(w, step))
  {
    OutstandingAfter(s, w, step);
    forall i | 0 <= i < |Follow(w, step).pending|
      ensures TracksAt(Next(s, step), Follow(w, step), i)
    {
      assert TracksAt(s, w, Done(step) + i);
      StaysTrackedAt(s, w, step, Done(step) + i);
      ShiftTracks(s, w, Next(s, step), Follow(w, step), Done(step), i);
    }
  }

  lemma {:induction false} StepTracks(s: State, w: Watch, step: Step)
    requires Inv(s) && Enabled(s, step) && Tracks(s, w)
    ensures Tracks(Next(s, step), Follow(w, step))
  {
    if step.Snapshot? {
      SnapshotTracks(s, w, step.ids);
    } else {
      OtherTracks(s, w, step);
    }
  }

  ghost predicate SomeStrayed(s: State, id: int) {
    exists p | 0 <= p < |s.procs| :: s.procs[p].owner == id && s.procs[p].strayed
  }

  /** A process of the inbound begins to stray exactly at a step that hits it. */
  lemma {:induction false} StepStrays(s: State, w: Watch, step: Step, id: int)
    requires Inv(s) && Enabled(s, step) && Tracks(s, w)
    ensures SomeStrayed(Next(s, step), id) <==> SomeStrayed(s, id) || Hits(w, step, id)
  {
    var t := Next(s, step);
    if step.WriteBack? {
      WriteStrays(s, w, id);
    } else {
      forall p | 0 <= p < |s.procs|
        ensures p < |t.procs| && t.procs[p].owner == s.procs[p].owner && t.procs[p].strayed == s.procs[p].strayed
      {
      }
    }
  }

  lemma {:induction false} WriteStrays(s: State, w: Watch, id: int)
    requires Inv(s) && s.collector.Writing? && Tracks(s, w)
    ensures SomeStrayed(Written(s), id) <==> SomeStrayed(s, id) || Hits(w, WriteBack, id)
  {
    var t, snap := Written(s), s.collector.snap;
    assert Outstanding(s.collector)[0] == snap && TracksAt(s, w, 0);
    if snap.id in s.entries {
      assert EntryOk(s, snap.id);
      var q := s.entries[snap.id].proc;
      forall p | 0 <= p < |s.procs|
        ensures t.procs[p].owner == s.procs[p].owner
        ensures t.procs[p].strayed == (s.procs[p].strayed || (p == q && q != snap.proc))
      {
      }
      if Hits(w, WriteBack, id) {
        assert t.procs[q].owner == id && t.procs[q].strayed;
      }
    }
  }

  lemma {:induction false} RunStrays(s: State, w: Watch, steps: seq<Step>, id: int)
    requires Inv(s) && Runs(s, steps) && Tracks(s, w)
    ensures SomeStrayed(After(s, steps), id) <==> SomeStrayed(s, id) || !Undisturbed(w, steps, id)
    decreases |steps|
  {
    if steps != [] {
      StepKeepsInv(s, steps[0]);
      StepTracks(s, w, steps[0]);
      StepStrays(s, w, steps[0], id);
      RunStrays(Next(s, steps[0]), Follow(w, steps[0]), steps[1..], id);
    }
  }

  /** Over any run a write-back hits another process of the inbound exactly when the inbound was
      restarted between a snapshot of it and its write-back, and not dropped since. */
  lemma {:induction false} OnlyRestartsStray(steps: seq<Step>, id: int)
    requires Runs(INITIAL, steps)
    ensures SomeStrayed(After(INITIAL, steps), id) <==> !Undisturbed(UNWATCHED, steps, id)
  {
    RunStrays(INITIAL, UNWATCHED, steps, id);
  }

  /** Without such a restart of the inbound, a client is billed exactly what it grew by over its
      unbroken stretches of scrapes. */
  lemma {:induction false} ExactWithoutRestart(steps: seq<Step>, p: nat, e: Email)
    requires Runs(INITIAL, steps)
    requires p < |After(INITIAL, steps).procs| && e in After(INITIAL, steps).procs[p].seen
    requires Undisturbed(UNWATCHED, steps, After(INITIAL, steps).procs[p].owner)
    ensures var proc := After(INITIAL, steps).procs[p]; At(proc.reported, e) == Growth(proc.seen[e].stretches)
  {
    RunKeepsInv(INITIAL, steps);
    OnlyRestartsStray(steps, After(INITIAL, steps).procs[p].owner);
    assert ProcOk(After(INITIAL, steps).procs[p]);
    assert Exact(After(INITIAL, steps).procs[p], e);
  }

  /** A scrape of process `p` finds the client again once it has been seen. */
  predicate FoundBy(s: State, step: Step, p: nat, e: Email)
    requires Enabled(s, step)
  {
    step.Scrape? && s.collector.snaps[0].proc == p && e in s.procs[p].seen ==> e in step.users
  }

  predicate AlwaysFound(s: State, steps: seq<Step>, p: nat, e: Email)
    requires Runs(s, steps)
    decreases |steps|
  {
    steps == [] || (FoundBy(s, steps[0], p, e) && AlwaysFound(Next(s, steps[0]), steps[1..], p, e))
  }

  predicate OneStretch(s: State, p: nat, e: Email) {
    p < |s.procs| && e in s.procs[p].seen ==> s.procs[p].seen[e].found && |s.procs[p].seen[e].stretches| == 1
  }

  lemma {:induction false} StepKeepsOneStretch(s: State, step: Step, p: nat, e: Email)
    requires Enabled(s, step) && FoundBy(s, step, p, e) && OneStretch(s, p, e)
    ensures OneStretch(Next(s, step), p, e)
  {
  }

  lemma {:induction false} RunKeepsOneStretch(s: State, steps: seq<Step>, p: nat, e: Email)
    requires Runs(s, steps) && AlwaysFound(s, steps, p, e) && OneStretch(s, p, e)
    ensures OneStretch(After(s, steps), p, e)
    decreases |steps|
  {
    if steps != [] {
      StepKeepsOneStretch(s, steps[0], p, e);
      RunKeepsOneStretch(Next(s, steps[0]), steps[1..], p, e);
    }
  }

  lemma {:induction false} OneStretchGrowth(stretches: seq<Stretch>)
    requires |stretches| == 1
    ensures SumsTo(stretches[0].first, Growth(stretches), stretches[0].latest)
  {
    assert stretches[..0] == [];
  }

  /** For a client found in every scrape that growth is the latest scraped value minus the first. */
  lemma {:induction false} FoundAlwaysIsOneStretch(steps: seq<Step>, p: nat, e: Email)
    requires Runs(INITIAL, steps) && AlwaysFound(INITIAL, steps, p, e)
    requires p < |After(INITIAL, steps).procs| && e in After(INITIAL, steps).procs[p].seen
    ensures var stretches := After(INITIAL, steps).procs[p].seen[e].stretches;
      |stretches| == 1 && SumsTo(stretches[0].first, Growth(stretches), stretches[0].latest)
  {
    RunKeepsOneStretch(INITIAL, steps, p, e);
    OneStretchGrowth(After(INITIAL, steps).procs[p].seen[e].stretches);
  }

  // ---------------------------------------------------------------- a restart during a collection

  lemma {:induction false} RunsOn(s: State, step: Step, rest: seq<Step>) returns (steps: seq<Step>)
    requires Enabled(s, step) && Runs(Next(s, step), rest)
    ensures Runs(s, steps) && After(s, steps) == After(Next(s, step), rest)
  {
    steps := [step] + rest;
    assert steps[1..] == rest;
  }

  lemma {:induction false} OneSnapshot(s: State, id: int)
    requires s.collector.Idle? && id in s.entries
    ensures Enabled(s, Snapshot([id])) && Next(s, Snapshot([id])) == s.(collector := Scraping([SnapOf(s, id)]))
  {
    assert Next(s, Snapshot([id])).collector.snaps == [SnapOf(s, id)];
  }

  function Counting(e: Email, n: int, strayed: bool): Proc {
    Proc(1, map[e := Counters(n, 0)], map[], map[], strayed)
  }

  lemma {:induction false} FirstFlow(p: Proc, e: Email, n: int)
    requires p == Proc(1, map[], map[], map[], p.strayed) && 0 <= n
    ensures Le(At(p.counters, e), Counters(n, 0)) && p.(counters := p.counters[e := Counters(n, 0)]) == Counting(e, n, p.strayed)
  {
    assert p.counters[e := Counters(n, 0)] == map[e := Counters(n, 0)];
  }

  /** The process at ten, after its first scrape. */
  function Ten(e: Email): Proc {
    Scraped(Counting(e, 10, false), {e}, map[])
  }

  function TenScraped(e: Email): State {
    State([Ten(e)], map[1 := Entry(0, map[])], Writing(Snap(1, 0, map[]), Values(Counting(e, 10, false), {e}), []))
  }

  lemma {:induction false} TenIsScraped(e: Email, s: State)
    requires s == State([Counting(e, 10, false)], map[1 := Entry(0, map[])], Scraping([Snap(1, 0, map[])]))
    ensures Next(s, Scrape({e})) == TenScraped(e)
  {
    assert [Snap(1, 0, map[])][1..] == [];
    assert s.procs[0 := Ten(e)] == [Ten(e)];
  }

  /** A sidecar counts to ten and is scraped; the write-back is to come. */
  lemma {:induction false} CollectionBegins(e: Email, rest: seq<Step>) returns (steps: seq<Step>)
    requires Runs(TenScraped(e), rest)
    ensures Runs(INITIAL, steps) && After(INITIAL, steps) == After(TenScraped(e), rest)
  {
    var s1 := Next(INITIAL, Launch(1));
    assert s1 == State([Proc(1, map[], map[], map[], false)], map[1 := Entry(0, map[])], Idle);
    FirstFlow(s1.procs[0], e, 10);
    var s2 := Next(s1, Flow(0, e, Counters(10, 0)));
    assert s2 == State([Counting(e, 10, false)], map[1 := Entry(0, map[])], Idle);
    OneSnapshot(s2, 1);
    var s3 := Next(s2, Snapshot([1]));
    TenIsScraped(e, s3);
    steps := RunsOn(s3, Scrape({e}), rest);
    steps := RunsOn(s2, Snapshot([1]), steps);
    steps := RunsOn(s1, Flow(0, e, Counters(10, 0)), steps);
    steps := RunsOn(INITIAL, Launch(1), steps);
  }

  function Strayed(e: Email): State {
    State([Ten(e), Proc(1, map[], map[], map[], true)], map[1 := Entry(1, Values(Counting(e, 10, false), {e}))], Scraping([]))
  }

  /** The sidecar is restarted, and the write-back hits the new process. */
  lemma {:induction false} RestartIsHit(e: Email, rest: seq<Step>) returns (steps: seq<Step>)
    requires Runs(Strayed(e), rest)
    ensures Runs(TenScraped(e), steps) && After(TenScraped(e), steps) == After(Strayed(e), rest)
  {
    var s5 := Next(TenScraped(e), Launch(1));
    assert s5.procs == [Ten(e), Proc(1, map[], map[], map[], false)];
    assert s5.entries == map[1 := Entry(1, map[])];
    assert Next(s5, WriteBack) == Strayed(e) by {
      assert s5.procs[1 := s5.procs[1].(strayed := true)] == Strayed(e).procs;
      assert Next(s5, WriteBack).entries == Strayed(e).entries;
    }
    steps := RunsOn(s5, WriteBack, rest);
    steps := RunsOn(TenScraped(e), Launch(1), steps);
  }

  /** The new process counts to fifteen and is scraped for the first time, against the old ten. */
  lemma {:induction false} NewOneIsScraped(e: Email) returns (steps: seq<Step>)
    ensures Runs(Strayed(e), steps)
    ensures After(Strayed(e), steps).procs == [Ten(e), Fifteen(e)]
  {
    var s6 := Next(Strayed(e), Finish);
    FirstFlow(s6.procs[1], e, 15);
    var s7 := Next(s6, Flow(1, e, Counters(15, 0)));
    assert s7.procs == [Ten(e), Counting(e, 15, true)];
    OneSnapshot(s7, 1);
    var s8 := Next(s7, Snapshot([1]));
    steps := RunsOn(s8, Scrape({e}), []);
    steps := RunsOn(s7, Snapshot([1]), steps);
    steps := RunsOn(s6, Flow(1, e, Counters(15, 0)), steps);
    steps := RunsOn(Strayed(e), Finish, steps);
  }

  /** The new process after its first scrape. */
  function Fifteen(e: Email): Proc {
    Scraped(Counting(e, 15, true), {e}, Values(Counting(e, 10, false), {e}))
  }

  /** Five are billed though the client did not grow between scrapes. */
  ghost predicate BilledFive(q: Proc, e: Email) {
    && e in q.seen && q.seen[e].stretches == [Stretch(Counters(15, 0), Counters(15, 0))]
    && Growth(q.seen[e].stretches) == ZERO && At(q.reported, e) == Counters(5, 0)
  }

  lemma {:induction false} FifteenIsBilled(e: Email)
    ensures Fifteen(e).owner == 1 && Fifteen(e).strayed && BilledFive(Fifteen(e), e)
  {
    var p, last := Counting(e, 15, true), Values(Counting(e, 10, false), {e});
    FoundIsCredited(p, {e}, last, e);
    FoundIsWatched(p, {e}, last, e);
    assert last[e] == Counters(10, 0);
    GrowthRestarts([], Counters(15, 0));
    assert [] + [Stretch(Counters(15, 0), Counters(15, 0))] == [Stretch(Counters(15, 0), Counters(15, 0))];
  }

  lemma {:induction false} RestartRun(e: Email) returns (steps: seq<Step>)
    ensures Runs(INITIAL, steps) && After(INITIAL, steps).procs == [Ten(e), Fifteen(e)]
  {
    var tail := NewOneIsScraped(e);
    var middle := RestartIsHit(e, tail);
    steps := CollectionBegins(e, middle);
  }

  lemma {:induction false} SecondStrays(s: State, first: Proc, second: Proc)
    requires s.procs == [first, second] && second.owner == 1 && second.strayed
    ensures SomeStrayed(s, 1) && |s.procs| == 2 && s.procs[1] == second
  {
    assert s.procs[1] == second;
  }

  /** Such a restart makes the bill inexact: of the fifteen the new process had counted by its first
      scrape five are billed, where a first scrape bills nothing. */
  lemma {:induction false} RestartMakesInexact(e: Email) returns (steps: seq<Step>)
    ensures Runs(INITIAL, steps) && !Undisturbed(UNWATCHED, steps, 1)
    ensures |After(INITIAL, steps).procs| == 2 && BilledFive(After(INITIAL, steps).procs[1], e)
  {
    steps := RestartRun(e);
    FifteenIsBilled(e);
    SecondStrays(After(INITIAL, steps), Ten(e), Fifteen(e));
    OnlyRestartsStray(steps, 1);
  }
}
