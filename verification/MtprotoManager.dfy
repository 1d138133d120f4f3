/** The manager of MTProto sidecars: one process an inbound, reloaded in place when only its
    secrets changed, restarted when more did. The outside world answers each call it is asked. */
module MtprotoManager {
  import opened Collections
  import opened Wrappers
  import opened Text
  import opened MtprotoConfig

  datatype Counters = Counters(up: int, down: int)

  /** `proc` is the process handle; handles are given out in order. */
  datatype Managed = Managed(
    proc: nat, tag: Bytes, structuralFP: Bytes, secretsFP: Bytes,
    apiPort: int, apiToken: Bytes, last: map<Bytes, Counters>)

  /** `accepted` is history: the configuration each process last took. */
  datatype Fleet = Fleet(procs: map<int, Managed>, launched: nat, accepted: map<nat, Wanted>)

  /** How the outside answers one call: whether the process runs, its config file can be written,
      it takes new secrets live, a port and a token can be had, and a new process starts. */
  datatype Outcome = Outcome(
    running: bool, written: bool, applied: bool,
    port: Option<int>, token: Option<Bytes>, rewritten: bool, started: bool)

  datatype Action = Noop | Reload | Restart

  function ActionFor(running: bool, cur: Managed, w: Wanted): Action {
    if !running || cur.structuralFP != w.structuralFP then Restart
    else if cur.secretsFP != w.secretsFP then Reload
    else Noop
  }

  predicate CanStart(o: Outcome) {
    o.port.Some? && o.token.Some? && o.rewritten && o.started
  }

  function Without(f: Fleet, id: int): Fleet {
    f.(procs := f.procs - {id})
  }

  function Launched(f: Fleet, w: Wanted, o: Outcome): Fleet
    requires CanStart(o)
  {
    var m := Managed(f.launched, w.tag, w.structuralFP, w.secretsFP, o.port.value, o.token.value, map[]);
    Fleet(f.procs[w.id := m], f.launched + 1, f.accepted[f.launched := w])
  }

  function Reloaded(f: Fleet, w: Wanted): Fleet
    requires w.id in f.procs
  {
    var cur := f.procs[w.id];
    Fleet(f.procs[w.id := cur.(tag := w.tag, secretsFP := w.secretsFP)], f.launched, f.accepted[cur.proc := w])
  }

  function Retagged(f: Fleet, w: Wanted): Fleet
    requires w.id in f.procs
  {
    f.(procs := f.procs[w.id := f.procs[w.id].(tag := w.tag)])
  }

  function Started(f: Fleet, w: Wanted, o: Outcome): Fleet {
    if CanStart(o) then Launched(Without(f, w.id), w, o) else Without(f, w.id)
  }

  /** ensureLocked. */
  function Ensured(f: Fleet, w: Wanted, o: Outcome): Fleet {
    if w.id !in f.procs then Started(f, w, o)
    else
      match ActionFor(o.running, f.procs[w.id], w)
      case Noop => Retagged(f, w)
      case Reload => if !o.written then f else if o.applied then Reloaded(f, w) else Started(f, w, o)
      case Restart => Started(f, w, o)
  }

  /** The error ensureLocked returns, or its absence. */
  predicate EnsureSucceeds(f: Fleet, w: Wanted, o: Outcome) {
    if w.id !in f.procs then CanStart(o)
    else
      match ActionFor(o.running, f.procs[w.id], w)
      case Noop => true
      case Reload => o.written && (o.applied || CanStart(o))
      case Restart => CanStart(o)
  }

  function Ids(desired: seq<Wanted>): set<int> {
    set w | w in desired :: w.id
  }

  function Kept(f: Fleet, ids: set<int>): Fleet {
    f.(procs := f.procs - (f.procs.Keys - ids))
  }

  function EnsuredAll(f: Fleet, desired: seq<Wanted>, os: seq<Outcome>): Fleet
    requires |os| == |desired|
    decreases |desired|
  {
    var n := |desired|;
    if n == 0 then f else Ensured(EnsuredAll(f, desired[..n - 1], os[..n - 1]), desired[n - 1], os[n - 1])
  }

  function Reconciled(f: Fleet, desired: seq<Wanted>, os: seq<Outcome>): Fleet
    requires |os| == |desired|
  {
    EnsuredAll(Kept(f, Ids(desired)), desired, os)
  }

  // ---------------------------------------------------------------- what every call keeps

  /** The entry's fingerprints are those of the configuration its own process last took. */
  ghost predicate Faithful(f: Fleet, id: int)
    requires id in f.procs
  {
    var m := f.procs[id];
    && m.proc < f.launched && m.proc in f.accepted && f.accepted[m.proc].id == id
    && f.accepted[m.proc].structuralFP == m.structuralFP && f.accepted[m.proc].secretsFP == m.secretsFP
  }

  ghost predicate Inv(f: Fleet) {
    forall id <- f.procs :: Faithful(f, id)
  }

  lemma {:induction false} NoSharedProcess(f: Fleet, a: int, b: int)
    requires Inv(f) && a in f.procs && b in f.procs && f.procs[a].proc == f.procs[b].proc
    ensures a == b
  {
    assert Faithful(f, a) && Faithful(f, b);
  }

  lemma {:induction false} KeptKeepsInv(f: Fleet, ids: set<int>)
    requires Inv(f)
    ensures Inv(Kept(f, ids))
  {
    forall id <- Kept(f, ids).procs
      ensures Faithful(Kept(f, ids), id)
    {
      assert Faithful(f, id);
    }
  }

  lemma {:induction false} WithoutKeepsInv(f: Fleet, id: int)
    requires Inv(f)
    ensures Inv(Without(f, id))
  {
    forall i <- Without(f, id).procs
      ensures Faithful(Without(f, id), i)
    {
      assert Faithful(f, i);
    }
  }

  lemma {:induction false} LaunchedKeepsInv(f: Fleet, w: Wanted, o: Outcome)
    requires Inv(f) && CanStart(o)
    ensures Inv(Launched(f, w, o))
  {
    var g := Launched(f, w, o);
    forall id <- g.procs
      ensures Faithful(g, id)
    {
      assert id in f.procs ==> Faithful(f, id);
    }
  }

  lemma {:induction false} UpdatedKeepsInv(f: Fleet, w: Wanted)
    requires Inv(f) && w.id in f.procs
    ensures Inv(Retagged(f, w))
    ensures f.procs[w.id].structuralFP == w.structuralFP ==> Inv(Reloaded(f, w))
  {
    assert Faithful(f, w.id);
    var g, h := Retagged(f, w), Reloaded(f, w);
    forall id <- f.procs
      ensures Faithful(g, id)
      ensures f.procs[w.id].structuralFP == w.structuralFP ==> Faithful(h, id)
    {
      assert Faithful(f, id);
    }
  }

  lemma {:induction false} EnsuredKeepsInv(f: Fleet, w: Wanted, o: Outcome)
    requires Inv(f)
    ensures Inv(Ensured(f, w, o))
  {
    WithoutKeepsInv(f, w.id);
    if CanStart(o) {
      LaunchedKeepsInv(Without(f, w.id), w, o);
    }
    if w.id in f.procs {
      UpdatedKeepsInv(f, w);
    }
  }

  lemma {:induction false} EnsuredAllKeepsInv(f: Fleet, desired: seq<Wanted>, os: seq<Outcome>)
    requires Inv(f) && |os| == |desired|
    ensures Inv(EnsuredAll(f, desired, os))
    decreases |desired|
  {
    var n := |desired|;
    if n > 0 {
      EnsuredAllKeepsInv(f, desired[..n - 1], os[..n - 1]);
      EnsuredKeepsInv(EnsuredAll(f, desired[..n - 1], os[..n - 1]), desired[n - 1], os[n - 1]);
    }
  }

  datatype Call =
    | Ensure(w: Wanted, o: Outcome)
    | Remove(id: int)
    | Reconcile(answered: seq<(Wanted, Outcome)>)
    | StopAll

  function WantedIn(answered: seq<(Wanted, Outcome)>): seq<Wanted> {
    seq(|answered|, i requires 0 <= i < |answered| => answered[i].0)
  }

  function OutcomesIn(answered: seq<(Wanted, Outcome)>): seq<Outcome> {
    seq(|answered|, i requires 0 <= i < |answered| => answered[i].1)
  }

  function Called(f: Fleet, c: Call): Fleet {
    match c
    case Ensure(w, o) => Ensured(f, w, o)
    case Remove(id) => Without(f, id)
    case Reconcile(answered) => Reconciled(f, WantedIn(answered), OutcomesIn(answered))
    case StopAll => f.(procs := map[])
  }

  function After(f: Fleet, calls: seq<Call>): Fleet
    decreases |calls|
  {
    if calls == [] then f else Called(After(f, calls[..|calls| - 1]), calls[|calls| - 1])
  }

  /** In every run the recorded fingerprints are those of what the processes run. */
  lemma {:induction false} EveryRunIsFaithful(calls: seq<Call>)
    ensures Inv(After(Fleet(map[], 0, map[]), calls))
    decreases |calls|
  {
    if calls != [] {
      EveryRunIsFaithful(calls[..|calls| - 1]);
      CallKeepsInv(After(Fleet(map[], 0, map[]), calls[..|calls| - 1]), calls[|calls| - 1]);
    }
  }

  lemma {:induction false} CallKeepsInv(f: Fleet, c: Call)
    requires Inv(f)
    ensures Inv(Called(f, c))
  {
    match c
    case Ensure(w, o) => EnsuredKeepsInv(f, w, o);
    case Remove(id) => WithoutKeepsInv(f, id);
    case Reconcile(answered) =>
      KeptKeepsInv(f, Ids(WantedIn(answered)));
      EnsuredAllKeepsInv(Kept(f, Ids(WantedIn(answered))), WantedIn(answered), OutcomesIn(answered));
    case StopAll =>
  }

  // ---------------------------------------------------------------- one call

  /** What a successful call leaves: the entry the call wanted, of the process that runs it. */
  ghost predicate Serves(f: Fleet, w: Wanted) {
    && w.id in f.procs && f.procs[w.id].tag == w.tag
    && f.procs[w.id].structuralFP == w.structuralFP && f.procs[w.id].secretsFP == w.secretsFP
  }

  /** The call succeeds exactly when the wanted configuration is what then runs, unless the entry
      was there and untouched; other entries keep theirs either way. */
  lemma {:induction false} EnsureServes(f: Fleet, w: Wanted, o: Outcome)
    ensures EnsureSucceeds(f, w, o) <==> Serves(Ensured(f, w, o), w)
    ensures Ensured(f, w, o).procs - {w.id} == f.procs - {w.id}
  {
  }

  /** A live reload keeps the process, its port, its token and its traffic baseline. */
  lemma {:induction false} ReloadKeepsProcess(f: Fleet, w: Wanted, o: Outcome)
    requires w.id in f.procs && o.running && f.procs[w.id].structuralFP == w.structuralFP
    requires o.written && o.applied
    ensures w.id in Ensured(f, w, o).procs && Ensured(f, w, o).launched == f.launched
    ensures var was, now := f.procs[w.id], Ensured(f, w, o).procs[w.id];
      && now.proc == was.proc && now.apiPort == was.apiPort && now.apiToken == was.apiToken && now.last == was.last
      && now.secretsFP == w.secretsFP
  {
  }

  /** The process is dead, differs in structure, or refused the new secrets. */
  predicate MustBeReplaced(m: Managed, w: Wanted, o: Outcome) {
    !o.running || m.structuralFP != w.structuralFP || (m.secretsFP != w.secretsFP && o.written && !o.applied)
  }

  /** A process the manager had not launched by then, running what is wanted on the port and token
      it was given, with nothing counted for a baseline. */
  ghost predicate FreshlyServes(f: Fleet, launched: nat, w: Wanted, o: Outcome) {
    && Serves(f, w) && f.procs[w.id].proc >= launched && f.procs[w.id].last == map[]
    && o.port == Some(f.procs[w.id].apiPort) && o.token == Some(f.procs[w.id].apiToken)
  }

  /** A call replaces the process exactly when it must be: a dead one is never left in place. The
      new one is fresh; when none can be started there is none. A process that need not be replaced
      keeps its port, its token and its traffic baseline. */
  lemma {:induction false} ReplacesExactlyWhenNeeded(f: Fleet, w: Wanted, o: Outcome)
    requires Inv(f) && w.id in f.procs
    ensures var was, g := f.procs[w.id], Ensured(f, w, o);
      if MustBeReplaced(was, w, o) then
        && f.procs[w.id].proc < f.launched
        && if o.port.Some? && o.token.Some? && o.rewritten && o.started then FreshlyServes(g, f.launched, w, o) else w.id !in g.procs
      else
        && w.id in g.procs && g.procs[w.id].proc == was.proc && g.procs[w.id].apiPort == was.apiPort
        && g.procs[w.id].apiToken == was.apiToken && g.procs[w.id].last == was.last && g.launched == f.launched
  {
    assert Faithful(f, w.id);
  }

  /** After everything was stopped nothing is served, and the first call for an inbound gets a
      process the manager never had before, with nothing counted for a baseline - or none. */
  lemma {:induction false} StoppedStartsAfresh(f: Fleet, w: Wanted, o: Outcome)
    requires Inv(f)
    ensures var g := Ensured(Called(f, StopAll), w, o);
      && (Serves(g, w) <==> CanStart(o))
      && g.procs.Keys == (if CanStart(o) then {w.id} else {})
      && (CanStart(o) ==>
            && g.procs[w.id].last == map[]
            && forall id | id in f.procs :: f.procs[id].proc != g.procs[w.id].proc)
  {
    forall id | id in f.procs
      ensures f.procs[id].proc < f.launched
    {
      assert Faithful(f, id);
    }
  }

  // ---------------------------------------------------------------- reconciling

  lemma {:induction false} IdsSnoc(desired: seq<Wanted>)
    requires desired != []
    ensures Ids(desired) == Ids(desired[..|desired| - 1]) + {desired[|desired| - 1].id}
  {
    var n := |desired| - 1;
    forall id
      ensures id in Ids(desired) <==> id in Ids(desired[..n]) || id == desired[n].id
    {
      if id in Ids(desired) {
        var k :| 0 <= k < |desired| && desired[k].id == id;
        if k < n {
          assert desired[..n][k] in desired[..n];
        }
      }
    }
  }

  /** With starts succeeding, reconciling manages exactly the desired ids. */
  lemma {:induction false} AllIdsManaged(f: Fleet, desired: seq<Wanted>, os: seq<Outcome>)
    requires |os| == |desired| && forall i | 0 <= i < |os| :: CanStart(os[i])
    ensures EnsuredAll(f, desired, os).procs.Keys == f.procs.Keys + Ids(desired)
    decreases |desired|
  {
    if desired != [] {
      var n := |desired| - 1;
      AllIdsManaged(f, desired[..n], os[..n]);
      IdsSnoc(desired);
      StartedManages(EnsuredAll(f, desired[..n], os[..n]), desired[n], os[n]);
    }
  }

  lemma {:induction false} StartedManages(f: Fleet, w: Wanted, o: Outcome)
    requires CanStart(o)
    ensures Ensured(f, w, o).procs.Keys == f.procs.Keys + {w.id}
  {
  }

  lemma {:induction false} ReconcileReaches(f: Fleet, desired: seq<Wanted>, os: seq<Outcome>)
    requires |os| == |desired| && forall i | 0 <= i < |os| :: CanStart(os[i])
    ensures Reconciled(f, desired, os).procs.Keys == Ids(desired)
  {
    AllIdsManaged(Kept(f, Ids(desired)), desired, os);
    assert Kept(f, Ids(desired)).procs.Keys <= Ids(desired);
  }

  ghost predicate DistinctIds(desired: seq<Wanted>) {
    forall i, j | 0 <= i < j < |desired| :: desired[i].id != desired[j].id
  }

  /** With distinct ids, every desired configuration is then served. */
  lemma {:induction false} ReconcileServes(f: Fleet, desired: seq<Wanted>, os: seq<Outcome>, k: nat)
    requires |os| == |desired| && DistinctIds(desired) && k < |desired|
    requires forall i | 0 <= i < |os| :: CanStart(os[i]) && os[i].written
    ensures Serves(EnsuredAll(f, desired, os), desired[k])
    decreases |desired|
  {
    var n := |desired| - 1;
    var g := EnsuredAll(f, desired[..n], os[..n]);
    EnsureServes(g, desired[n], os[n]);
    if k < n {
      ReconcileServes(f, desired[..n], os[..n], k);
      assert desired[k].id != desired[n].id;
      var h := Ensured(g, desired[n], os[n]);
      assert desired[k].id in g.procs - {desired[n].id};
      assert (h.procs - {desired[n].id})[desired[k].id] == h.procs[desired[k].id];
    }
  }

  ghost predicate SameEntry(f: Fleet, g: Fleet, id: int) {
    (id in f.procs <==> id in g.procs) && (id in f.procs ==> f.procs[id] == g.procs[id])
  }

  /** A pass over other inbounds leaves the entry of one alone. */
  lemma {:induction false} OthersKeepEntry(f: Fleet, desired: seq<Wanted>, os: seq<Outcome>, id: int)
    requires |os| == |desired| && forall i | 0 <= i < |desired| :: desired[i].id != id
    ensures SameEntry(EnsuredAll(f, desired, os), f, id) && EnsuredAll(f, desired, os).launched >= f.launched
    decreases |desired|
  {
    if desired != [] {
      var n := |desired| - 1;
      OthersKeepEntry(f, desired[..n], os[..n], id);
      EnsureLeavesEntry(EnsuredAll(f, desired[..n], os[..n]), desired[n], os[n], id);
    }
  }

  lemma {:induction false} EnsureLeavesEntry(f: Fleet, w: Wanted, o: Outcome, id: int)
    requires id != w.id
    ensures SameEntry(Ensured(f, w, o), f, id) && Ensured(f, w, o).launched >= f.launched
  {
  }

  /** What a pass does to one of its inbounds is what its call would do alone. */
  lemma {:induction false} EachOnItsOwn(f: Fleet, desired: seq<Wanted>, os: seq<Outcome>, k: nat) returns (g: Fleet)
    requires Inv(f) && |os| == |desired| && DistinctIds(desired) && k < |desired|
    ensures Inv(g) && SameEntry(g, f, desired[k].id) && g.launched >= f.launched
    ensures SameEntry(EnsuredAll(f, desired, os), Ensured(g, desired[k], os[k]), desired[k].id)
    decreases |desired|
  {
    var n := |desired| - 1;
    if k < n {
      g := EachOnItsOwn(f, desired[..n], os[..n], k);
      EnsureLeavesEntry(EnsuredAll(f, desired[..n], os[..n]), desired[n], os[n], desired[k].id);
    } else {
      g := EnsuredAll(f, desired[..n], os[..n]);
      OthersKeepEntry(f, desired[..n], os[..n], desired[n].id);
      EnsuredAllKeepsInv(f, desired[..n], os[..n]);
    }
  }

  /** Reconciling recovers from crashes: every desired inbound whose process must be replaced has a
      fresh one afterwards if one could be started and none otherwise, and every other one that was
      managed keeps its process. */
  lemma {:induction false} ReconcileReplacesExactly(f: Fleet, desired: seq<Wanted>, os: seq<Outcome>, k: nat)
    requires Inv(f) && |os| == |desired| && DistinctIds(desired) && k < |desired| && desired[k].id in f.procs
    ensures var was, g := f.procs[desired[k].id], Reconciled(f, desired, os);
      if MustBeReplaced(was, desired[k], os[k]) then
        && was.proc < f.launched
        && if os[k].port.Some? && os[k].token.Some? && os[k].rewritten && os[k].started then FreshlyServes(g, f.launched, desired[k], os[k]) else desired[k].id !in g.procs
      else
        && desired[k].id in g.procs && g.procs[desired[k].id].proc == was.proc
        && g.procs[desired[k].id].last == was.last
  {
    var ids := Ids(desired);
    KeptKeepsInv(f, ids);
    var g := EachOnItsOwn(Kept(f, ids), desired, os, k);
    assert desired[k].id in ids;
    ReplacesExactlyWhenNeeded(g, desired[k], os[k]);
    assert Faithful(f, desired[k].id);
  }

  /** Asked again for configurations already served by live processes, reconciling changes nothing. */
  lemma {:induction false} ServedStays(f: Fleet, desired: seq<Wanted>, os: seq<Outcome>)
    requires |os| == |desired| && forall i | 0 <= i < |os| :: os[i].running
    requires forall w | w in desired :: Serves(f, w)
    ensures EnsuredAll(f, desired, os) == f
    decreases |desired|
  {
    if desired != [] {
      var n := |desired| - 1;
      ServedStays(f, desired[..n], os[..n]);
      NoopIsNothing(f, desired[n], os[n]);
    }
  }

  lemma {:induction false} NoopIsNothing(f: Fleet, w: Wanted, o: Outcome)
    requires Serves(f, w) && o.running
    ensures Ensured(f, w, o) == f
  {
    assert f.procs[w.id].(tag := w.tag) == f.procs[w.id];
    assert f.procs[w.id := f.procs[w.id]] == f.procs;
  }

  /** The same instances with the secrets of each in another order. */
  ghost predicate Reordered(a: seq<Instance>, b: seq<Instance>) {
    && |a| == |b|
    && forall i | 0 <= i < |a| :: multiset(b[i].secrets) == multiset(a[i].secrets) && b[i] == a[i].(secrets := b[i].secrets)
  }

  function AllWanted(instances: seq<Instance>): seq<Wanted> {
    seq(|instances|, i requires 0 <= i < |instances| => WantedOf(instances[i]))
  }

  lemma {:induction false} ReorderedWantTheSame(a: seq<Instance>, b: seq<Instance>)
    requires Reordered(a, b)
    ensures AllWanted(b) == AllWanted(a)
  {
    forall i | 0 <= i < |a|
      ensures AllWanted(b)[i] == AllWanted(a)[i]
    {
      OrderIsNoChange(a[i], b[i].secrets);
    }
  }

  lemma {:induction false} SecondPassIsIdle(f: Fleet, wanted: seq<Wanted>, os: seq<Outcome>, again: seq<Outcome>)
    requires |os| == |wanted| == |again| && DistinctIds(wanted)
    requires forall i | 0 <= i < |os| :: CanStart(os[i]) && os[i].written
    requires forall i | 0 <= i < |again| :: again[i].running
    ensures var g := Reconciled(f, wanted, os);
      g.procs.Keys == Ids(wanted) && Reconciled(g, wanted, again) == g
  {
    var g := Reconciled(f, wanted, os);
    ReconcileReaches(f, wanted, os);
    forall w | w in wanted
      ensures Serves(g, w)
    {
      var k :| 0 <= k < |wanted| && wanted[k] == w;
      ReconcileServes(Kept(f, Ids(wanted)), wanted, os, k);
    }
    assert Kept(g, Ids(wanted)) == g;
    ServedStays(g, wanted, again);
  }

  /** A second pass over the same inbounds, whatever the order of their clients, starts, stops and
      reloads nothing while the processes live. */
  lemma {:induction false} SecondReconcileIsIdle(f: Fleet, a: seq<Instance>, b: seq<Instance>, os: seq<Outcome>, again: seq<Outcome>)
    requires Reordered(a, b) && |os| == |a| && |again| == |b| && DistinctIds(AllWanted(a))
    requires forall i | 0 <= i < |os| :: CanStart(os[i]) && os[i].written
    requires forall i | 0 <= i < |again| :: again[i].running
    ensures Reconciled(f, AllWanted(a), os).procs.Keys == Ids(AllWanted(a))
    ensures Reconciled(Reconciled(f, AllWanted(a), os), AllWanted(b), again) == Reconciled(f, AllWanted(a), os)
  {
    ReorderedWantTheSame(a, b);
    SecondPassIsIdle(f, AllWanted(a), os, again);
  }

  // ---------------------------------------------------------------- the manager

  class Manager {
    var procs: map<int, Managed>
    var launched: nat
    ghost var accepted: map<nat, Wanted>

    ghost function State(): Fleet
      reads this
    {
      Fleet(procs, launched, accepted)
    }

    constructor ()
      ensures State() == Fleet(map[], 0, map[])
    {
      procs, launched, accepted := map[], 0, map[];
    }

    method EnsureLocked(w: Wanted, o: Outcome) returns (ok: bool)
      modifies this
      ensures State() == Ensured(old(State()), w, o)
      ensures ok == EnsureSucceeds(old(State()), w, o)
    {
      if w.id in procs {
        var cur := procs[w.id];
        var action := ActionFor(o.running, cur, w);
        if action.Noop? {
          procs := procs[w.id := cur.(tag := w.tag)];
          return true;
        }
        if action.Reload? {
          if !o.written {
            return false;
          }
          if o.applied {
            procs := procs[w.id := cur.(tag := w.tag, secretsFP := w.secretsFP)];
            accepted := accepted[cur.proc := w];
            return true;
          }
        }
        procs := procs - {w.id};
      }
      assert procs == old(procs) - {w.id};
      if o.port.None? || o.token.None? || !o.rewritten || !o.started {
        return false;
      }
      procs := procs[w.id := Managed(launched, w.tag, w.structuralFP, w.secretsFP, o.port.value, o.token.value, map[])];
      accepted := accepted[launched := w];
      launched := launched + 1;
      ok := true;
    }

    method Ensure(inst: Instance, o: Outcome) returns (ok: bool)
      modifies this
      ensures State() == Ensured(old(State()), WantedOf(inst), o)
      ensures ok == EnsureSucceeds(old(State()), WantedOf(inst), o)
    {
      var w := ComputeWanted(inst);
      ok := EnsureLocked(w, o);
    }

    method Remove(id: int)
      modifies this
      ensures State() == Without(old(State()), id)
    {
      if id in procs {
        procs := procs - {id};
      }
      assert procs == old(procs) - {id};
    }

    method DropUnwanted(want: set<int>)
      modifies this`procs
      ensures procs == old(procs) - (old(procs).Keys - want)
    {
      ghost var all, done: set<int> := procs, {};
      var rest := procs.Keys;
      while rest != {}
        invariant done !! rest && done + rest == all.Keys
        invariant procs == all - (done - want)
        decreases |rest|
      {
        var id := AnyOf(rest);
        DropStep(all, done, want, id);
        rest := rest - {id};
        done := done + {id};
        if id !in want {
          procs := procs - {id};
        }
      }
      assert done == all.Keys;
    }

    method EnsureAll(desired: seq<Instance>, os: seq<Outcome>)
      requires |os| == |desired|
      modifies this
      ensures State() == EnsuredAll(old(State()), AllWanted(desired), os)
    {
      ghost var wanted := AllWanted(desired);
      for i := 0 to |desired|
        invariant State() == EnsuredAll(old(State()), wanted[..i], os[..i])
      {
        OneMore(old(State()), wanted, os, i);
        var ok := Ensure(desired[i], os[i]);
      }
      assert wanted[..|desired|] == wanted && os[..|desired|] == os;
    }

    method Reconcile(desired: seq<Instance>, os: seq<Outcome>)
      requires |os| == |desired|
      modifies this
      ensures State() == Reconciled(old(State()), AllWanted(desired), os)
    {
      WantIds(desired);
      DropUnwanted(set inst | inst in desired :: inst.id);
      EnsureAll(desired, os);
    }

    method StopAll()
      modifies this
      ensures State() == old(State()).(procs := map[])
      ensures forall w :: !Serves(State(), w)
    {
      while procs.Keys != {}
        invariant State() == old(State()).(procs := procs)
        decreases |procs.Keys|
      {
        var id := AnyOf(procs.Keys);
        ghost var rest := procs.Keys - {id};
        procs := procs - {id};
        assert procs.Keys == rest;
      }
      assert procs == map[];
    }
  }

  lemma {:induction false} DropStep<T>(all: map<int, T>, done: set<int>, want: set<int>, id: int)
    ensures all - (done + {id} - want) == if id in want then all - (done - want) else (all - (done - want)) - {id}
  {
    assert done + {id} - want == if id in want then done - want else (done - want) + {id};
  }

  lemma {:induction false} OneMore(f: Fleet, desired: seq<Wanted>, os: seq<Outcome>, i: nat)
    requires i < |desired| == |os|
    ensures EnsuredAll(f, desired[..i + 1], os[..i + 1]) == Ensured(EnsuredAll(f, desired[..i], os[..i]), desired[i], os[i])
  {
    assert desired[..i + 1][..i] == desired[..i] && os[..i + 1][..i] == os[..i];
  }

  lemma {:induction false} WantIds(desired: seq<Instance>)
    ensures Ids(AllWanted(desired)) == set inst | inst in desired :: inst.id
  {
    var wanted := AllWanted(desired);
    forall inst | inst in desired
      ensures inst.id in Ids(wanted)
    {
      var k :| 0 <= k < |desired| && desired[k] == inst;
      assert wanted[k] in wanted;
    }
    forall w | w in wanted
      ensures exists inst :: inst in desired && inst.id == w.id
    {
      var k :| 0 <= k < |wanted| && wanted[k] == w;
      assert desired[k] in desired;
    }
  }
}
