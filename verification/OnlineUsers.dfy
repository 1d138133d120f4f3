/** Who is online on this panel: names reported by traffic polls, forgotten a grace period later. */
module OnlineUsers {
  import opened Collections

  type Seen = map<string, int>

  /** One poll's report of active names. */
  datatype Report = Report(active: seq<string>, now: int)

  function Noted(seen: Seen, r: Report, n: nat): Seen
    requires n <= |r.active|
    decreases n
  {
    if n == 0 then seen else Noted(seen, r, n - 1)[r.active[n - 1] := r.now]
  }

  function Stale(seen: Seen, now: int, grace: int): set<string> {
    set e | e in seen && now - seen[e] >= grace
  }

  function Refreshed(seen: Seen, r: Report, grace: int): Seen {
    var noted := Noted(seen, r, |r.active|);
    noted - Stale(noted, r.now, grace)
  }

  /** The table after the first `n` reports. */
  function After(reports: seq<Report>, grace: int, n: nat): Seen
    requires n <= |reports|
    decreases n
  {
    if n == 0 then map[] else Refreshed(After(reports, grace, n - 1), reports[n - 1], grace)
  }

  // ---------------------------------------------------------------- what the table holds

  ghost predicate Ordered(reports: seq<Report>) {
    forall i, j | 0 <= i <= j < |reports| :: reports[i].now <= reports[j].now
  }

  /** Report `i` named `e` less than a grace period before `now`. */
  predicate Recent(reports: seq<Report>, i: nat, e: string, now: int, grace: int)
    requires i < |reports|
  {
    e in reports[i].active && now - reports[i].now < grace
  }

  lemma {:induction false} NotedIs(seen: Seen, r: Report, n: nat, e: string)
    requires n <= |r.active|
    ensures e in r.active[..n] ==> e in Noted(seen, r, n) && Noted(seen, r, n)[e] == r.now
    ensures e !in r.active[..n] ==> (e in Noted(seen, r, n) <==> e in seen)
    ensures e !in r.active[..n] && e in seen ==> Noted(seen, r, n)[e] == seen[e]
    decreases n
  {
    if n > 0 {
      NotedIs(seen, r, n - 1, e);
      assert r.active[..n] == r.active[..n - 1] + [r.active[n - 1]];
    }
  }

  lemma {:induction false} RefreshedIs(seen: Seen, r: Report, grace: int, e: string)
    ensures e in r.active && grace > 0 ==> e in Refreshed(seen, r, grace) && Refreshed(seen, r, grace)[e] == r.now
    ensures e in r.active && grace <= 0 ==> e !in Refreshed(seen, r, grace)
    ensures e !in r.active ==> (e in Refreshed(seen, r, grace) <==> e in seen && r.now - seen[e] < grace)
    ensures e !in r.active && e in Refreshed(seen, r, grace) ==> Refreshed(seen, r, grace)[e] == seen[e]
  {
    NotedIs(seen, r, |r.active|, e);
    assert r.active[..|r.active|] == r.active;
  }

  /** An entry is the time of a report of the name, and no later report of it is missing. */
  ghost predicate Holds(reports: seq<Report>, grace: int, n: nat, e: string)
    requires 0 < n <= |reports|
  {
    var seen := After(reports, grace, n);
    && (e in seen ==> exists i :: 0 <= i < n && Recent(reports, i, e, reports[n - 1].now, grace) && seen[e] == reports[i].now)
    && (forall i | 0 <= i < n && Recent(reports, i, e, reports[n - 1].now, grace) :: e in seen && seen[e] >= reports[i].now)
  }

  lemma {:induction false} TableHolds(reports: seq<Report>, grace: int, n: nat, e: string)
    requires 0 < n <= |reports| && Ordered(reports)
    ensures Holds(reports, grace, n, e)
    decreases n
  {
    var last := reports[n - 1];
    RefreshedIs(After(reports, grace, n - 1), last, grace, e);
    if n > 1 {
      TableHolds(reports, grace, n - 1, e);
      StillHolds(reports, grace, n - 1, e);
    } else if e in last.active && grace > 0 {
      assert Recent(reports, 0, e, last.now, grace);
    }
  }

  lemma {:induction false} StillHolds(reports: seq<Report>, grace: int, n: nat, e: string)
    requires 0 < n < |reports| && Ordered(reports) && Holds(reports, grace, n, e)
    ensures Holds(reports, grace, n + 1, e)
  {
    var before, now := After(reports, grace, n), reports[n].now;
    RefreshedIs(before, reports[n], grace, e);
    if e in reports[n].active && grace > 0 {
      assert Recent(reports, n, e, now, grace);
    }
    if e in before {
      var i :| 0 <= i < n && Recent(reports, i, e, reports[n - 1].now, grace) && before[e] == reports[i].now;
      assert e !in reports[n].active && now - before[e] < grace ==> Recent(reports, i, e, now, grace);
    }
    forall i | 0 <= i < n && Recent(reports, i, e, now, grace)
      ensures Recent(reports, i, e, reports[n - 1].now, grace)
    {
    }
  }

  ghost predicate NamedSince(reports: seq<Report>, n: nat, e: string, now: int, grace: int)
    requires n <= |reports|
  {
    exists i | 0 <= i < n :: Recent(reports, i, e, now, grace)
  }

  /** With a clock that never runs back, a name is listed exactly when some report less than a
      grace period ago named it; what was pruned makes no difference. */
  lemma {:induction false} ListedExactlyWhileRecent(reports: seq<Report>, grace: int, n: nat, e: string)
    requires 0 < n <= |reports| && Ordered(reports)
    ensures e in After(reports, grace, n) <==> NamedSince(reports, n, e, reports[n - 1].now, grace)
  {
    TableHolds(reports, grace, n, e);
  }

  // ---------------------------------------------------------------- the process

  /** The list has every name of the table once. */
  ghost predicate Lists(list: seq<string>, seen: Seen) {
    multiset(list) == multiset(seen.Keys)
  }

  lemma {:induction false} Visits(all: Seen, stale: set<string>, rest: set<string>, e: string)
    requires e in rest && rest <= all.Keys
    ensures e in all - (stale - rest) && (all - (stale - rest))[e] == all[e]
    ensures all - (stale - (rest - {e})) ==
      if e in stale then (all - (stale - rest)) - {e} else all - (stale - rest)
    ensures e !in stale ==> all.Keys - stale - (rest - {e}) == all.Keys - stale - rest + {e}
    ensures e in stale ==> all.Keys - stale - (rest - {e}) == all.Keys - stale - rest
  {
  }

  method Note(seen: Seen, r: Report) returns (noted: Seen)
    ensures noted == Noted(seen, r, |r.active|)
  {
    noted := seen;
    for i := 0 to |r.active|
      invariant noted == Noted(seen, r, i)
    {
      noted := noted[r.active[i] := r.now];
    }
  }

  /** The names up to `rest` are dealt with. */
  ghost predicate Sorted(noted: Seen, stale: set<string>, rest: set<string>, kept: Seen, list: seq<string>) {
    kept == noted - (stale - rest) && multiset(list) == multiset(noted.Keys - stale - rest)
  }

  lemma {:induction false} Keeps(noted: Seen, stale: set<string>, rest: set<string>, kept: Seen, list: seq<string>, e: string)
    requires e in rest && rest <= noted.Keys && e !in stale && Sorted(noted, stale, rest, kept, list)
    ensures Sorted(noted, stale, rest - {e}, kept, list + [e])
  {
    Visits(noted, stale, rest, e);
    assert e !in noted.Keys - stale - rest;
  }

  lemma {:induction false} Drops(noted: Seen, stale: set<string>, rest: set<string>, kept: Seen, list: seq<string>, e: string)
    requires e in rest && rest <= noted.Keys && e in stale && Sorted(noted, stale, rest, kept, list)
    ensures Sorted(noted, stale, rest - {e}, kept - {e}, list)
  {
    Visits(noted, stale, rest, e);
  }

  lemma {:induction false} AllSorted(noted: Seen, stale: set<string>, kept: Seen, list: seq<string>)
    requires Sorted(noted, stale, {}, kept, list)
    ensures kept == noted - stale && Lists(list, kept)
  {
    assert stale - {} == stale && noted.Keys - stale - {} == kept.Keys;
  }

  method Sift(noted: Seen, now: int, grace: int, ghost rest: set<string>, e: string, kept: Seen, list: seq<string>)
    returns (kept': Seen, list': seq<string>)
    requires e in rest && rest <= noted.Keys && Sorted(noted, Stale(noted, now, grace), rest, kept, list)
    ensures Sorted(noted, Stale(noted, now, grace), rest - {e}, kept', list')
  {
    ghost var stale := Stale(noted, now, grace);
    Visits(noted, stale, rest, e);
    if now - kept[e] < grace {
      Keeps(noted, stale, rest, kept, list, e);
      kept', list' := kept, list + [e];
    } else {
      Drops(noted, stale, rest, kept, list, e);
      kept', list' := kept - {e}, list;
    }
  }

  lemma {:induction false} NoneSorted(noted: Seen, stale: set<string>)
    ensures Sorted(noted, stale, noted.Keys, noted, [])
  {
    assert noted.Keys - stale - noted.Keys == {};
    assert noted - (stale - noted.Keys) == noted;
  }

  method DropStale(noted: Seen, now: int, grace: int) returns (kept: Seen, list: seq<string>)
    ensures kept == noted - Stale(noted, now, grace)
    ensures Lists(list, kept)
  {
    kept, list := noted, [];
    var rest := noted.Keys;
    NoneSorted(noted, Stale(noted, now, grace));
    while rest != {}
      invariant rest <= noted.Keys && Sorted(noted, Stale(noted, now, grace), rest, kept, list)
      decreases |rest|
    {
      var e := AnyOf(rest);
      kept, list := Sift(noted, now, grace, rest, e, kept, list);
      rest := rest - {e};
    }
    AllSorted(noted, Stale(noted, now, grace), kept, list);
  }

  /** Note the active names, then drop the stale ones and list the others. */
  method Refresh(seen: Seen, r: Report, grace: int) returns (kept: Seen, list: seq<string>)
    ensures kept == Refreshed(seen, r, grace)
    ensures Lists(list, kept)
  {
    var noted := Note(seen, r);
    kept, list := DropStale(noted, r.now, grace);
  }

  class Process {
    var localLastOnline: Seen
    var onlineClients: seq<string>
    var localInboundLastActive: Seen
    var localActiveInbounds: seq<string>

    constructor ()
      ensures localLastOnline == map[] && localInboundLastActive == map[]
    {
      localLastOnline, onlineClients, localInboundLastActive, localActiveInbounds := map[], [], map[], [];
    }

    method RefreshLocalOnline(activeEmails: seq<string>, activeInboundTags: seq<string>, now: int, graceMs: int)
      modifies this
      ensures localLastOnline == Refreshed(old(localLastOnline), Report(activeEmails, now), graceMs)
      ensures localInboundLastActive == Refreshed(old(localInboundLastActive), Report(activeInboundTags, now), graceMs)
      ensures Lists(onlineClients, localLastOnline) && Lists(localActiveInbounds, localInboundLastActive)
    {
      localLastOnline, onlineClients := Refresh(localLastOnline, Report(activeEmails, now), graceMs);
      localInboundLastActive, localActiveInbounds := Refresh(localInboundLastActive, Report(activeInboundTags, now), graceMs);
    }
  }
}
