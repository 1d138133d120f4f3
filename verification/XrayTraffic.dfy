/** Turning the core's cumulative counters into traffic since the previous poll: a baseline pass,
    deltas that survive restarts of the core, and baselines pruned when they outgrow the stats. */
module XrayTraffic {
  import opened Collections
  import opened Wrappers

  /** A counter name, taken apart: of an inbound or outbound, of a user, or of neither form. */
  datatype Name =
    | Link(inbound: bool, tag: string, down: bool)
    | User(email: string, down: bool)
    | Other(text: string)

  datatype Stat = Stat(name: Name, value: int)

  datatype Traffic = Traffic(isInbound: bool, isOutbound: bool, tag: string, up: int, down: int)

  datatype ClientTraffic = ClientTraffic(email: string, up: int, down: int)

  type Baselines = map<Name, int>

  // ---------------------------------------------------------------- one poll

  function Gain(last: Baselines, s: Stat): int {
    if s.name !in last || s.value < last[s.name] then s.value else s.value - last[s.name]
  }

  /** The table after the first `n` stats of a poll. */
  function Noted(last: Baselines, stats: seq<Stat>, n: nat): Baselines
    requires n <= |stats|
    decreases n
  {
    if n == 0 then last else Noted(last, stats, n - 1)[stats[n - 1].name := stats[n - 1].value]
  }

  /** What each stat is reported with; nothing on the first pass, over an empty table. */
  function Report(last: Baselines, stats: seq<Stat>): seq<Stat> {
    if |last| == 0 then []
    else seq(|stats|, i requires 0 <= i < |stats| => Stat(stats[i].name, Gain(Noted(last, stats, i), stats[i])))
  }

  function NamesOf(stats: seq<Stat>): set<Name>
    decreases |stats|
  {
    if stats == [] then {} else NamesOf(stats[..|stats| - 1]) + {stats[|stats| - 1].name}
  }

  function Pruned(last: Baselines, stats: seq<Stat>): Baselines {
    if |stats| > 0 && |last| > 2 * |stats| then map c | c in last && c in NamesOf(stats) :: last[c] else last
  }

  function Polled(last: Baselines, stats: seq<Stat>): Baselines {
    Pruned(Noted(last, stats, |stats|), stats)
  }

  function WithLink(m: map<string, Traffic>, s: Stat): map<string, Traffic> {
    if !s.name.Link? || s.name.tag == "api" then m
    else
      var tag := s.name.tag;
      var t := if tag in m then m[tag] else Traffic(s.name.inbound, !s.name.inbound, tag, 0, 0);
      m[tag := if s.name.down then t.(down := s.value) else t.(up := s.value)]
  }

  function Links(gains: seq<Stat>, n: nat): map<string, Traffic>
    requires n <= |gains|
    decreases n
  {
    if n == 0 then map[] else WithLink(Links(gains, n - 1), gains[n - 1])
  }

  function WithUser(m: map<string, ClientTraffic>, s: Stat): map<string, ClientTraffic> {
    if !s.name.User? then m
    else
      var email := s.name.email;
      var t := if email in m then m[email] else ClientTraffic(email, 0, 0);
      m[email := if s.name.down then t.(down := s.value) else t.(up := s.value)]
  }

  function Users(gains: seq<Stat>, n: nat): map<string, ClientTraffic>
    requires n <= |gains|
    decreases n
  {
    if n == 0 then map[] else WithUser(Users(gains, n - 1), gains[n - 1])
  }

  function AllLinks(gains: seq<Stat>): map<string, Traffic> {
    Links(gains, |gains|)
  }

  function AllUsers(gains: seq<Stat>): map<string, ClientTraffic> {
    Users(gains, |gains|)
  }

  // ---------------------------------------------------------------- the stateful object

  class XrayAPI {
    var statsLastValues: Baselines

    constructor ()
      ensures statsLastValues == map[]
    {
      statsLastValues := map[];
    }

    /** The new baseline, and how far the counter is from the one before. */
    method Note(stat: Stat) returns (gain: Stat)
      modifies this
      ensures statsLastValues == old(statsLastValues)[stat.name := stat.value]
      ensures gain == Stat(stat.name, Gain(old(statsLastValues), stat))
    {
      var seen := stat.name in statsLastValues;
      var lastValue := if seen then statsLastValues[stat.name] else 0;
      statsLastValues := statsLastValues[stat.name := stat.value];
      if !seen || stat.value < lastValue {
        lastValue := 0;
      }
      gain := Stat(stat.name, stat.value - lastValue);
    }

    /** One pass of the loop over a poll; on the baseline pass nothing is reported. */
    method Pass(stat: Stat, baselinePass: bool, links: map<string, Traffic>, users: map<string, ClientTraffic>)
      returns (links': map<string, Traffic>, users': map<string, ClientTraffic>)
      modifies this
      ensures statsLastValues == old(statsLastValues)[stat.name := stat.value]
      ensures baselinePass ==> links' == links && users' == users
      ensures !baselinePass ==>
        var gain := Stat(stat.name, Gain(old(statsLastValues), stat));
        links' == WithLink(links, gain) && users' == WithUser(users, gain)
    {
      var gain := Note(stat);
      if baselinePass {
        return links, users;
      }
      return WithLink(links, gain), WithUser(users, gain);
    }

    /** One poll; `resp` is None when the query fails. */
    method GetTraffic(resp: Option<seq<Stat>>)
      returns (links: map<string, Traffic>, users: map<string, ClientTraffic>, ok: bool)
      modifies this
      ensures ok == resp.Some?
      ensures !ok ==> statsLastValues == old(statsLastValues) && links == map[] && users == map[]
      ensures ok ==> statsLastValues == Polled(old(statsLastValues), resp.value)
      ensures ok ==> links == AllLinks(Report(old(statsLastValues), resp.value))
      ensures ok ==> users == AllUsers(Report(old(statsLastValues), resp.value))
    {
      links, users := map[], map[];
      if resp.None? {
        return links, users, false;
      }
      var stats := resp.value;
      ghost var last := statsLastValues;
      var baselinePass := |statsLastValues| == 0;
      TalliedNone(last, stats);
      for i := 0 to |stats|
        invariant Tallied(last, stats, i, statsLastValues, links, users)
      {
        ghost var table, was, wasUsers := statsLastValues, links, users;
        links, users := Pass(stats[i], baselinePass, links, users);
        TalliedOneMore(last, stats, i, table, was, wasUsers);
      }
      TalliedAll(last, stats, statsLastValues, links, users);
      Prune(stats);
      ok := true;
    }

    /** Drops baselines of vanished counters: a live counter keeps its baseline, none is changed,
        and once the table has outgrown the poll nothing but the live counters' is left. */
    method Prune(stats: seq<Stat>)
      requires NamesOf(stats) <= statsLastValues.Keys
      modifies this
      ensures statsLastValues == Pruned(old(statsLastValues), stats)
      ensures forall c | c in statsLastValues :: c in old(statsLastValues) && statsLastValues[c] == old(statsLastValues)[c]
      ensures forall c | c in NamesOf(stats) :: c in statsLastValues
      ensures stats != [] ==> |statsLastValues| <= 2 * |stats|
    {
      PrunedIsSmall(statsLastValues, stats);
      if |stats| > 0 && |statsLastValues| > 2 * |stats| {
        var pruned: Baselines := map[];
        for i := 0 to |stats|
          invariant statsLastValues == old(statsLastValues)
          invariant pruned.Keys == NamesOf(stats[..i])
          invariant forall c | c in pruned :: c in statsLastValues && pruned[c] == statsLastValues[c]
        {
          Named(stats, i);
          NamesSnoc(stats, i);
          pruned := pruned[stats[i].name := statsLastValues[stats[i].name]];
        }
        assert stats[..|stats|] == stats;
        assert pruned == Pruned(statsLastValues, stats);
        statsLastValues := pruned;
      }
    }
  }

  /** Where a poll stands after its first `n` stats. */
  ghost predicate Tallied(last: Baselines, stats: seq<Stat>, n: nat,
                          table: Baselines, links: map<string, Traffic>, users: map<string, ClientTraffic>)
  {
    && n <= |stats| && table == Noted(last, stats, n)
    && if |last| == 0 then links == map[] && users == map[]
       else links == Links(Report(last, stats), n) && users == Users(Report(last, stats), n)
  }

  lemma {:induction false} TalliedNone(last: Baselines, stats: seq<Stat>)
    ensures Tallied(last, stats, 0, last, map[], map[])
  {
  }

  lemma {:induction false} TalliedOneMore(last: Baselines, stats: seq<Stat>, n: nat,
                                          table: Baselines, links: map<string, Traffic>, users: map<string, ClientTraffic>)
    requires n < |stats| && Tallied(last, stats, n, table, links, users)
    ensures var s := stats[n];
      var gain := Stat(s.name, Gain(table, s));
      Tallied(last, stats, n + 1, table[s.name := s.value],
              if |last| == 0 then links else WithLink(links, gain), if |last| == 0 then users else WithUser(users, gain))
  {
    if |last| != 0 {
      assert Report(last, stats)[n] == Stat(stats[n].name, Gain(table, stats[n]));
    }
  }

  lemma {:induction false} TalliedAll(last: Baselines, stats: seq<Stat>,
                                      table: Baselines, links: map<string, Traffic>, users: map<string, ClientTraffic>)
    requires Tallied(last, stats, |stats|, table, links, users)
    ensures table == Noted(last, stats, |stats|) && NamesOf(stats) <= table.Keys
    ensures links == AllLinks(Report(last, stats)) && users == AllUsers(Report(last, stats))
  {
    NamesNoted(last, stats, |stats|);
    assert stats[..|stats|] == stats;
  }

  lemma {:induction false} NamesNoted(last: Baselines, stats: seq<Stat>, n: nat)
    requires n <= |stats|
    ensures NamesOf(stats[..n]) <= Noted(last, stats, n).Keys
    decreases n
  {
    if n > 0 {
      NamesNoted(last, stats, n - 1);
      NamesSnoc(stats, n - 1);
    }
  }

  lemma {:induction false} NamesSnoc(stats: seq<Stat>, i: nat)
    requires i < |stats|
    ensures NamesOf(stats[..i + 1]) == NamesOf(stats[..i]) + {stats[i].name}
  {
    assert stats[..i + 1][..i] == stats[..i];
  }

  // ---------------------------------------------------------------- one counter in one poll

  /** The counter is stat `k` of the poll, and no other stat. */
  ghost predicate Only(stats: seq<Stat>, k: nat, c: Name) {
    k < |stats| && forall i | 0 <= i < |stats| :: stats[i].name == c <==> i == k
  }

  lemma {:induction false} NotedIs(last: Baselines, stats: seq<Stat>, k: nat, c: Name, n: nat)
    requires Only(stats, k, c) && n <= |stats|
    ensures n <= k ==> (c in Noted(last, stats, n) <==> c in last)
    ensures n <= k && c in last ==> Noted(last, stats, n)[c] == last[c]
    ensures n > k ==> c in Noted(last, stats, n) && Noted(last, stats, n)[c] == stats[k].value
    decreases n
  {
    if n > 0 {
      NotedIs(last, stats, k, c, n - 1);
    }
  }

  /** A counter is reported against the baseline the poll began with. */
  lemma {:induction false} ReportIs(last: Baselines, stats: seq<Stat>, k: nat, c: Name)
    requires |last| != 0 && Only(stats, k, c)
    ensures Report(last, stats)[k] == Stat(c, Gain(last, stats[k]))
  {
    NotedIs(last, stats, k, c, k);
  }

  /** A counter in the poll has its value for a baseline afterwards, pruned or not. */
  lemma {:induction false} PolledIs(last: Baselines, stats: seq<Stat>, k: nat, c: Name)
    requires Only(stats, k, c)
    ensures c in Polled(last, stats) && Polled(last, stats)[c] == stats[k].value
  {
    NotedIs(last, stats, k, c, |stats|);
    Named(stats, k);
  }

  lemma {:induction false} FewNames(stats: seq<Stat>)
    ensures |NamesOf(stats)| <= |stats|
    decreases |stats|
  {
    if stats != [] {
      FewNames(stats[..|stats| - 1]);
    }
  }

  lemma {:induction false} Named(stats: seq<Stat>, k: nat)
    requires k < |stats|
    ensures stats[k].name in NamesOf(stats)
    decreases |stats|
  {
    if k < |stats| - 1 {
      Named(stats[..|stats| - 1], k);
    }
  }

  lemma {:induction false} Unnamed(stats: seq<Stat>, c: Name)
    requires forall i | 0 <= i < |stats| :: stats[i].name != c
    ensures c !in NamesOf(stats)
    decreases |stats|
  {
    if stats != [] {
      Unnamed(stats[..|stats| - 1], c);
    }
  }

  lemma {:induction false} PrunedIsSmall(table: Baselines, stats: seq<Stat>)
    ensures stats != [] ==> |Pruned(table, stats)| <= 2 * |stats|
  {
    if stats != [] && |table| > 2 * |stats| {
      FewNames(stats);
      SubsetSize(Pruned(table, stats).Keys, NamesOf(stats));
      assert |Pruned(table, stats)| == |Pruned(table, stats).Keys|;
    }
  }

  /** After a poll with stats in it the table holds at most twice as many baselines. */
  lemma {:induction false} TableIsBounded(last: Baselines, stats: seq<Stat>)
    requires stats != []
    ensures |Polled(last, stats)| <= 2 * |stats|
  {
    PrunedIsSmall(Noted(last, stats, |stats|), stats);
  }

  // ---------------------------------------------------------------- runs of polls

  /** The table after the first `n` polls. */
  function After(last: Baselines, polls: seq<seq<Stat>>, n: nat): Baselines
    requires n <= |polls|
    decreases n
  {
    if n == 0 then last else Polled(After(last, polls, n - 1), polls[n - 1])
  }

  /** The counter is stat `k` of the poll, no other stat, and has the value `v`. */
  ghost predicate Shows(stats: seq<Stat>, k: nat, c: Name, v: int) {
    Only(stats, k, c) && stats[k].value == v
  }

  /** Every poll shows the counter: poll i as its stat ks[i], with the value values[i]. */
  ghost predicate Present(polls: seq<seq<Stat>>, ks: seq<nat>, c: Name, values: seq<int>) {
    |ks| == |values| == |polls| && forall i | 0 <= i < |polls| :: ShowsAt(polls, ks, c, values, i)
  }

  ghost predicate ShowsAt(polls: seq<seq<Stat>>, ks: seq<nat>, c: Name, values: seq<int>, i: nat)
    requires i < |ks| == |values| == |polls|
  {
    Shows(polls[i], ks[i], c, values[i])
  }

  /** What a poll reports for its stat `k`; the first pass reports nothing. */
  function Amount(last: Baselines, stats: seq<Stat>, k: nat): int {
    if |last| == 0 || k >= |stats| then 0 else Gain(Noted(last, stats, k), stats[k])
  }

  lemma {:induction false} AmountIsReported(last: Baselines, stats: seq<Stat>, k: nat)
    requires k < |stats|
    ensures Amount(last, stats, k) == if |last| == 0 then 0 else Report(last, stats)[k].value
    ensures |last| == 0 <==> |Report(last, stats)| < |stats|
  {
  }

  /** What poll `i` of a run reports for its stat `k`. */
  function AmountAt(last: Baselines, polls: seq<seq<Stat>>, k: nat, i: nat): int
    requires i < |polls|
  {
    Amount(After(last, polls, i), polls[i], k)
  }

  /** The amounts a run of polls reports for a counter. */
  function Amounts(last: Baselines, polls: seq<seq<Stat>>, ks: seq<nat>): seq<int>
    requires |polls| == |ks|
  {
    seq(|polls|, i requires 0 <= i < |polls| => AmountAt(last, polls, ks[i], i))
  }

  function Sum(amounts: seq<int>, n: nat): int
    requires n <= |amounts|
    decreases n
  {
    if n == 0 then 0 else Sum(amounts, n - 1) + amounts[n - 1]
  }

  /** Everything reported for a counter over a run of polls. */
  function Reported(last: Baselines, polls: seq<seq<Stat>>, ks: seq<nat>): int
    requires |polls| == |ks|
  {
    Sum(Amounts(last, polls, ks), |polls|)
  }

  lemma {:induction false} NonEmpty(m: Baselines, c: Name)
    requires c in m
    ensures |m| != 0
  {
    assert c in m.Keys;
  }

  /** The amount is the growth from the poll before, counted from zero after a restart. */
  predicate Grows(was: int, now: int, amount: int) {
    if now < was then amount == now else amount == now - was
  }

  lemma {:induction false} AmountIs(m: Baselines, stats: seq<Stat>, k: nat, c: Name)
    requires Only(stats, k, c)
    ensures Amount(m, stats, k) == if |m| == 0 then 0 else Gain(m, stats[k])
  {
    NotedIs(m, stats, k, c, k);
  }

  /** A counter with a baseline is reported with its growth from it. */
  lemma {:induction false} AmountFrom(m: Baselines, stats: seq<Stat>, k: nat, c: Name, was: int)
    requires c in m && m[c] == was && Only(stats, k, c)
    ensures Grows(was, stats[k].value, Amount(m, stats, k))
  {
    NonEmpty(m, c);
    AmountIs(m, stats, k, c);
  }

  lemma {:induction false} AmountGrows(last: Baselines, polls: seq<seq<Stat>>, i: nat, j: nat, k: nat, c: Name, was: int, now: int)
    requires 0 < i < |polls| && Shows(polls[i - 1], j, c, was) && Shows(polls[i], k, c, now)
    ensures Grows(was, now, AmountAt(last, polls, k, i))
  {
    PolledIs(After(last, polls, i - 1), polls[i - 1], j, c);
    AmountFrom(After(last, polls, i), polls[i], k, c, was);
  }

  ghost predicate Ledger(amounts: seq<int>, values: seq<int>) {
    |amounts| == |values| && forall i | 0 < i < |amounts| :: Balanced(amounts, values, i)
  }

  predicate Balanced(amounts: seq<int>, values: seq<int>, i: nat)
    requires 0 < i < |amounts| == |values|
  {
    Grows(values[i - 1], values[i], amounts[i])
  }

  predicate Holds(s: seq<int>, i: nat, v: int) {
    i < |s| && s[i] == v
  }

  lemma {:induction false} EntryIs(last: Baselines, polls: seq<seq<Stat>>, ks: seq<nat>, i: nat)
    requires i < |polls| == |ks|
    ensures Holds(Amounts(last, polls, ks), i, AmountAt(last, polls, ks[i], i))
  {
  }

  lemma {:induction false} BalancedFrom(amounts: seq<int>, values: seq<int>, i: nat, amount: int)
    requires 0 < i < |amounts| == |values| && Grows(values[i - 1], values[i], amount)
    requires Holds(amounts, i, amount)
    ensures Balanced(amounts, values, i)
  {
  }

  lemma {:induction false} EntryBalances(last: Baselines, polls: seq<seq<Stat>>, ks: seq<nat>, values: seq<int>, i: nat, c: Name)
    requires 0 < i < |polls| == |ks| == |values|
    requires Shows(polls[i - 1], ks[i - 1], c, values[i - 1]) && Shows(polls[i], ks[i], c, values[i])
    ensures Balanced(Amounts(last, polls, ks), values, i)
  {
    AmountGrows(last, polls, i, ks[i - 1], ks[i], c, values[i - 1], values[i]);
    EntryIs(last, polls, ks, i);
    BalancedFrom(Amounts(last, polls, ks), values, i, AmountAt(last, polls, ks[i], i));
  }

  lemma {:induction false} LedgerOf(last: Baselines, polls: seq<seq<Stat>>, ks: seq<nat>, c: Name, values: seq<int>)
    requires Present(polls, ks, c, values)
    ensures Ledger(Amounts(last, polls, ks), values)
  {
    forall i | 0 < i < |polls|
      ensures Balanced(Amounts(last, polls, ks), values, i)
    {
      assert ShowsAt(polls, ks, c, values, i - 1) && ShowsAt(polls, ks, c, values, i);
      EntryBalances(last, polls, ks, values, i, c);
    }
  }

  lemma {:induction false} FirstPoll(last: Baselines, polls: seq<seq<Stat>>, ks: seq<nat>, c: Name, values: seq<int>, i: nat)
    requires i == 0 < |polls| && Present(polls, ks, c, values)
    ensures |last| == 0 ==> Amounts(last, polls, ks)[i] == 0
    ensures |last| != 0 && c !in last ==> Amounts(last, polls, ks)[i] == values[i]
  {
    assert ShowsAt(polls, ks, c, values, i);
    AmountIs(last, polls[i], ks[i], c);
    EntryIs(last, polls, ks, i);
  }

  ghost predicate NeverDecreases(values: seq<int>) {
    forall i | 0 < i < |values| :: Rises(values, i)
  }

  predicate Rises(values: seq<int>, i: nat)
    requires 0 < i < |values|
  {
    values[i - 1] <= values[i]
  }

  lemma {:induction false} LedgerGrows(amounts: seq<int>, values: seq<int>, n: nat)
    requires Ledger(amounts, values) && NeverDecreases(values) && 0 < n <= |amounts|
    ensures Sum(amounts, n) == amounts[0] + values[n - 1] - values[0]
    decreases n
  {
    if n > 1 {
      LedgerGrows(amounts, values, n - 1);
      assert Balanced(amounts, values, n - 1) && Rises(values, n - 1);
    }
  }

  /** A counter in every poll since the baseline pass that never decreases is reported exactly its
      growth since then. */
  lemma {:induction false} GrowthIsReported(last: Baselines, polls: seq<seq<Stat>>, ks: seq<nat>, c: Name, values: seq<int>)
    requires |last| == 0 && polls != [] && Present(polls, ks, c, values) && NeverDecreases(values)
    ensures Reported(last, polls, ks) == values[|polls| - 1] - values[0]
  {
    LedgerOf(last, polls, ks, c, values);
    FirstPoll(last, polls, ks, c, values, 0);
    LedgerGrows(Amounts(last, polls, ks), values, |polls|);
  }

  /** A counter that appears after the baseline pass is reported in full. */
  lemma {:induction false} NewcomerIsReported(last: Baselines, polls: seq<seq<Stat>>, ks: seq<nat>, c: Name, values: seq<int>)
    requires |last| != 0 && c !in last && polls != [] && Present(polls, ks, c, values) && NeverDecreases(values)
    ensures Reported(last, polls, ks) == values[|polls| - 1]
  {
    LedgerOf(last, polls, ks, c, values);
    FirstPoll(last, polls, ks, c, values, 0);
    LedgerGrows(Amounts(last, polls, ks), values, |polls|);
  }

  /** True totals behind the values: between two polls either the core kept counting and the total
      grew with the counter, or it restarted and moved at least what the counter shows since. */
  ghost predicate Truth(truth: seq<int>, values: seq<int>) {
    |truth| == |values| && forall i | 0 < i < |values| :: TrueAt(truth, values, i)
  }

  predicate TrueAt(truth: seq<int>, values: seq<int>, i: nat)
    requires 0 < i < |truth| == |values|
  {
    var moved := truth[i] - truth[i - 1];
    values[i - 1] >= 0 && (moved == values[i] - values[i - 1] >= 0 || moved >= values[i])
  }

  lemma {:induction false} LedgerIsHonest(amounts: seq<int>, values: seq<int>, truth: seq<int>, n: nat)
    requires Ledger(amounts, values) && Truth(truth, values) && 0 < n <= |amounts| && amounts[0] == 0
    ensures Sum(amounts, n) <= truth[n - 1] - truth[0]
    decreases n
  {
    if n > 1 {
      LedgerIsHonest(amounts, values, truth, n - 1);
      assert Balanced(amounts, values, n - 1) && TrueAt(truth, values, n - 1);
    }
  }

  /** Across any restarts of the core a counter is never reported more than was moved. */
  lemma {:induction false} NeverMoreThanMoved(last: Baselines, polls: seq<seq<Stat>>, ks: seq<nat>, c: Name, values: seq<int>, truth: seq<int>)
    requires |last| == 0 && polls != [] && Present(polls, ks, c, values) && Truth(truth, values)
    ensures Reported(last, polls, ks) <= truth[|polls| - 1] - truth[0]
  {
    LedgerOf(last, polls, ks, c, values);
    FirstPoll(last, polls, ks, c, values, 0);
    LedgerIsHonest(Amounts(last, polls, ks), values, truth, |polls|);
  }

  // ---------------------------------------------------------------- pruning changes nothing

  /** The same polls without pruning. */
  function Unpruned(last: Baselines, polls: seq<seq<Stat>>, n: nat): Baselines
    requires n <= |polls|
    decreases n
  {
    if n == 0 then last else Noted(Unpruned(last, polls, n - 1), polls[n - 1], |polls[n - 1]|)
  }

  lemma {:induction false} SameReport(a: Baselines, b: Baselines, stats: seq<Stat>, k: nat, c: Name)
    requires c in a && c in b && a[c] == b[c] && Only(stats, k, c)
    ensures |Report(a, stats)| == |Report(b, stats)| == |stats| && Report(a, stats)[k] == Report(b, stats)[k]
  {
    NonEmpty(a, c);
    NonEmpty(b, c);
    ReportIs(a, stats, k, c);
    ReportIs(b, stats, k, c);
  }

  /** A counter seen in two polls in a row is reported the same whether or not the table is pruned. */
  lemma {:induction false} PruningIsInvisible(last: Baselines, polls: seq<seq<Stat>>, n: nat, j: nat, k: nat, c: Name)
    requires 0 < n < |polls| && Only(polls[n - 1], j, c) && Only(polls[n], k, c)
    ensures var a, b := Report(After(last, polls, n), polls[n]), Report(Unpruned(last, polls, n), polls[n]);
      |a| == |b| == |polls[n]| && a[k] == b[k]
  {
    PolledIs(After(last, polls, n - 1), polls[n - 1], j, c);
    NotedIs(Unpruned(last, polls, n - 1), polls[n - 1], j, c, |polls[n - 1]|);
    SameReport(After(last, polls, n), Unpruned(last, polls, n), polls[n], k, c);
  }

  // ---------------------------------------------------------------- counters that come and go

  ghost predicate Absent(stats: seq<Stat>, c: Name) {
    forall i | 0 <= i < |stats| :: stats[i].name != c
  }

  /** The poll outgrows its stats, so baselines of absent counters are dropped. */
  predicate Prunes(last: Baselines, stats: seq<Stat>) {
    |stats| > 0 && |Noted(last, stats, |stats|)| > 2 * |stats|
  }

  lemma {:induction false} NotedWithout(last: Baselines, stats: seq<Stat>, c: Name, n: nat)
    requires Absent(stats, c) && n <= |stats|
    ensures c in Noted(last, stats, n) <==> c in last
    ensures c in last ==> Noted(last, stats, n)[c] == last[c]
    decreases n
  {
    if n > 0 {
      NotedWithout(last, stats, c, n - 1);
    }
  }

  /** A poll without the counter forgets its baseline exactly when it prunes. */
  lemma {:induction false} AbsentPoll(last: Baselines, stats: seq<Stat>, c: Name)
    requires Absent(stats, c)
    ensures c in Polled(last, stats) <==> c in last && !Prunes(last, stats)
    ensures c in Polled(last, stats) ==> Polled(last, stats)[c] == last[c]
    ensures |last| != 0 ==> |Polled(last, stats)| != 0
  {
    NotedWithout(last, stats, c, |stats|);
    Unnamed(stats, c);
    if |last| != 0 {
      StaysFilled(last, stats);
    }
  }

  lemma {:induction false} NotedStaysFilled(last: Baselines, stats: seq<Stat>, n: nat)
    requires |last| != 0 && n <= |stats|
    ensures |Noted(last, stats, n)| != 0
    decreases n
  {
    if n > 0 {
      NonEmpty(Noted(last, stats, n), stats[n - 1].name);
    }
  }

  lemma {:induction false} StaysFilled(last: Baselines, stats: seq<Stat>)
    requires |last| != 0
    ensures |Polled(last, stats)| != 0
  {
    var n := |stats|;
    NotedStaysFilled(last, stats, n);
    if Prunes(last, stats) {
      Named(stats, n - 1);
      assert stats[n - 1].name in Noted(last, stats, n);
      NonEmpty(Polled(last, stats), stats[n - 1].name);
    }
  }

  /** Some poll strictly between polls `m` and `n` prunes. */
  predicate PrunedBetween(last: Baselines, polls: seq<seq<Stat>>, m: nat, n: nat)
    requires m < n <= |polls|
    decreases n
  {
    n > m + 1 && (Prunes(After(last, polls, n - 1), polls[n - 1]) || PrunedBetween(last, polls, m, n - 1))
  }

  /** No poll strictly between polls `m` and `n` shows the counter. */
  ghost predicate AwayBetween(polls: seq<seq<Stat>>, m: nat, n: nat, c: Name)
    requires m < n <= |polls|
    decreases n
  {
    n > m + 1 ==> Absent(polls[n - 1], c) && AwayBetween(polls, m, n - 1, c)
  }

  predicate Remembers(table: Baselines, c: Name, v: int, forgotten: bool) {
    |table| != 0 && if forgotten then c !in table else c in table && table[c] == v
  }

  lemma {:induction false} AwayShorter(polls: seq<seq<Stat>>, m: nat, n: nat, c: Name)
    requires m + 1 < n <= |polls| && AwayBetween(polls, m, n, c)
    ensures Absent(polls[n - 1], c) && AwayBetween(polls, m, n - 1, c)
  {
  }

  lemma {:induction false} ShownIsRemembered(table: Baselines, stats: seq<Stat>, j: nat, c: Name)
    requires Only(stats, j, c)
    ensures Remembers(Polled(table, stats), c, stats[j].value, false)
  {
    PolledIs(table, stats, j, c);
    NonEmpty(Polled(table, stats), c);
  }

  lemma {:induction false} AbsentIsRemembered(table: Baselines, stats: seq<Stat>, c: Name, v: int, forgotten: bool)
    requires Absent(stats, c) && Remembers(table, c, v, forgotten)
    ensures Remembers(Polled(table, stats), c, v, Prunes(table, stats) || forgotten)
  {
    AbsentPoll(table, stats, c);
  }

  /** The table before poll `n` knows of a counter last seen with `v` in poll `m` unless it forgot. */
  ghost predicate Recalls(last: Baselines, polls: seq<seq<Stat>>, m: nat, n: nat, c: Name, v: int)
    requires m < n <= |polls|
  {
    Remembers(After(last, polls, n), c, v, PrunedBetween(last, polls, m, n))
  }

  lemma {:induction false} RecallsOn(last: Baselines, polls: seq<seq<Stat>>, m: nat, n: nat, c: Name, v: int)
    requires m + 1 < n <= |polls| && Absent(polls[n - 1], c) && Recalls(last, polls, m, n - 1, c, v)
    ensures Recalls(last, polls, m, n, c, v)
  {
    var before, gone := After(last, polls, n - 1), PrunedBetween(last, polls, m, n - 1);
    AbsentIsRemembered(before, polls[n - 1], c, v, gone);
  }

  lemma {:induction false} RecallsFirst(last: Baselines, polls: seq<seq<Stat>>, m: nat, j: nat, c: Name)
    requires m < |polls| && Only(polls[m], j, c)
    ensures Recalls(last, polls, m, m + 1, c, polls[m][j].value)
  {
    ShownIsRemembered(After(last, polls, m), polls[m], j, c);
  }

  /** After an absence the baseline is still there exactly when no poll of the absence pruned. */
  lemma {:induction false} Remembered(last: Baselines, polls: seq<seq<Stat>>, m: nat, j: nat, n: nat, c: Name)
    requires m < n <= |polls| && Only(polls[m], j, c) && AwayBetween(polls, m, n, c)
    ensures Recalls(last, polls, m, n, c, polls[m][j].value)
    decreases n
  {
    if n == m + 1 {
      RecallsFirst(last, polls, m, j, c);
    } else {
      AwayShorter(polls, m, n, c);
      Remembered(last, polls, m, j, n - 1, c);
      RecallsOn(last, polls, m, n, c, polls[m][j].value);
    }
  }

  /** A counter back after an absence is reported in full if a poll pruned meanwhile. Its amount is
      its growth since it was last seen exactly when none did, or it had shown nothing, or it had
      restarted: otherwise everything it had shown before is reported once more. */
  lemma {:induction false} ReturnIsReported(last: Baselines, polls: seq<seq<Stat>>, m: nat, j: nat, n: nat, k: nat, c: Name)
    requires m < n < |polls| && Only(polls[m], j, c) && Only(polls[n], k, c) && AwayBetween(polls, m, n, c)
    ensures var was, now, amount := polls[m][j].value, polls[n][k].value, AmountAt(last, polls, k, n);
      && (PrunedBetween(last, polls, m, n) ==> amount == now)
      && (Grows(was, now, amount) <==> !PrunedBetween(last, polls, m, n) || was == 0 || now < was)
  {
    Remembered(last, polls, m, j, n, c);
    AmountIs(After(last, polls, n), polls[n], k, c);
  }

  /** The polls that show the counter: poll ps[i] as its stat ks[i], with the value values[i]. */
  ghost predicate Visits(polls: seq<seq<Stat>>, ps: seq<nat>, ks: seq<nat>, c: Name, values: seq<int>) {
    && |ps| == |ks| == |values|
    && (forall i | 0 <= i < |ps| :: VisitsAt(polls, ps[i], ks[i], c, values[i]))
    && (forall i | 0 < i < |ps| :: AwayFrom(polls, ps, i, c))
  }

  ghost predicate VisitsAt(polls: seq<seq<Stat>>, p: nat, k: nat, c: Name, v: int) {
    p < |polls| && Shows(polls[p], k, c, v)
  }

  ghost predicate AwayFrom(polls: seq<seq<Stat>>, ps: seq<nat>, i: nat, c: Name)
    requires 0 < i < |ps|
  {
    ps[i - 1] < ps[i] < |polls| && AwayBetween(polls, ps[i - 1], ps[i], c)
  }

  /** What the table forgot of the counter before its visit `i` does no harm. */
  predicate Unforgotten(last: Baselines, polls: seq<seq<Stat>>, ps: seq<nat>, values: seq<int>, i: nat)
    requires 0 < i < |ps| == |values|
  {
    || values[i - 1] == 0 || values[i] < values[i - 1]
    || (ps[i - 1] < ps[i] < |polls| && !PrunedBetween(last, polls, ps[i - 1], ps[i]))
  }

  function VisitAmount(last: Baselines, polls: seq<seq<Stat>>, p: nat, k: nat): int {
    if p < |polls| then AmountAt(last, polls, k, p) else 0
  }

  function VisitAmounts(last: Baselines, polls: seq<seq<Stat>>, ps: seq<nat>, ks: seq<nat>): seq<int>
    requires |ps| == |ks|
  {
    seq(|ps|, i requires 0 <= i < |ps| => VisitAmount(last, polls, ps[i], ks[i]))
  }

  lemma {:induction false} VisitBalances(last: Baselines, polls: seq<seq<Stat>>, ps: seq<nat>, ks: seq<nat>, c: Name, values: seq<int>, i: nat)
    requires Visits(polls, ps, ks, c, values) && 0 < i < |ps| && Unforgotten(last, polls, ps, values, i)
    ensures Balanced(VisitAmounts(last, polls, ps, ks), values, i)
  {
    assert VisitsAt(polls, ps[i - 1], ks[i - 1], c, values[i - 1]) && VisitsAt(polls, ps[i], ks[i], c, values[i]);
    assert AwayFrom(polls, ps, i, c);
    ReturnIsReported(last, polls, ps[i - 1], ks[i - 1], ps[i], ks[i], c);
    var amounts := VisitAmounts(last, polls, ps, ks);
    assert Holds(amounts, i, VisitAmount(last, polls, ps[i], ks[i]));
    BalancedFrom(amounts, values, i, VisitAmount(last, polls, ps[i], ks[i]));
  }

  ghost predicate NothingForgotten(last: Baselines, polls: seq<seq<Stat>>, ps: seq<nat>, values: seq<int>) {
    |ps| == |values| && forall i | 0 < i < |ps| :: Unforgotten(last, polls, ps, values, i)
  }

  lemma {:induction false} VisitLedger(last: Baselines, polls: seq<seq<Stat>>, ps: seq<nat>, ks: seq<nat>, c: Name, values: seq<int>)
    requires Visits(polls, ps, ks, c, values) && NothingForgotten(last, polls, ps, values)
    ensures Ledger(VisitAmounts(last, polls, ps, ks), values)
  {
    forall i | 0 < i < |ps|
      ensures Balanced(VisitAmounts(last, polls, ps, ks), values, i)
    {
      assert Unforgotten(last, polls, ps, values, i);
      VisitBalances(last, polls, ps, ks, c, values, i);
    }
  }

  lemma {:induction false} FirstVisit(last: Baselines, polls: seq<seq<Stat>>, ps: seq<nat>, ks: seq<nat>)
    requires |last| == 0 && |ps| == |ks| != 0 && ps[0] == 0
    ensures VisitAmounts(last, polls, ps, ks)[0] == 0
  {
  }

  /** A counter that comes and goes is not reported more than was moved either, as long as the table
      is not pruned while it is away with something shown. */
  lemma {:induction false} NeverMoreDespiteGaps(last: Baselines, polls: seq<seq<Stat>>, ps: seq<nat>, ks: seq<nat>, c: Name,
                                                values: seq<int>, truth: seq<int>)
    requires |last| == 0 && ps != [] && ps[0] == 0 && Visits(polls, ps, ks, c, values) && Truth(truth, values)
    requires NothingForgotten(last, polls, ps, values)
    ensures Sum(VisitAmounts(last, polls, ps, ks), |ps|) <= truth[|ps| - 1] - truth[0]
  {
    VisitLedger(last, polls, ps, ks, c, values);
    FirstVisit(last, polls, ps, ks);
    LedgerIsHonest(VisitAmounts(last, polls, ps, ks), values, truth, |ps|);
  }

  /** Counters a, b and c, then b alone, which prunes the table, then a back at its old value. */
  function ThreePolls(a: Name, b: Name, c: Name): seq<seq<Stat>> {
    [[Stat(a, 10), Stat(b, 0), Stat(c, 0)], [Stat(b, 0)], [Stat(a, 10)]]
  }

  lemma {:induction false} SecondPollPrunes(a: Name, b: Name, c: Name)
    requires a != b && b != c && a != c
    ensures PrunedBetween(map[], ThreePolls(a, b, c), 0, 2)
  {
    var polls := ThreePolls(a, b, c);
    FirstTable(a, b, c, 10);
    assert After(map[], polls, 1) == Polled(After(map[], polls, 0), polls[0]);
    Outgrown(After(map[], polls, 1), polls[1], {a, b, c});
    assert Prunes(After(map[], polls, 1), polls[1]);
  }

  /** Nothing moved, and all of it is reported once more. */
  lemma {:induction false} ReturnIsBilledAgain(a: Name, b: Name, c: Name)
    requires a != b && b != c && a != c
    ensures AmountAt(map[], ThreePolls(a, b, c), 0, 2) == 10
  {
    var polls := ThreePolls(a, b, c);
    SecondPollPrunes(a, b, c);
    assert AwayBetween(polls, 0, 1, a);
    ReturnIsReported(map[], polls, 0, 0, 2, 0, a);
  }

  lemma {:induction false} Outgrown(table: Baselines, stats: seq<Stat>, names: set<Name>)
    requires |stats| == 1 && stats[0].name in table && table.Keys == names && |names| > 2
    ensures Prunes(table, stats)
  {
    assert Noted(table, stats, 1) == Noted(table, stats, 0)[stats[0].name := stats[0].value];
    assert Noted(table, stats, 1).Keys == names;
  }

  lemma {:induction false} FirstTable(a: Name, b: Name, c: Name, v: int)
    requires a != b && b != c && a != c
    ensures Polled(map[], [Stat(a, v), Stat(b, 0), Stat(c, 0)]) == map[a := v, b := 0, c := 0]
  {
    var stats := [Stat(a, v), Stat(b, 0), Stat(c, 0)];
    assert Noted(map[], stats, 1) == map[a := v];
    assert Noted(map[], stats, 2) == map[a := v, b := 0];
    assert Noted(map[], stats, 3) == map[a := v, b := 0, c := 0];
    assert Noted(map[], stats, 3).Keys == {a, b, c};
  }

  // ---------------------------------------------------------------- tags shared by both sides

  predicate Counted(n: Name) {
    n.Link? && n.tag != "api"
  }

  /** The amount stands under the tag, in its direction, in a record of its own side: consumers
      tell inbounds from outbounds by the record's flags. */
  predicate ReportedOn(m: map<string, Traffic>, n: Name, v: int)
    requires n.Link?
  {
    && n.tag in m && m[n.tag].isInbound == n.inbound && m[n.tag].isOutbound == !n.inbound
    && (if n.down then m[n.tag].down else m[n.tag].up) == v
  }

  /** No tag but "api" is used by an inbound and by an outbound. */
  ghost predicate SidesApart(gains: seq<Stat>) {
    forall i, j | 0 <= i < |gains| && 0 <= j < |gains| && Counted(gains[i].name) && Counted(gains[j].name) ::
      gains[i].name.tag == gains[j].name.tag ==> gains[i].name.inbound == gains[j].name.inbound
  }

  /** A counter listed twice shows the same amount. */
  ghost predicate RepeatsAgree(gains: seq<Stat>) {
    forall i, j | 0 <= i < |gains| && 0 <= j < |gains| && Counted(gains[i].name) ::
      gains[i].name == gains[j].name ==> gains[i].value == gains[j].value
  }

  ghost predicate EachReported(gains: seq<Stat>) {
    forall i | 0 <= i < |gains| && Counted(gains[i].name) :: ReportedOn(AllLinks(gains), gains[i].name, gains[i].value)
  }

  /** The first stat of a tag decides the side of its record for good. */
  lemma {:induction false} FirstDecidesSide(gains: seq<Stat>, n: nat, tag: string) returns (f: nat)
    requires n <= |gains| && tag in Links(gains, n)
    ensures f < n && Counted(gains[f].name) && gains[f].name.tag == tag
    ensures Links(gains, n)[tag].isInbound == gains[f].name.inbound
    ensures Links(gains, n)[tag].isOutbound == !gains[f].name.inbound
    decreases n
  {
    if tag in Links(gains, n - 1) {
      f := FirstDecidesSide(gains, n - 1, tag);
    } else {
      f := n - 1;
    }
  }

  function Shown(t: Traffic, down: bool): int {
    if down then t.down else t.up
  }

  /** The last stat of a tag and a direction fills the place, whatever its side. */
  lemma {:induction false} LastFillsPlace(gains: seq<Stat>, n: nat, k: nat) returns (l: nat)
    requires k < n <= |gains| && Counted(gains[k].name)
    ensures k <= l < n && Counted(gains[l].name)
    ensures gains[l].name.tag == gains[k].name.tag && gains[l].name.down == gains[k].name.down
    ensures gains[k].name.tag in Links(gains, n)
    ensures Shown(Links(gains, n)[gains[k].name.tag], gains[k].name.down) == gains[l].value
    decreases n
  {
    var s := gains[n - 1];
    if Counted(s.name) && s.name.tag == gains[k].name.tag && s.name.down == gains[k].name.down {
      l := n - 1;
    } else {
      l := LastFillsPlace(gains, n - 1, k);
    }
  }

  lemma {:induction false} ApartIsReported(gains: seq<Stat>, k: nat)
    requires SidesApart(gains) && RepeatsAgree(gains) && k < |gains| && Counted(gains[k].name)
    ensures ReportedOn(AllLinks(gains), gains[k].name, gains[k].value)
  {
    var l := LastFillsPlace(gains, |gains|, k);
    var f := FirstDecidesSide(gains, |gains|, gains[k].name.tag);
    assert gains[l].name == gains[k].name;
  }

  /** Every inbound and outbound amount is reported on its own side exactly when no tag is used on
      both sides and counters listed twice agree. */
  lemma {:induction false} EveryLinkIsReported(gains: seq<Stat>)
    ensures EachReported(gains) <==> SidesApart(gains) && RepeatsAgree(gains)
  {
    if SidesApart(gains) && RepeatsAgree(gains) {
      forall i | 0 <= i < |gains| && Counted(gains[i].name)
        ensures ReportedOn(AllLinks(gains), gains[i].name, gains[i].value)
      {
        ApartIsReported(gains, i);
      }
    }
  }

  ghost predicate SameNames(a: seq<Stat>, b: seq<Stat>) {
    |a| == |b| && forall i | 0 <= i < |a| :: a[i].name == b[i].name
  }

  ghost predicate NamesOnce(stats: seq<Stat>) {
    forall i, j | 0 <= i < j < |stats| :: stats[i].name != stats[j].name
  }

  lemma {:induction false} ReportNames(last: Baselines, stats: seq<Stat>)
    requires |last| != 0
    ensures SameNames(Report(last, stats), stats) && SameNames(stats, Report(last, stats))
  {
  }

  lemma {:induction false} OnceAgree(gains: seq<Stat>, stats: seq<Stat>)
    requires SameNames(gains, stats) && NamesOnce(stats)
    ensures RepeatsAgree(gains)
  {
    forall i, j | 0 <= i < |gains| && 0 <= j < |gains| && Counted(gains[i].name)
      ensures gains[i].name == gains[j].name ==> gains[i].value == gains[j].value
    {
      assert gains[i].name == stats[i].name && gains[j].name == stats[j].name;
    }
  }

  lemma {:induction false} SameNamesApart(a: seq<Stat>, b: seq<Stat>)
    requires SameNames(a, b) && SidesApart(b)
    ensures SidesApart(a)
  {
    forall i, j | 0 <= i < |a| && 0 <= j < |a| && Counted(a[i].name) && Counted(a[j].name)
      ensures a[i].name.tag == a[j].name.tag ==> a[i].name.inbound == a[j].name.inbound
    {
      assert a[i].name == b[i].name && a[j].name == b[j].name;
    }
  }

  /** A poll of distinct counters after the baseline pass reports every amount on its own side
      exactly when none of its counters share a tag across the sides: the names decide, before any
      amount is known. */
  lemma {:induction false} SeparateTagsSuffice(last: Baselines, stats: seq<Stat>)
    requires |last| != 0 && NamesOnce(stats)
    ensures EachReported(Report(last, stats)) <==> SidesApart(stats)
  {
    var gains := Report(last, stats);
    ReportNames(last, stats);
    OnceAgree(gains, stats);
    EveryLinkIsReported(gains);
    if SidesApart(stats) {
      SameNamesApart(gains, stats);
    }
    if SidesApart(gains) {
      SameNamesApart(stats, gains);
    }
  }

  function UserSlot(m: map<string, ClientTraffic>, n: Name): Option<int>
    requires n.User?
  {
    if n.email !in m then None else Some(if n.down then m[n.email].down else m[n.email].up)
  }

  /** Every user counter is reported. */
  lemma {:induction false} EveryUserIsReported(gains: seq<Stat>, k: nat, c: Name, n: nat)
    requires Only(gains, k, c) && c.User? && k < n <= |gains|
    ensures UserSlot(Users(gains, n), c) == Some(gains[k].value)
    decreases n
  {
    if k < n - 1 {
      EveryUserIsReported(gains, k, c, n - 1);
    }
  }

  ghost predicate LinkShows(gains: seq<Stat>, n: nat, tag: string, down: bool, v: int)
    requires n <= |gains|
  {
    exists k | 0 <= k < n :: gains[k].name.Link? && gains[k].name.tag == tag && gains[k].name.down == down && gains[k].value == v
  }

  /** No amount is reported that no counter of the tag showed, and nothing of the api inbound. */
  lemma {:induction false} NoOtherLinks(gains: seq<Stat>, n: nat, tag: string, down: bool)
    requires n <= |gains| && tag in Links(gains, n)
    ensures tag != "api" && Links(gains, n)[tag].tag == tag
    ensures Shown(Links(gains, n)[tag], down) != 0 ==> LinkShows(gains, n, tag, down, Shown(Links(gains, n)[tag], down))
    decreases n
  {
    if tag in Links(gains, n - 1) {
      NoOtherLinks(gains, n - 1, tag, down);
    }
    var s, v := gains[n - 1], Shown(Links(gains, n)[tag], down);
    if Counted(s.name) && s.name.tag == tag && s.name.down == down {
      assert s.value == v;
    } else if v != 0 {
      var k :| 0 <= k < n - 1 && gains[k].name.Link? && gains[k].name.tag == tag && gains[k].name.down == down && gains[k].value == v;
      assert k < n;
    }
  }

  ghost predicate UserShows(gains: seq<Stat>, n: nat, email: string, down: bool, v: int)
    requires n <= |gains|
  {
    exists k | 0 <= k < n :: gains[k].name.User? && gains[k].name.email == email && gains[k].name.down == down && gains[k].value == v
  }

  /** Nor is any amount reported that no counter of the user showed. */
  lemma {:induction false} NoOtherUsers(gains: seq<Stat>, n: nat, email: string, down: bool)
    requires n <= |gains| && email in Users(gains, n)
    ensures Users(gains, n)[email].email == email
    ensures var v := if down then Users(gains, n)[email].down else Users(gains, n)[email].up;
      v != 0 ==> UserShows(gains, n, email, down, v)
    decreases n
  {
    if email in Users(gains, n - 1) {
      NoOtherUsers(gains, n - 1, email, down);
    }
    var s, v := gains[n - 1], if down then Users(gains, n)[email].down else Users(gains, n)[email].up;
    if s.name.User? && s.name.email == email && s.name.down == down {
      assert s.value == v;
    } else if v != 0 {
      var k :| 0 <= k < n - 1 && gains[k].name.User? && gains[k].name.email == email && gains[k].name.down == down && gains[k].value == v;
      assert k < n;
    }
  }

  /** An inbound and an outbound of one tag: what the inbound sent is lost. */
  lemma {:induction false} SharedTagLosesTraffic()
    ensures AllLinks([Stat(Link(true, "edge", false), 5), Stat(Link(false, "edge", false), 7)]) ==
      map["edge" := Traffic(true, false, "edge", 7, 0)]
  {
    var gains := [Stat(Link(true, "edge", false), 5), Stat(Link(false, "edge", false), 7)];
    assert Links(gains, 1) == WithLink(map[], gains[0]);
    assert Links(gains, 2) == WithLink(Links(gains, 1), gains[1]);
  }

  /** In different directions nothing is lost, but what the outbound received is credited to the
      inbound. */
  lemma {:induction false} SharedTagCreditsTheOther()
    ensures AllLinks([Stat(Link(true, "edge", false), 5), Stat(Link(false, "edge", true), 7)]) ==
      map["edge" := Traffic(true, false, "edge", 5, 7)]
  {
    var gains := [Stat(Link(true, "edge", false), 5), Stat(Link(false, "edge", true), 7)];
    assert Links(gains, 1) == WithLink(map[], gains[0]);
    assert Links(gains, 2) == WithLink(Links(gains, 1), gains[1]);
  }
}
