/** The hot reconfiguration planner: it compares two generated Xray configurations and lists the
    API operations that turn the running core from one into the other, or refuses. */
module HotDiff {
  import opened Wrappers
  import opened JsonModel

  datatype Inbound = Inbound(
    tag: string, port: int, protocol: string,
    listen: Raw, settings: Raw, stream: Raw, sniffing: Raw)

  /** The sections of a configuration, in the order of the Go struct. */
  datatype Config = Config(
    log: Raw, routing: Raw, dns: Raw, inbounds: seq<Inbound>, outbounds: Raw,
    transport: Raw, policy: Raw, api: Raw, stats: Raw, reverse: Raw, fakedns: Raw,
    observatory: Raw, burstObservatory: Raw, metrics: Raw, geodata: Raw, env: Raw)

  const EMPTY := Config(
    Absent, Absent, Absent, [], Absent, Absent, Absent, Absent,
    Absent, Absent, Absent, Absent, Absent, Absent, Absent, Absent)

  datatype Pair = Pair(name: string, was: Raw, now: Raw)

  /** The planner's table of the sections without a reload API. */
  function StaticTable(a: Config, b: Config): seq<Pair> {
    [ Pair("log", a.log, b.log),
      Pair("dns", a.dns, b.dns),
      Pair("transport", a.transport, b.transport),
      Pair("policy", a.policy, b.policy),
      Pair("api", a.api, b.api),
      Pair("stats", a.stats, b.stats),
      Pair("reverse", a.reverse, b.reverse),
      Pair("fakedns", a.fakedns, b.fakedns),
      Pair("observatory", a.observatory, b.observatory),
      Pair("burstObservatory", a.burstObservatory, b.burstObservatory),
      Pair("metrics", a.metrics, b.metrics),
      Pair("geodata", a.geodata, b.geodata),
      Pair("env", a.env, b.env) ]
  }

  /** What json.Marshal makes of an inbound; a null stands for an absent section. */
  datatype InboundDoc = InboundDoc(
    tag: string, port: int, protocol: string,
    listen: Json, settings: Json, stream: Json, sniffing: Json)

  function MarshalSection(raw: Raw): Option<Json> {
    if raw.Absent? then Some(Null) else Unmarshal(raw)
  }

  function MarshalInbound(ib: Inbound): Option<InboundDoc> {
    var listen :- MarshalSection(ib.listen);
    var settings :- MarshalSection(ib.settings);
    var stream :- MarshalSection(ib.stream);
    var sniffing :- MarshalSection(ib.sniffing);
    Some(InboundDoc(ib.tag, ib.port, ib.protocol, listen, settings, stream, sniffing))
  }

  datatype UserOp = UserOp(tag: string, protocol: string, email: string, user: Option<Json>)

  datatype OutboundEntry = OutboundEntry(tag: string, value: Json)

  /** The diff as a value: what one run of the planner has written down. */
  datatype Plan = Plan(
    removedInboundTags: seq<string>, addedInbounds: seq<InboundDoc>,
    removedUsers: seq<UserOp>, addedUsers: seq<UserOp>,
    removedOutboundTags: seq<string>, addedOutbounds: seq<Json>,
    routingConfig: Option<Raw>)

  // ---------------------------------------------------------------- reading a configuration

  predicate InboundUsesReality(ib: Inbound) {
    && Unmarshal(ib.stream).Some?
    && StringField(Unmarshal(ib.stream).value, "security") == Some("reality")
  }

  predicate ReverseClient(c: Json) {
    c.Obj? && "reverse" in c.fields && !c.fields["reverse"].Null?
  }

  predicate InboundHasReverseClient(ib: Inbound) {
    var settings := Unmarshal(ib.settings);
    && settings.Some? && settings.value.Obj?
    && "clients" in settings.value.fields && settings.value.fields["clients"].Arr?
    && var items := settings.value.fields["clients"].items;
      && (forall i | 0 <= i < |items| :: items[i].Null? || items[i].Obj?)
      && (exists i | 0 <= i < |items| :: ReverseClient(items[i]))
  }

  function ApiTagFromConfig(api: Raw): string {
    if Unmarshal(api).Some? then
      var tag := StringField(Unmarshal(api).value, "tag");
      if tag.Some? && tag.value != "" then tag.value else "api"
    else
      "api"
  }

  function ClientEmail(c: Json): string {
    if c.Obj? && "email" in c.fields && c.fields["email"].Str? then c.fields["email"].s else ""
  }

  /** Clients keyed by email, continuing from `done`; none when an item is no object, has no
      email, or repeats one. */
  function IndexClients(items: seq<Json>, done: map<string, Json>): Option<map<string, Json>> {
    if items == [] then Some(done)
    else
      var email := ClientEmail(items[0]);
      if email == "" || email in done then None
      else IndexClients(items[1..], done[email := items[0]])
  }

  datatype SplitSettings = SplitSettings(clients: map<string, Json>, rest: map<string, Json>)

  function SplitValue(v: Json): Option<SplitSettings> {
    if v.Obj? && "clients" in v.fields && v.fields["clients"].Arr? then
      var clients :- IndexClients(v.fields["clients"].items, map[]);
      Some(SplitSettings(clients, v.fields - {"clients"}))
    else
      None
  }

  function Split(raw: Raw): Option<SplitSettings> {
    var v :- Decode(raw);
    SplitValue(v)
  }

  function IndexInbounds(ibs: seq<Inbound>, done: map<string, Inbound>): Option<map<string, Inbound>> {
    if ibs == [] then Some(done)
    else if ibs[0].tag == "" || ibs[0].tag in done then None
    else IndexInbounds(ibs[1..], done[ibs[0].tag := ibs[0]])
  }

  /** Outbound elements in order, continuing from `done`; none when a tag is missing or repeated. */
  function ReadOutbounds(elems: seq<Json>, done: seq<OutboundEntry>): Option<seq<OutboundEntry>> {
    if elems == [] then Some(done)
    else
      var tag :- StringField(elems[0], "tag");
      if tag == "" || tag in Tags(done) then None
      else ReadOutbounds(elems[1..], done + [OutboundEntry(tag, elems[0])])
  }

  function Tags(entries: seq<OutboundEntry>): set<string> {
    set i | 0 <= i < |entries| :: entries[i].tag
  }

  function OutboundsOf(raw: Raw): Option<seq<OutboundEntry>> {
    if raw.Absent? then Some([])
    else
      var v :- Unmarshal(raw);
      match v
      case Null => Some([])
      case Arr(elems) => ReadOutbounds(elems, [])
      case _ => None
  }

  function ByTag(entries: seq<OutboundEntry>): map<string, Json> {
    if entries == [] then map[]
    else ByTag(entries[..|entries| - 1])[entries[|entries| - 1].tag := entries[|entries| - 1].value]
  }

  // ---------------------------------------------------------------- what the planner decides

  const DIFFABLE: set<string> := {"vless", "vmess", "trojan"}

  predicate InboundEqualNormalized(a: Inbound, b: Inbound) {
    && a.port == b.port && a.protocol == b.protocol && a.tag == b.tag
    && RawEqualNormalized(a.listen, b.listen)
    && RawEqualNormalized(a.settings, b.settings)
    && RawEqualNormalized(a.stream, b.stream)
    && RawEqualNormalized(a.sniffing, b.sniffing)
  }

  /** The two inbounds differ at most in an addressable list of clients. */
  predicate ClientsOnly(a: Inbound, b: Inbound) {
    && a.port == b.port && a.protocol == b.protocol && a.tag == b.tag
    && a.protocol in DIFFABLE
    && RawEqualNormalized(a.listen, b.listen)
    && RawEqualNormalized(a.stream, b.stream)
    && RawEqualNormalized(a.sniffing, b.sniffing)
    && Split(a.settings).Some? && Split(b.settings).Some?
    && Split(a.settings).value.rest == Split(b.settings).value.rest
  }

  /** Clients of `was` that `now` lacks or describes differently, as removals. */
  function GoneClients(tag: string, protocol: string, was: map<string, Json>, now: map<string, Json>): set<UserOp> {
    set e | e in was && !(e in now && was[e] == now[e]) :: UserOp(tag, protocol, e, None)
  }

  /** Clients of `now` that `was` lacks or describes differently, as additions. */
  function FreshClients(tag: string, protocol: string, was: map<string, Json>, now: map<string, Json>): set<UserOp> {
    set e | e in now && !(e in was && was[e] == now[e]) :: UserOp(tag, protocol, e, Some(now[e]))
  }

  function GoneOps(a: Inbound, b: Inbound): set<UserOp>
    requires ClientsOnly(a, b)
  {
    GoneClients(a.tag, a.protocol, Split(a.settings).value.clients, Split(b.settings).value.clients)
  }

  function FreshOps(a: Inbound, b: Inbound): set<UserOp>
    requires ClientsOnly(a, b)
  {
    FreshClients(a.tag, a.protocol, Split(a.settings).value.clients, Split(b.settings).value.clients)
  }

  /** What becomes of one inbound of the old configuration. */
  datatype Verdict = Keep | EditUsers | Replace | Drop | Refuse

  function Judge(a: Inbound, newByTag: map<string, Inbound>, apiTag: string): Verdict {
    var present := a.tag in newByTag;
    if present && InboundEqualNormalized(a, newByTag[a.tag]) then Keep
    else if a.tag == apiTag || a.tag == "api" then Refuse
    else if !present then Drop
    else
      var b := newByTag[a.tag];
      if InboundHasReverseClient(a) || InboundHasReverseClient(b) then Refuse
      else if ClientsOnly(a, b) then EditUsers
      else if InboundUsesReality(a) || InboundUsesReality(b) then Refuse
      else if MarshalInbound(b).None? then Refuse
      else Replace
  }

  predicate Addable(b: Inbound, apiTag: string) {
    b.tag != apiTag && b.tag != "api" && MarshalInbound(b).Some?
  }

  function RemovedTags(olds: seq<Inbound>, newByTag: map<string, Inbound>, apiTag: string): seq<string> {
    if olds == [] then []
    else
      var n := |olds| - 1;
      var v := Judge(olds[n], newByTag, apiTag);
      RemovedTags(olds[..n], newByTag, apiTag) + (if v.Replace? || v.Drop? then [olds[n].tag] else [])
  }

  function ReplacedDocs(olds: seq<Inbound>, newByTag: map<string, Inbound>, apiTag: string): seq<InboundDoc> {
    if olds == [] then []
    else
      var n := |olds| - 1;
      ReplacedDocs(olds[..n], newByTag, apiTag) +
      (if Judge(olds[n], newByTag, apiTag).Replace? then [MarshalInbound(newByTag[olds[n].tag]).value] else [])
  }

  function AddedDocs(news: seq<Inbound>, oldByTag: map<string, Inbound>, apiTag: string): seq<InboundDoc> {
    if news == [] then []
    else
      var n := |news| - 1;
      AddedDocs(news[..n], oldByTag, apiTag) +
      (if news[n].tag !in oldByTag && Addable(news[n], apiTag) then [MarshalInbound(news[n]).value] else [])
  }

  function AllGone(olds: seq<Inbound>, newByTag: map<string, Inbound>, apiTag: string): set<UserOp> {
    if olds == [] then {}
    else
      var n := |olds| - 1;
      AllGone(olds[..n], newByTag, apiTag) +
      (if Judge(olds[n], newByTag, apiTag).EditUsers? then GoneOps(olds[n], newByTag[olds[n].tag]) else {})
  }

  function AllFresh(olds: seq<Inbound>, newByTag: map<string, Inbound>, apiTag: string): set<UserOp> {
    if olds == [] then {}
    else
      var n := |olds| - 1;
      AllFresh(olds[..n], newByTag, apiTag) +
      (if Judge(olds[n], newByTag, apiTag).EditUsers? then FreshOps(olds[n], newByTag[olds[n].tag]) else {})
  }

  predicate NoneRefused(olds: seq<Inbound>, newByTag: map<string, Inbound>, apiTag: string) {
    forall i | 0 <= i < |olds| :: !Judge(olds[i], newByTag, apiTag).Refuse?
  }

  predicate NewOnesAddable(news: seq<Inbound>, oldByTag: map<string, Inbound>, apiTag: string) {
    forall i | 0 <= i < |news| :: news[i].tag in oldByTag || Addable(news[i], apiTag)
  }

  predicate InboundsReloadable(a: Config, b: Config) {
    var oldByTag, newByTag := IndexInbounds(a.inbounds, map[]), IndexInbounds(b.inbounds, map[]);
    var apiTag := ApiTagFromConfig(b.api);
    && oldByTag.Some? && newByTag.Some?
    && NoneRefused(a.inbounds, newByTag.value, apiTag)
    && NewOnesAddable(b.inbounds, oldByTag.value, apiTag)
  }

  predicate OutboundsReloadable(a: Config, b: Config) {
    var olds, news := OutboundsOf(a.outbounds), OutboundsOf(b.outbounds);
    && olds.Some? && news.Some?
    && (|olds.value| == 0 <==> |news.value| == 0)
    && (|olds.value| > 0 ==> olds.value[0] == news.value[0])
  }

  function RemovedOutbounds(olds: seq<OutboundEntry>, newByTag: map<string, Json>): seq<string> {
    if olds == [] then []
    else
      var n := |olds| - 1;
      RemovedOutbounds(olds[..n], newByTag) +
      (if olds[n].tag in newByTag && newByTag[olds[n].tag] == olds[n].value then [] else [olds[n].tag])
  }

  function ReplacedOutbounds(olds: seq<OutboundEntry>, newByTag: map<string, Json>): seq<Json> {
    if olds == [] then []
    else
      var n := |olds| - 1;
      ReplacedOutbounds(olds[..n], newByTag) +
      (if olds[n].tag in newByTag && newByTag[olds[n].tag] != olds[n].value then [newByTag[olds[n].tag]] else [])
  }

  function NewOutbounds(news: seq<OutboundEntry>, oldByTag: map<string, Json>): seq<Json> {
    if news == [] then []
    else
      var n := |news| - 1;
      NewOutbounds(news[..n], oldByTag) + (if news[n].tag in oldByTag then [] else [news[n].value])
  }

  /** The routing section without the keys that can be replaced at run time. */
  function RoutingWithoutReloadable(raw: Raw): Option<Json> {
    if raw.Absent? then Some(Obj(map[]))
    else
      var v :- Decode(raw);
      match v
      case Null => Some(Null)
      case Obj(fields) => Some(Obj(fields - {"rules", "balancers"}))
      case _ => None
  }

  predicate RoutingReloadable(a: Config, b: Config) {
    || a.routing == b.routing
    || (&& !a.routing.Absent? && !b.routing.Absent?
        && RoutingWithoutReloadable(a.routing).Some?
        && RoutingWithoutReloadable(a.routing) == RoutingWithoutReloadable(b.routing))
  }

  predicate StaticUnchanged(a: Config, b: Config) {
    AllEqual(StaticTable(a, b))
  }

  predicate AllEqual(table: seq<Pair>) {
    forall i | 0 <= i < |table| :: RawEqualNormalized(table[i].was, table[i].now)
  }

  /** Exactly when the planner accepts. */
  predicate HotReloadable(a: Config, b: Config) {
    StaticUnchanged(a, b) && InboundsReloadable(a, b) && OutboundsReloadable(a, b) && RoutingReloadable(a, b)
  }

  /** What an accepted diff contains. The user lists come out of Go map iteration, so only their
      contents are fixed; the other lists follow the order of the configurations. */
  ghost predicate Planned(a: Config, b: Config, plan: Plan)
    requires HotReloadable(a, b)
  {
    var oldByTag, newByTag := IndexInbounds(a.inbounds, map[]).value, IndexInbounds(b.inbounds, map[]).value;
    var apiTag := ApiTagFromConfig(b.api);
    var olds, news := OutboundsOf(a.outbounds).value, OutboundsOf(b.outbounds).value;
    && plan.removedInboundTags == RemovedTags(a.inbounds, newByTag, apiTag)
    && plan.addedInbounds ==
         ReplacedDocs(a.inbounds, newByTag, apiTag) + AddedDocs(b.inbounds, oldByTag, apiTag)
    && Lists(plan.removedUsers, AllGone(a.inbounds, newByTag, apiTag))
    && Lists(plan.addedUsers, AllFresh(a.inbounds, newByTag, apiTag))
    && plan.removedOutboundTags == RemovedOutbounds(olds, ByTag(news))
    && plan.addedOutbounds == ReplacedOutbounds(olds, ByTag(news)) + NewOutbounds(news, ByTag(olds))
    && plan.routingConfig == (if a.routing == b.routing then None else Some(b.routing))
  }

  /** `s` names every element of `items` once, in some order. */
  ghost predicate Lists<T(!new)>(s: seq<T>, items: set<T>) {
    && (forall x :: x in s <==> x in items)
    && Distinct(s)
  }

  ghost predicate Distinct<T(!new)>(s: seq<T>) {
    forall i, j | 0 <= i < j < |s| :: s[i] != s[j]
  }

  lemma {:induction false} DistinctSnoc<T(!new)>(s: seq<T>, x: T)
    requires Distinct(s) && x !in s
    ensures Distinct(s + [x])
  {
  }

  lemma {:induction false} DistinctRest<T(!new)>(s: seq<T>)
    requires Distinct(s) && s != []
    ensures Distinct(s[1..]) && s[0] !in s[1..]
  {
  }

  /** What is known of `s + t` when both list their elements and share none. */
  lemma {:induction false} ListsConcat<T(!new)>(s: seq<T>, a: set<T>, t: seq<T>, b: set<T>)
    requires Lists(s, a) && Lists(t, b) && a !! b
    ensures Lists(s + t, a + b)
  {
    forall i, j | 0 <= i < j < |s + t| ensures (s + t)[i] != (s + t)[j] {
      if i < |s| <= j {
        assert s[i] in a && t[j - |s|] in b;
      }
    }
  }

  lemma {:induction false} ListsSnoc<T(!new)>(s: seq<T>, items: set<T>, x: T)
    requires Lists(s, items) && x !in items
    ensures Lists(s + [x], items + {x})
  {
  }

  // ---------------------------------------------------------------- the planner's own loops

  method InboundsByTag(inbounds: seq<Inbound>) returns (byTag: Option<map<string, Inbound>>)
    ensures byTag == IndexInbounds(inbounds, map[])
  {
    var done := map[];
    for i := 0 to |inbounds|
      invariant IndexInbounds(inbounds, map[]) == IndexInbounds(inbounds[i..], done)
    {
      var tag := inbounds[i].tag;
      assert inbounds[i..][1..] == inbounds[i + 1..];
      if tag == "" || tag in done {
        return None;
      }
      done := done[tag := inbounds[i]];
    }
    return Some(done);
  }

  method SplitSettingsClients(raw: Raw) returns (split: Option<SplitSettings>)
    ensures split == Split(raw)
  {
    var settings := Decode(raw);
    if settings.None? || !settings.value.Obj? {
      return None;
    }
    var fields := settings.value.fields;
    if "clients" !in fields || !fields["clients"].Arr? {
      return None;
    }
    var items := fields["clients"].items;
    var clients := map[];
    for i := 0 to |items|
      invariant IndexClients(items, map[]) == IndexClients(items[i..], clients)
    {
      var email := ClientEmail(items[i]);
      assert items[i..][1..] == items[i + 1..];
      if email == "" || email in clients {
        return None;
      }
      clients := clients[email := items[i]];
    }
    return Some(SplitSettings(clients, fields - {"clients"}));
  }

  method ParseOutbounds(raw: Raw) returns (entries: Option<seq<OutboundEntry>>)
    ensures entries == OutboundsOf(raw)
  {
    if raw.Absent? {
      return Some([]);
    }
    var v := Unmarshal(raw);
    if v.None? || !(v.value.Null? || v.value.Arr?) {
      return None;
    }
    var elems := if v.value.Null? then [] else v.value.items;
    var out: seq<OutboundEntry> := [];
    var seen: set<string> := {};
    for i := 0 to |elems|
      invariant ReadOutbounds(elems, []) == ReadOutbounds(elems[i..], out)
      invariant seen == Tags(out)
    {
      var tag := StringField(elems[i], "tag");
      assert elems[i..][1..] == elems[i + 1..];
      if tag.None? || tag.value == "" || tag.value in seen {
        return None;
      }
      var grown := out + [OutboundEntry(tag.value, elems[i])];
      assert forall k | 0 <= k < |out| :: grown[k] == out[k];
      assert Tags(grown) == seen + {tag.value} by {
        assert grown[|out|].tag == tag.value;
        assert forall k | 0 <= k < |out| :: out[k].tag == grown[k].tag;
      }
      seen := seen + {tag.value};
      out := grown;
    }
    return Some(out);
  }

  /** An index holds exactly the inbounds, under pairwise distinct tags. */
  lemma {:induction false} IndexedInbounds(ibs: seq<Inbound>, done: map<string, Inbound>)
    requires IndexInbounds(ibs, done).Some?
    ensures var m := IndexInbounds(ibs, done).value;
      && (forall i | 0 <= i < |ibs| :: ibs[i].tag in m && m[ibs[i].tag] == ibs[i] && ibs[i].tag !in done)
      && (forall t | t in done :: t in m && m[t] == done[t])
      && (forall t | t in m && t !in done :: m[t] in ibs && m[t].tag == t)
      && (forall i, j | 0 <= i < j < |ibs| :: ibs[i].tag != ibs[j].tag)
  {
    if ibs != [] {
      IndexedInbounds(ibs[1..], done[ibs[0].tag := ibs[0]]);
      var m := IndexInbounds(ibs, done).value;
      assert m == IndexInbounds(ibs[1..], done[ibs[0].tag := ibs[0]]).value;
      forall i | 0 <= i < |ibs| ensures ibs[i].tag in m && m[ibs[i].tag] == ibs[i] && ibs[i].tag !in done {
        if i > 0 { assert ibs[i] == ibs[1..][i - 1]; }
      }
      forall i, j | 0 <= i < j < |ibs| ensures ibs[i].tag != ibs[j].tag {
        assert ibs[j] == ibs[1..][j - 1];
        if i > 0 { assert ibs[i] == ibs[1..][i - 1]; }
      }
    }
  }

  lemma {:induction false} GoneTags(olds: seq<Inbound>, newByTag: map<string, Inbound>, apiTag: string)
    ensures forall op | op in AllGone(olds, newByTag, apiTag) :: exists i | 0 <= i < |olds| :: olds[i].tag == op.tag
    ensures forall op | op in AllFresh(olds, newByTag, apiTag) :: exists i | 0 <= i < |olds| :: olds[i].tag == op.tag
  {
    if olds != [] {
      var n := |olds| - 1;
      GoneTags(olds[..n], newByTag, apiTag);
      forall op | op in AllGone(olds, newByTag, apiTag) || op in AllFresh(olds, newByTag, apiTag)
        ensures exists i | 0 <= i < |olds| :: olds[i].tag == op.tag
      {
        if op in AllGone(olds[..n], newByTag, apiTag) || op in AllFresh(olds[..n], newByTag, apiTag) {
          var i :| 0 <= i < n && olds[..n][i].tag == op.tag;
          assert olds[i].tag == op.tag;
        } else {
          assert olds[n].tag == op.tag;
        }
      }
    }
  }

  /** The operations of inbound `i` target another tag than those of the inbounds before it. */
  lemma {:induction false} OpsOfOthers(olds: seq<Inbound>, newByTag: map<string, Inbound>, apiTag: string, i: nat)
    requires i < |olds| && (forall j, k | 0 <= j < k < |olds| :: olds[j].tag != olds[k].tag)
    requires Judge(olds[i], newByTag, apiTag).EditUsers?
    ensures AllGone(olds[..i], newByTag, apiTag) !! GoneOps(olds[i], newByTag[olds[i].tag])
    ensures AllFresh(olds[..i], newByTag, apiTag) !! FreshOps(olds[i], newByTag[olds[i].tag])
  {
    GoneTags(olds[..i], newByTag, apiTag);
  }

  lemma {:induction false} OneMoreEdited(olds: seq<Inbound>, newByTag: map<string, Inbound>, apiTag: string, i: nat,
                                         was: seq<UserOp>, removed: seq<UserOp>, wasAdded: seq<UserOp>, added: seq<UserOp>)
    requires i < |olds| && (forall j, k | 0 <= j < k < |olds| :: olds[j].tag != olds[k].tag)
    requires Judge(olds[i], newByTag, apiTag).EditUsers?
    requires Lists(was, AllGone(olds[..i], newByTag, apiTag)) && Lists(removed, GoneOps(olds[i], newByTag[olds[i].tag]))
    requires Lists(wasAdded, AllFresh(olds[..i], newByTag, apiTag)) && Lists(added, FreshOps(olds[i], newByTag[olds[i].tag]))
    ensures Lists(was + removed, AllGone(olds[..i + 1], newByTag, apiTag))
    ensures Lists(wasAdded + added, AllFresh(olds[..i + 1], newByTag, apiTag))
  {
    var x := olds[i];
    assert olds[..i + 1][..i] == olds[..i] && olds[..i + 1][i] == x;
    OpsOfOthers(olds, newByTag, apiTag, i);
    ListsConcat(was, AllGone(olds[..i], newByTag, apiTag), removed, GoneOps(x, newByTag[x.tag]));
    ListsConcat(wasAdded, AllFresh(olds[..i], newByTag, apiTag), added, FreshOps(x, newByTag[x.tag]));
  }

  /** The HotDiff record the planner fills in. */
  class Diff {
    var removedInboundTags: seq<string>
    var addedInbounds: seq<InboundDoc>
    var removedUsers: seq<UserOp>
    var addedUsers: seq<UserOp>
    var removedOutboundTags: seq<string>
    var addedOutbounds: seq<Json>
    var routingConfig: Option<Raw>

    constructor ()
      ensures Value() == Plan([], [], [], [], [], [], None)
    {
      removedInboundTags, addedInbounds, removedUsers, addedUsers := [], [], [], [];
      removedOutboundTags, addedOutbounds, routingConfig := [], [], None;
    }

    ghost function Value(): Plan
      reads this
    {
      Plan(removedInboundTags, addedInbounds, removedUsers, addedUsers,
           removedOutboundTags, addedOutbounds, routingConfig)
    }

    predicate Empty()
      reads this
      ensures Empty() <==> Value() == Plan([], [], [], [], [], [], None)
    {
      && |removedInboundTags| == 0 && |addedInbounds| == 0
      && |removedUsers| == 0 && |addedUsers| == 0
      && |removedOutboundTags| == 0 && |addedOutbounds| == 0
      && routingConfig == None
    }
  }

  ghost function Among(ops: set<UserOp>, emails: set<string>): set<UserOp> {
    set op | op in ops && op.email in emails
  }

  lemma {:induction false} AmongStep(tag: string, protocol: string, was: map<string, Json>, now: map<string, Json>,
                  emails: set<string>, email: string)
    ensures var same := email in was && email in now && was[email] == now[email];
      var gone, novel := GoneClients(tag, protocol, was, now), FreshClients(tag, protocol, was, now);
      && Among(gone, emails + {email}) == Among(gone, emails) +
           (if email in was && !same then {UserOp(tag, protocol, email, None)} else {})
      && Among(novel, emails + {email}) == Among(novel, emails) +
           (if email in now && !same then {UserOp(tag, protocol, email, Some(now[email]))} else {})
  {
  }

  lemma {:induction false} AmongAll(tag: string, protocol: string, was: map<string, Json>, now: map<string, Json>)
    ensures Among(GoneClients(tag, protocol, was, now), was.Keys) == GoneClients(tag, protocol, was, now)
    ensures Among(FreshClients(tag, protocol, was, now), was.Keys + now.Keys) == FreshClients(tag, protocol, was, now)
  {
  }

  /** The two map iterations of diffInboundUsers. */
  method ListUserOps(tag: string, protocol: string, was: map<string, Json>, now: map<string, Json>)
    returns (removed: seq<UserOp>, added: seq<UserOp>)
    ensures Lists(removed, GoneClients(tag, protocol, was, now))
    ensures Lists(added, FreshClients(tag, protocol, was, now))
  {
    removed, added := [], [];
    ghost var gone, novel := GoneClients(tag, protocol, was, now), FreshClients(tag, protocol, was, now);
    var todo := was.Keys;
    ghost var seen: set<string> := {};
    while todo != {}
      invariant seen + todo == was.Keys && seen !! todo
      invariant Lists(removed, Among(gone, seen))
      invariant Lists(added, Among(novel, seen))
    {
      var email :| email in todo;
      AmongStep(tag, protocol, was, now, seen, email);
      if !(email in now && was[email] == now[email]) {
        ListsSnoc(removed, Among(gone, seen), UserOp(tag, protocol, email, None));
        removed := removed + [UserOp(tag, protocol, email, None)];
        if email in now {
          ListsSnoc(added, Among(novel, seen), UserOp(tag, protocol, email, Some(now[email])));
          added := added + [UserOp(tag, protocol, email, Some(now[email]))];
        }
      }
      todo, seen := todo - {email}, seen + {email};
    }
    AmongAll(tag, protocol, was, now);
    assert seen == was.Keys;
    todo := now.Keys;
    while todo != {}
      invariant todo <= now.Keys && was.Keys <= seen
      invariant seen + todo == was.Keys + now.Keys && seen * todo <= was.Keys
      invariant Lists(added, Among(novel, seen))
    {
      var email :| email in todo;
      AmongStep(tag, protocol, was, now, seen, email);
      if email !in was {
        ListsSnoc(added, Among(novel, seen), UserOp(tag, protocol, email, Some(now[email])));
        added := added + [UserOp(tag, protocol, email, Some(now[email]))];
      } else {
        assert seen + {email} == seen;
      }
      todo, seen := todo - {email}, seen + {email};
    }
    assert seen == was.Keys + now.Keys;
  }

  method DiffInboundUsers(a: Inbound, b: Inbound, diff: Diff)
    returns (ok: bool, ghost removed: seq<UserOp>, ghost added: seq<UserOp>)
    modifies diff
    ensures ok == ClientsOnly(a, b)
    ensures diff.Value() == old(diff.Value()).(
      removedUsers := old(diff.removedUsers) + removed, addedUsers := old(diff.addedUsers) + added)
    ensures !ok ==> removed == [] && added == []
    ensures ok ==> Lists(removed, GoneOps(a, b)) && Lists(added, FreshOps(a, b))
  {
    removed, added := [], [];
    if a.port != b.port || a.protocol != b.protocol || a.tag != b.tag {
      return false, [], [];
    }
    if a.protocol !in DIFFABLE {
      return false, [], [];
    }
    if || !RawEqualNormalized(a.listen, b.listen)
       || !RawEqualNormalized(a.stream, b.stream)
       || !RawEqualNormalized(a.sniffing, b.sniffing)
    {
      return false, [], [];
    }
    var oldSplit := SplitSettingsClients(a.settings);
    if oldSplit.None? {
      return false, [], [];
    }
    var newSplit := SplitSettingsClients(b.settings);
    if newSplit.None? || oldSplit.value.rest != newSplit.value.rest {
      return false, [], [];
    }
    var gone, novel := ListUserOps(a.tag, a.protocol, oldSplit.value.clients, newSplit.value.clients);
    diff.removedUsers := diff.removedUsers + gone;
    diff.addedUsers := diff.addedUsers + novel;
    return true, gone, novel;
  }

  /** One pass of the loop over the old inbounds. */
  method DiffInbound(x: Inbound, newByTag: map<string, Inbound>, apiTag: string, diff: Diff)
    returns (ok: bool, ghost removed: seq<UserOp>, ghost added: seq<UserOp>)
    requires x.tag in newByTag ==> newByTag[x.tag].tag == x.tag
    modifies diff
    ensures ok == !Judge(x, newByTag, apiTag).Refuse?
    ensures ok ==> Passed(old(diff.Value()), diff.Value(), x, newByTag, apiTag, removed, added)
  {
    removed, added := [], [];
    var present := x.tag in newByTag;
    if present && InboundEqualNormalized(x, newByTag[x.tag]) {
      return true, [], [];
    }
    if x.tag == apiTag || x.tag == "api" {
      return false, [], [];
    }
    if present && (InboundHasReverseClient(x) || InboundHasReverseClient(newByTag[x.tag])) {
      return false, [], [];
    }
    if present {
      var edited;
      edited, removed, added := DiffInboundUsers(x, newByTag[x.tag], diff);
      if edited {
        return true, removed, added;
      }
    }
    if present && (InboundUsesReality(x) || InboundUsesReality(newByTag[x.tag])) {
      return false, [], [];
    }
    diff.removedInboundTags := diff.removedInboundTags + [x.tag];
    if present {
      var doc := MarshalInbound(newByTag[x.tag]);
      if doc.None? {
        return false, [], [];
      }
      diff.addedInbounds := diff.addedInbounds + [doc.value];
    }
    return true, [], [];
  }

  /** What the diff holds once these old inbounds are dealt with. */
  ghost predicate OldsDone(plan: Plan, olds: seq<Inbound>, newByTag: map<string, Inbound>, apiTag: string) {
    && plan == Plan(RemovedTags(olds, newByTag, apiTag), ReplacedDocs(olds, newByTag, apiTag),
                    plan.removedUsers, plan.addedUsers, [], [], None)
    && Lists(plan.removedUsers, AllGone(olds, newByTag, apiTag))
    && Lists(plan.addedUsers, AllFresh(olds, newByTag, apiTag))
  }

  /** What one pass over an old inbound adds to the diff. */
  ghost predicate Passed(was: Plan, now: Plan, x: Inbound, newByTag: map<string, Inbound>, apiTag: string,
                         removed: seq<UserOp>, added: seq<UserOp>)
    requires !Judge(x, newByTag, apiTag).Refuse?
  {
    var v := Judge(x, newByTag, apiTag);
    && now == was.(
         removedInboundTags := was.removedInboundTags + (if v.Replace? || v.Drop? then [x.tag] else []),
         addedInbounds := was.addedInbounds + (if v.Replace? then [MarshalInbound(newByTag[x.tag]).value] else []),
         removedUsers := was.removedUsers + removed,
         addedUsers := was.addedUsers + added)
    && (if v.EditUsers? then
          Lists(removed, GoneOps(x, newByTag[x.tag])) && Lists(added, FreshOps(x, newByTag[x.tag]))
        else
          removed == [] && added == [])
  }

  lemma {:induction false} OneMoreDone(was: Plan, now: Plan, olds: seq<Inbound>, newByTag: map<string, Inbound>, apiTag: string,
                                       i: nat, removed: seq<UserOp>, added: seq<UserOp>)
    requires i < |olds| && (forall j, k | 0 <= j < k < |olds| :: olds[j].tag != olds[k].tag)
    requires OldsDone(was, olds[..i], newByTag, apiTag)
    requires !Judge(olds[i], newByTag, apiTag).Refuse? && Passed(was, now, olds[i], newByTag, apiTag, removed, added)
    ensures OldsDone(now, olds[..i + 1], newByTag, apiTag)
  {
    assert olds[..i + 1][..i] == olds[..i] && olds[..i + 1][i] == olds[i];
    if Judge(olds[i], newByTag, apiTag).EditUsers? {
      OneMoreEdited(olds, newByTag, apiTag, i, was.removedUsers, removed, was.addedUsers, added);
    }
  }

  /** The loop over the old inbounds. */
  method DiffOldInbounds(olds: seq<Inbound>, newByTag: map<string, Inbound>, apiTag: string, diff: Diff)
    returns (ok: bool)
    requires diff.Value() == Plan([], [], [], [], [], [], None)
    requires forall j, k | 0 <= j < k < |olds| :: olds[j].tag != olds[k].tag
    requires forall t | t in newByTag :: newByTag[t].tag == t
    modifies diff
    ensures ok == NoneRefused(olds, newByTag, apiTag)
    ensures ok ==> OldsDone(diff.Value(), olds, newByTag, apiTag)
  {
    for i := 0 to |olds|
      invariant forall k | 0 <= k < i :: !Judge(olds[k], newByTag, apiTag).Refuse?
      invariant OldsDone(diff.Value(), olds[..i], newByTag, apiTag)
    {
      ghost var was := diff.Value();
      var fine, removed, added := DiffInbound(olds[i], newByTag, apiTag, diff);
      if !fine {
        return false;
      }
      OneMoreDone(was, diff.Value(), olds, newByTag, apiTag, i, removed, added);
    }
    assert olds[..|olds|] == olds;
    return true;
  }

  /** The loop over the new inbounds. */
  method DiffNewInbounds(news: seq<Inbound>, oldByTag: map<string, Inbound>, apiTag: string, diff: Diff)
    returns (ok: bool)
    modifies diff
    ensures ok == NewOnesAddable(news, oldByTag, apiTag)
    ensures ok ==> diff.Value() == old(diff.Value()).(
      addedInbounds := old(diff.addedInbounds) + AddedDocs(news, oldByTag, apiTag))
  {
    for i := 0 to |news|
      invariant forall k | 0 <= k < i :: news[k].tag in oldByTag || Addable(news[k], apiTag)
      invariant diff.Value() == old(diff.Value()).(
        addedInbounds := old(diff.addedInbounds) + AddedDocs(news[..i], oldByTag, apiTag))
    {
      assert news[..i + 1][..i] == news[..i] && news[..i + 1][i] == news[i];
      if news[i].tag in oldByTag {
        continue;
      }
      if news[i].tag == apiTag || news[i].tag == "api" {
        return false;
      }
      var doc := MarshalInbound(news[i]);
      if doc.None? {
        return false;
      }
      diff.addedInbounds := diff.addedInbounds + [doc.value];
    }
    assert news[..|news|] == news;
    return true;
  }

  method DiffInbounds(a: Config, b: Config, diff: Diff) returns (ok: bool)
    requires diff.Value() == Plan([], [], [], [], [], [], None)
    modifies diff
    ensures ok == InboundsReloadable(a, b)
    ensures ok ==>
      var oldByTag, newByTag := IndexInbounds(a.inbounds, map[]).value, IndexInbounds(b.inbounds, map[]).value;
      var apiTag := ApiTagFromConfig(b.api);
      var plan := diff.Value();
      && plan == Plan(
           RemovedTags(a.inbounds, newByTag, apiTag),
           ReplacedDocs(a.inbounds, newByTag, apiTag) + AddedDocs(b.inbounds, oldByTag, apiTag),
           plan.removedUsers, plan.addedUsers, [], [], None)
      && Lists(plan.removedUsers, AllGone(a.inbounds, newByTag, apiTag))
      && Lists(plan.addedUsers, AllFresh(a.inbounds, newByTag, apiTag))
  {
    var olds, news := a.inbounds, b.inbounds;
    var oldIndex := InboundsByTag(olds);
    if oldIndex.None? {
      return false;
    }
    var newIndex := InboundsByTag(news);
    if newIndex.None? {
      return false;
    }
    var apiTag := ApiTagFromConfig(b.api);
    IndexedInbounds(olds, map[]);
    IndexedInbounds(news, map[]);
    ok := DiffOldInbounds(olds, newIndex.value, apiTag, diff);
    if !ok {
      return false;
    }
    ok := DiffNewInbounds(news, oldIndex.value, apiTag, diff);
  }

  /** The loop over the old outbounds. */
  method ListOldOutbounds(olds: seq<OutboundEntry>, newByTag: map<string, Json>, diff: Diff)
    requires diff.removedOutboundTags == [] && diff.addedOutbounds == []
    modifies diff
    ensures diff.Value() == old(diff.Value()).(
      removedOutboundTags := RemovedOutbounds(olds, newByTag), addedOutbounds := ReplacedOutbounds(olds, newByTag))
  {
    for i := 0 to |olds|
      invariant diff.Value() == old(diff.Value()).(
        removedOutboundTags := RemovedOutbounds(olds[..i], newByTag),
        addedOutbounds := ReplacedOutbounds(olds[..i], newByTag))
    {
      var e := olds[i];
      assert olds[..i + 1][..i] == olds[..i] && olds[..i + 1][i] == e;
      if e.tag in newByTag && newByTag[e.tag] == e.value {
        continue;
      }
      diff.removedOutboundTags := diff.removedOutboundTags + [e.tag];
      if e.tag in newByTag {
        diff.addedOutbounds := diff.addedOutbounds + [newByTag[e.tag]];
      }
    }
    assert olds[..|olds|] == olds;
  }

  /** The loop over the new outbounds. */
  method ListNewOutbounds(news: seq<OutboundEntry>, oldByTag: map<string, Json>, diff: Diff)
    modifies diff
    ensures diff.Value() == old(diff.Value()).(addedOutbounds := old(diff.addedOutbounds) + NewOutbounds(news, oldByTag))
  {
    for i := 0 to |news|
      invariant diff.Value() == old(diff.Value()).(
        addedOutbounds := old(diff.addedOutbounds) + NewOutbounds(news[..i], oldByTag))
    {
      var e := news[i];
      assert news[..i + 1][..i] == news[..i] && news[..i + 1][i] == e;
      if e.tag !in oldByTag {
        diff.addedOutbounds := diff.addedOutbounds + [e.value];
      }
    }
    assert news[..|news|] == news;
  }

  /** The two loops of diffOutbounds, once its refusals are past. */
  method ListOutboundOps(olds: seq<OutboundEntry>, news: seq<OutboundEntry>, diff: Diff)
    requires diff.removedOutboundTags == [] && diff.addedOutbounds == []
    modifies diff
    ensures diff.Value() == old(diff.Value()).(
      removedOutboundTags := RemovedOutbounds(olds, ByTag(news)),
      addedOutbounds := ReplacedOutbounds(olds, ByTag(news)) + NewOutbounds(news, ByTag(olds)))
  {
    var oldByTag := OutboundMap(olds);
    var newByTag := OutboundMap(news);
    ListOldOutbounds(olds, newByTag, diff);
    ListNewOutbounds(news, oldByTag, diff);
  }

  method DiffOutbounds(a: Config, b: Config, diff: Diff) returns (ok: bool)
    requires diff.removedOutboundTags == [] && diff.addedOutbounds == []
    modifies diff
    ensures ok == OutboundsReloadable(a, b)
    ensures ok ==>
      var olds, news := OutboundsOf(a.outbounds).value, OutboundsOf(b.outbounds).value;
      diff.Value() == old(diff.Value()).(
        removedOutboundTags := RemovedOutbounds(olds, ByTag(news)),
        addedOutbounds := ReplacedOutbounds(olds, ByTag(news)) + NewOutbounds(news, ByTag(olds)))
  {
    var oldParsed := ParseOutbounds(a.outbounds);
    if oldParsed.None? {
      return false;
    }
    var newParsed := ParseOutbounds(b.outbounds);
    if newParsed.None? {
      return false;
    }
    var olds, news := oldParsed.value, newParsed.value;
    if (|olds| == 0) != (|news| == 0) {
      return false;
    }
    if |olds| > 0 {
      if olds[0].tag != news[0].tag || olds[0].value != news[0].value {
        return false;
      }
    }
    ListOutboundOps(olds, news, diff);
    return true;
  }

  method OutboundMap(entries: seq<OutboundEntry>) returns (byTag: map<string, Json>)
    ensures byTag == ByTag(entries)
  {
    byTag := map[];
    for i := 0 to |entries|
      invariant byTag == ByTag(entries[..i])
    {
      assert entries[..i + 1][..i] == entries[..i] && entries[..i + 1][i] == entries[i];
      byTag := byTag[entries[i].tag := entries[i].value];
    }
    assert entries[..|entries|] == entries;
  }

  method DiffRouting(a: Config, b: Config, diff: Diff) returns (ok: bool)
    requires diff.routingConfig == None
    modifies diff
    ensures ok == RoutingReloadable(a, b)
    ensures ok ==> diff.Value() == old(diff.Value()).(
      routingConfig := if a.routing == b.routing then None else Some(b.routing))
  {
    if a.routing == b.routing {
      return true;
    }
    if a.routing.Absent? || b.routing.Absent? {
      return false;
    }
    var oldRest := RoutingWithoutReloadable(a.routing);
    if oldRest.None? {
      return false;
    }
    var newRest := RoutingWithoutReloadable(b.routing);
    if newRest.None? || oldRest != newRest {
      return false;
    }
    diff.routingConfig := Some(b.routing);
    return true;
  }

  /** The comparing loop of ComputeHotDiff. */
  method TableUnchanged(table: seq<Pair>) returns (ok: bool)
    ensures ok <==> AllEqual(table)
  {
    for i := 0 to |table|
      invariant forall k | 0 <= k < i :: RawEqualNormalized(table[k].was, table[k].now)
    {
      if !RawEqualNormalized(table[i].was, table[i].now) {
        return false;
      }
    }
    return true;
  }

  /** ComputeHotDiff on two present configurations; a nil one is refused by the caller's check. */
  method ComputeHotDiff(a: Option<Config>, b: Option<Config>) returns (diff: Diff, ok: bool)
    ensures ok <==> a.Some? && b.Some? && HotReloadable(a.value, b.value)
    ensures ok ==> Planned(a.value, b.value, diff.Value())
    ensures fresh(diff)
  {
    diff := new Diff();
    if a.None? || b.None? {
      return diff, false;
    }
    ok := TableUnchanged(StaticTable(a.value, b.value));
    if !ok {
      return diff, false;
    }
    ok := DiffInbounds(a.value, b.value, diff);
    if !ok {
      return diff, false;
    }
    ok := DiffOutbounds(a.value, b.value, diff);
    if !ok {
      return diff, false;
    }
    ok := DiffRouting(a.value, b.value, diff);
  }
}
