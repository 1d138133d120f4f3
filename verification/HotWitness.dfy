/** When the calls convey a client, and accepted diffs that do not land on the new configuration. */
module HotWitness {
  import opened Wrappers
  import opened JsonModel
  import opened HotDiff
  import opened HotApply
  import opened HotTheorem

  // ---------------------------------------------------------------- clients

  /** The strings of a client that the call for the protocol carries. */
  function Carried(protocol: string): set<string> {
    if protocol == "vless" then {"email", "id", "flow"}
    else if protocol == "vmess" then {"email", "id"}
    else {"email", "password"}
  }

  /** A test seed arrives as zeros, so it is carried only when it was zeros. */
  predicate SeedSurvives(protocol: string, k: string, v: Json) {
    protocol == "vless" && k == "testseed" && v.Arr? && |v.items| >= 4 && v == Arr(seq(|v.items|, _ => Num("0")))
  }

  predicate Survives(protocol: string, k: string, v: Json) {
    ZeroValue(v) || k in Carried(protocol) || SeedSurvives(protocol, k, v)
  }

  /** A client is conveyed in full exactly when its account can be built and every field it sets
      is one the call carries: no level, no encryption of VMess, no flow of Trojan. */
  lemma {:induction false} ConveyedIs(protocol: string, client: Json)
    requires protocol in DIFFABLE && ClientEmail(client) != ""
    ensures Sent(protocol, client) == Some(AsRead(client)) <==>
      && BuildUserAccount(protocol, client.fields).Some?
      && forall k | k in client.fields :: Survives(protocol, k, client.fields[k])
  {
    var fields := client.fields;
    if BuildUserAccount(protocol, fields).Some? {
      var sent, read := Sent(protocol, client).value.fields, AsRead(client).fields;
      forall k | k in fields
        ensures Survives(protocol, k, fields[k]) <==> (k in sent <==> k in read) && (k in sent && k in read ==> sent[k] == read[k])
      {
        SurvivorIs(protocol, client, k);
      }
      forall k | k in sent
        ensures k in fields
      {
      }
      if forall k | k in fields :: Survives(protocol, k, fields[k]) {
        assert sent == read;
      }
      if sent == read {
        forall k | k in fields
          ensures Survives(protocol, k, fields[k])
        {
        }
      }
    }
  }

  lemma {:induction false} SurvivorIs(protocol: string, client: Json, k: string)
    requires protocol in DIFFABLE && ClientEmail(client) != "" && k in client.fields
    requires BuildUserAccount(protocol, client.fields).Some?
    ensures var sent, read := Sent(protocol, client).value.fields, AsRead(client).fields;
      Survives(protocol, k, client.fields[k]) <==> (k in sent <==> k in read) && (k in sent && k in read ==> sent[k] == read[k])
  {
  }

  /** One inbound with the given clients, and nothing else. */
  function Serving(protocol: string, clients: seq<Json>): Config {
    var settings := Text("", Obj(map["clients" := Arr(clients)]), false);
    EMPTY.(inbounds := [Inbound("in", 443, protocol, Absent, settings, Absent, Absent)])
  }

  function OneMore(protocol: string, client: Json): Plan {
    Plan([], [], [], [UserOp("in", protocol, ClientEmail(client), Some(client))], [], [], None)
  }

  /** The lists of the planner for one inbound that is edited. */
  lemma {:induction false} OneEdited(x: Inbound, y: Inbound, apiTag: string)
    requires x.tag == y.tag && Judge(x, map[y.tag := y], apiTag).EditUsers?
    ensures var newByTag := map[y.tag := y];
      && RemovedTags([x], newByTag, apiTag) == [] && ReplacedDocs([x], newByTag, apiTag) == []
      && AllGone([x], newByTag, apiTag) == GoneOps(x, y) && AllFresh([x], newByTag, apiTag) == FreshOps(x, y)
      && AddedDocs([y], map[x.tag := x], apiTag) == []
      && NoneRefused([x], newByTag, apiTag) && NewOnesAddable([y], map[x.tag := x], apiTag)
  {
    var newByTag := map[y.tag := y];
    assert [x][..0] == [] && [y][..0] == [];
  }

  lemma {:induction false} OneIndexed(x: Inbound)
    requires x.tag != ""
    ensures IndexInbounds([x], map[]) == Some(map[x.tag := x])
  {
    assert [x][1..] == [];
  }

  lemma {:induction false} OneSplit(protocol: string, client: Json)
    requires ClientEmail(client) != ""
    ensures Split(Serving(protocol, []).inbounds[0].settings) == Some(SplitSettings(map[], map[]))
    ensures Split(Serving(protocol, [client]).inbounds[0].settings) ==
      Some(SplitSettings(map[ClientEmail(client) := client], map[]))
  {
    var email := ClientEmail(client);
    assert [client][1..] == [];
    assert IndexClients([], map[email := client]) == Some(map[email := client]);
    assert IndexClients([client], map[]) == IndexClients([], map[email := client]);
    assert map["clients" := Arr([client])] - {"clients"} == map[];
    assert map["clients" := Arr([])] - {"clients"} == map[];
  }

  lemma {:induction false} OneIsEdited(protocol: string, client: Json)
    requires protocol in DIFFABLE && ClientEmail(client) != "" && !ReverseClient(client)
    ensures var x, y := Serving(protocol, []).inbounds[0], Serving(protocol, [client]).inbounds[0];
      && Judge(x, map["in" := y], "api").EditUsers?
      && GoneOps(x, y) == {} && FreshOps(x, y) == {UserOp("in", protocol, ClientEmail(client), Some(client))}
  {
    OneSplit(protocol, client);
    var x, y := Serving(protocol, []).inbounds[0], Serving(protocol, [client]).inbounds[0];
    assert !InboundEqualNormalized(x, y) by {
      assert Canon(x.settings) != Canon(y.settings) by {
        assert [client] != [];
      }
    }
  }

  lemma {:induction false} OneIndexing(protocol: string, clients: seq<Json>)
    ensures IndexInbounds(Serving(protocol, clients).inbounds, map[]) == Some(map["in" := Serving(protocol, clients).inbounds[0]])
  {
    var x := Serving(protocol, clients).inbounds[0];
    OneIndexed(x);
    assert Serving(protocol, clients).inbounds == [x];
  }

  lemma {:induction false} OneMoreIsEditable(protocol: string, client: Json)
    requires protocol in DIFFABLE && ClientEmail(client) != "" && !ReverseClient(client)
    ensures InboundsReloadable(Serving(protocol, []), Serving(protocol, [client]))
    ensures FreshIn(Serving(protocol, []), Serving(protocol, [client])) == {UserOp("in", protocol, ClientEmail(client), Some(client))}
  {
    var x, y := Serving(protocol, []).inbounds[0], Serving(protocol, [client]).inbounds[0];
    OneIsEdited(protocol, client);
    OneEdited(x, y, "api");
    OneIndexing(protocol, []);
    OneIndexing(protocol, [client]);
    assert Serving(protocol, []).inbounds == [x] && Serving(protocol, [client]).inbounds == [y];
  }

  lemma {:induction false} OneMoreIsAccepted(protocol: string, client: Json)
    requires protocol in DIFFABLE && ClientEmail(client) != "" && !ReverseClient(client)
    ensures HotReloadable(Serving(protocol, []), Serving(protocol, [client]))
  {
    OneMoreIsEditable(protocol, client);
    StaticsAreCompared(Serving(protocol, []), Serving(protocol, [client]));
  }

  lemma {:induction false} OneMoreIsListed(protocol: string, client: Json)
    requires protocol in DIFFABLE && ClientEmail(client) != "" && !ReverseClient(client)
    requires HotReloadable(Serving(protocol, []), Serving(protocol, [client]))
    ensures Planned(Serving(protocol, []), Serving(protocol, [client]), OneMore(protocol, client))
  {
    var x, y := Serving(protocol, []).inbounds[0], Serving(protocol, [client]).inbounds[0];
    OneIsEdited(protocol, client);
    OneEdited(x, y, "api");
    OneIndexing(protocol, []);
    OneIndexing(protocol, [client]);
    assert Serving(protocol, []).inbounds == [x] && Serving(protocol, [client]).inbounds == [y];
  }

  lemma {:induction false} OneMoreIsPlanned(protocol: string, client: Json)
    requires protocol in DIFFABLE && ClientEmail(client) != "" && !ReverseClient(client)
    ensures var a, b := Serving(protocol, []), Serving(protocol, [client]);
      && HotReloadable(a, b) && Planned(a, b, OneMore(protocol, client))
      && FreshIn(a, b) == {UserOp("in", protocol, ClientEmail(client), Some(client))}
  {
    OneMoreIsEditable(protocol, client);
    OneMoreIsAccepted(protocol, client);
    OneMoreIsListed(protocol, client);
  }

  /** Adding one client to a running inbound gives what a restart would give exactly when the call
      conveys it. */
  lemma {:induction false} OneMoreLands(protocol: string, client: Json)
    requires protocol in DIFFABLE && ClientEmail(client) != "" && !ReverseClient(client)
    ensures var a, b := Serving(protocol, []), Serving(protocol, [client]);
      && Loadable(a) && Loadable(b)
      && (Execute(Start(a), OneMore(protocol, client)) == Some(Start(b)) <==> Sent(protocol, client) == Some(AsRead(client)))
      && (Execute(Start(a), OneMore(protocol, client)).Some? <==> Sent(protocol, client).Some?)
  {
    var a, b := Serving(protocol, []), Serving(protocol, [client]);
    OneMoreIsPlanned(protocol, client);
    OnePortFree(protocol, client);
    AcceptedDiffLands(a, b, OneMore(protocol, client));
    OneFresh(protocol, client);
  }

  lemma {:induction false} OnePortFree(protocol: string, client: Json)
    requires InboundsReloadable(Serving(protocol, []), Serving(protocol, [client]))
    ensures PortsFree(Serving(protocol, []), Serving(protocol, [client]))
  {
    AdditionsFindTheirPortsFree(Serving(protocol, []), Serving(protocol, [client]));
  }

  lemma {:induction false} OneFresh(protocol: string, client: Json)
    requires InboundsReloadable(Serving(protocol, []), Serving(protocol, [client]))
    requires FreshIn(Serving(protocol, []), Serving(protocol, [client])) == {UserOp("in", protocol, ClientEmail(client), Some(client))}
    ensures ClientsSent(Serving(protocol, []), Serving(protocol, [client])) <==> Sent(protocol, client).Some?
    ensures ClientsConveyed(Serving(protocol, []), Serving(protocol, [client])) <==> Sent(protocol, client) == Some(AsRead(client))
  {
    var op := UserOp("in", protocol, ClientEmail(client), Some(client));
    assert op in FreshIn(Serving(protocol, []), Serving(protocol, [client]));
  }

  /** What the protocol has no field for is lost: the diff is accepted, and the core then differs
      from the one a restart would give. */
  lemma {:induction false} UnsentIsLost(protocol: string, client: Json, k: string)
    requires protocol in DIFFABLE && ClientEmail(client) != "" && !ReverseClient(client)
    requires k in client.fields && !Survives(protocol, k, client.fields[k])
    ensures var a, b := Serving(protocol, []), Serving(protocol, [client]);
      && HotReloadable(a, b) && Planned(a, b, OneMore(protocol, client)) && Loadable(a) && Loadable(b)
      && Execute(Start(a), OneMore(protocol, client)) != Some(Start(b))
  {
    OneMoreIsPlanned(protocol, client);
    ConveyedIs(protocol, client);
    OneMoreLands(protocol, client);
  }

  /** For example the encryption of a VMess client. */
  lemma {:induction false} EncryptionIsLost(email: string, id: string)
    requires email != "" && id != ""
    ensures var client := Obj(map["email" := Str(email), "id" := Str(id), "security" := Str("aes-128-gcm")]);
      && Sent("vmess", client) == Some(Obj(map["email" := Str(email), "id" := Str(id)]))
      && !Survives("vmess", "security", client.fields["security"])
  {
    var sent := map["id" := Str(id)]["email" := Str(email)];
    assert AsRead(Obj(sent)) == Obj(sent);
    assert sent == map["email" := Str(email), "id" := Str(id)];
  }

  lemma {:induction false} NoAccount(protocol: string, client: Json)
    requires protocol in DIFFABLE && client.Obj? && (if protocol == "trojan" then "password" else "id") !in client.fields
    ensures Sent(protocol, client) == None
  {
  }

  /** A client without the string its account is made of: the diff is accepted and cannot run. */
  lemma {:induction false} NoAccountNoRun(protocol: string, client: Json)
    requires protocol in DIFFABLE && ClientEmail(client) != "" && !ReverseClient(client)
    requires (if protocol == "trojan" then "password" else "id") !in client.fields
    ensures var a, b := Serving(protocol, []), Serving(protocol, [client]);
      && HotReloadable(a, b) && Planned(a, b, OneMore(protocol, client)) && Loadable(a)
      && Execute(Start(a), OneMore(protocol, client)) == None
  {
    NoAccount(protocol, client);
    OneMoreIsPlanned(protocol, client);
    OneMoreLands(protocol, client);
  }

  // ---------------------------------------------------------------- routing

  function Routing(raw: Raw): Config {
    EMPTY.(routing := raw)
  }

  function Reroute(raw: Raw): Plan {
    Plan([], [], [], [], [], [], Some(raw))
  }

  lemma {:induction false} ReroutingIsPlanned(was: Raw, now: Raw)
    requires was != now && RoutingReloadable(Routing(was), Routing(now))
    ensures HotReloadable(Routing(was), Routing(now)) && Planned(Routing(was), Routing(now), Reroute(now))
  {
  }

  /** A routing section that is null, laid out in two ways: accepted, but no core applies it. */
  lemma {:induction false} NullRoutingStops()
    ensures var a, b := Routing(Text("null", Null, false)), Routing(Text(" null", Null, false));
      && HotReloadable(a, b) && Planned(a, b, Reroute(b.routing)) && Loadable(a)
      && Execute(Start(a), Reroute(b.routing)) == None
  {
    var a, b := Routing(Text("null", Null, false)), Routing(Text(" null", Null, false));
    ReroutingIsPlanned(a.routing, b.routing);
    AcceptedDiffLands(a, b, Reroute(b.routing));
  }

  /** So is one with bytes after its value, which the planner does not read and the API rejects. */
  lemma {:induction false} TrailingRoutingStops()
    ensures var a, b := Routing(Text("{}", Obj(map[]), false)), Routing(Text("{} x", Obj(map[]), true));
      && HotReloadable(a, b) && Planned(a, b, Reroute(b.routing)) && Loadable(a)
      && Execute(Start(a), Reroute(b.routing)) == None
  {
    var a, b := Routing(Text("{}", Obj(map[]), false)), Routing(Text("{} x", Obj(map[]), true));
    ReroutingIsPlanned(a.routing, b.routing);
    AcceptedDiffLands(a, b, Reroute(b.routing));
  }

  /** A routing section as the panel generates it: none, or the bytes of one JSON value, of which
      null has only one form. */
  predicate Generated(raw: Raw) {
    raw.Absent? || (raw.Text? && !raw.trailing && (raw.value.Null? ==> raw.layout == "null"))
  }

  /** Between two such sections an accepted change can always be applied. */
  lemma {:induction false} GeneratedIsAppliable(a: Config, b: Config)
    requires HotReloadable(a, b) && Generated(a.routing) && Generated(b.routing)
    ensures RoutingAppliable(a, b)
  {
  }

  // ---------------------------------------------------------------- ports

  function Listening(tag: string, listen: Raw): Inbound {
    Inbound(tag, 443, "vless", listen, Absent, Absent, Absent)
  }

  lemma {:induction false} KeptListsNothing(x: Inbound, newByTag: map<string, Inbound>, apiTag: string)
    requires Judge(x, newByTag, apiTag).Keep?
    ensures RemovedTags([x], newByTag, apiTag) == [] && ReplacedDocs([x], newByTag, apiTag) == []
    ensures AllGone([x], newByTag, apiTag) == {} && AllFresh([x], newByTag, apiTag) == {}
  {
    assert [x][..0] == [];
    assert RemovedTags([], newByTag, apiTag) == [] && ReplacedDocs([], newByTag, apiTag) == [];
    assert AllGone([], newByTag, apiTag) == {} && AllFresh([], newByTag, apiTag) == {};
  }

  lemma {:induction false} OneAdded(x: Inbound, y: Inbound, apiTag: string)
    requires x.tag != y.tag && Addable(y, apiTag)
    ensures AddedDocs([x, y], map[x.tag := x], apiTag) == [MarshalInbound(y).value]
  {
    assert [x, y][..1] == [x] && [x][..0] == [];
    assert AddedDocs([x], map[x.tag := x], apiTag) == [];
  }

  function OneInbound(x: Inbound): Config {
    EMPTY.(inbounds := [x])
  }

  function TwoInbounds(x: Inbound, y: Inbound): Config {
    EMPTY.(inbounds := [x, y])
  }

  function Another(y: Inbound): Plan
    requires MarshalInbound(y).Some?
  {
    Plan([], [MarshalInbound(y).value], [], [], [], [], None)
  }

  lemma {:induction false} AnotherIsIndexed(x: Inbound, y: Inbound)
    requires x.tag != "" && y.tag != "" && x.tag != y.tag
    ensures IndexInbounds(OneInbound(x).inbounds, map[]) == Some(map[x.tag := x])
    ensures IndexInbounds(TwoInbounds(x, y).inbounds, map[]) == Some(map[x.tag := x, y.tag := y])
  {
    OneIndexed(x);
    BothIndexed(x, y);
  }

  lemma {:induction false} AnotherIsAccepted(x: Inbound, y: Inbound)
    requires x.tag != "" && y.tag != "" && x.tag != y.tag && Addable(y, "api")
    ensures HotReloadable(OneInbound(x), TwoInbounds(x, y))
  {
    AnotherIsIndexed(x, y);
    assert Judge(x, map[x.tag := x, y.tag := y], "api").Keep?;
  }

  lemma {:induction false} AnotherIsListed(x: Inbound, y: Inbound)
    requires x.tag != "" && y.tag != "" && x.tag != y.tag && Addable(y, "api")
    requires HotReloadable(OneInbound(x), TwoInbounds(x, y))
    ensures Planned(OneInbound(x), TwoInbounds(x, y), Another(y))
  {
    AnotherIsIndexed(x, y);
    KeptListsNothing(x, map[x.tag := x, y.tag := y], "api");
    OneAdded(x, y, "api");
  }

  lemma {:induction false} BothIndexed(x: Inbound, y: Inbound)
    requires x.tag != "" && y.tag != "" && x.tag != y.tag
    ensures IndexInbounds([x, y], map[]) == Some(map[x.tag := x, y.tag := y])
  {
    var one := map[x.tag := x];
    assert [x, y][1..] == [y] && [y][1..] == [];
    assert IndexInbounds([x, y], map[]) == IndexInbounds([y], one);
    assert IndexInbounds([y], one) == IndexInbounds([], one[y.tag := y]);
    assert one[y.tag := y] == map[x.tag := x, y.tag := y];
  }

  /** The planner does not look at ports: whatever conflicts with a running inbound is accepted and
      refused by the core. */
  lemma {:induction false} TakenPortStops(x: Inbound, y: Inbound)
    requires x.tag != "" && y.tag != "" && x.tag != y.tag && Addable(y, "api") && Conflict(Load(x), Load(y))
    ensures HotReloadable(OneInbound(x), TwoInbounds(x, y)) && Planned(OneInbound(x), TwoInbounds(x, y), Another(y))
    ensures Loadable(OneInbound(x)) && Execute(Start(OneInbound(x)), Another(y)) == None
  {
    AnotherIsAccepted(x, y);
    AnotherIsListed(x, y);
    AnotherIsObstructed(x, y);
    AcceptedDiffLands(OneInbound(x), TwoInbounds(x, y), Another(y));
  }

  lemma {:induction false} AnotherIsObstructed(x: Inbound, y: Inbound)
    requires x.tag != "" && y.tag != "" && x.tag != y.tag && Addable(y, "api") && Conflict(Load(x), Load(y))
    requires InboundsReloadable(OneInbound(x), TwoInbounds(x, y))
    ensures !PortsFree(OneInbound(x), TwoInbounds(x, y))
  {
    AnotherIsIndexed(x, y);
    assert Vacant(map[x.tag := x], map[x.tag := x, y.tag := y], "api", y.tag);
  }

  /** For example one that listens everywhere on a port, and one on a single address of it. */
  lemma {:induction false} EverywhereConflicts()
    ensures var x, y := Listening("x", Absent), Listening("y", Text("", Str("127.0.0.1"), false));
      Conflict(Load(x), Load(y)) && Addable(y, "api")
  {
  }
}
