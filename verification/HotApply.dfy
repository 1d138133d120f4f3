/** The running core as the API sees it, and what an accepted diff does to it. */
module HotApply {
  import opened Wrappers
  import opened JsonModel
  import opened HotDiff
  import opened Listeners

  /** The settings of a running handler: addressable clients keyed by email, or one section. */
  datatype Settings = Plain(section: Section) | Clients(rest: map<string, Json>, users: map<string, Json>)

  datatype Handler = Handler(
    protocol: string, port: int, listen: Section, stream: Section, sniffing: Section, settings: Settings)

  /** What the core was started with and cannot be changed while it runs. */
  datatype Statics = Statics(
    log: Section, dns: Section, transport: Section, policy: Section, api: Section, stats: Section,
    reverse: Section, fakedns: Section, observatory: Section, burstObservatory: Section,
    metrics: Section, geodata: Section, env: Section)

  /** `primary` is the default outbound: the first handler added while there was none. */
  datatype Core = Core(
    statics: Statics, inbounds: map<string, Handler>,
    outbounds: map<string, Json>, primary: Option<string>, routing: Section)

  predicate ZeroValue(v: Json) {
    v == Null || v == Str("") || v == Num("0") || v == Bool(false)
  }

  /** What the core reads from a client: decoding into a Go struct cannot tell a field at its zero
      value from one that is missing. */
  function AsRead(client: Json): Json {
    if client.Obj? then Obj(map k | k in client.fields && !ZeroValue(client.fields[k]) :: client.fields[k]) else client
  }

  function Registered(clients: map<string, Json>): map<string, Json> {
    map e | e in clients :: AsRead(clients[e])
  }

  function LoadSettings(s: Section): Settings {
    if s.Parsed? && SplitValue(s.value).Some? then
      Clients(SplitValue(s.value).value.rest, Registered(SplitValue(s.value).value.clients))
    else
      Plain(s)
  }

  /** The handler an inbound starts as: independent of JSON layout and of the order of clients. */
  function Load(ib: Inbound): Handler {
    Handler(ib.protocol, ib.port, Canon(ib.listen), Canon(ib.stream), Canon(ib.sniffing),
            LoadSettings(Canon(ib.settings)))
  }

  function LoadDoc(doc: InboundDoc): Handler {
    Handler(doc.protocol, doc.port, Parsed(doc.listen), Parsed(doc.stream), Parsed(doc.sniffing),
            LoadSettings(Parsed(doc.settings)))
  }

  predicate Loadable(cfg: Config) {
    IndexInbounds(cfg.inbounds, map[]).Some? && OutboundsOf(cfg.outbounds).Some?
  }

  function LoadInbounds(byTag: map<string, Inbound>): map<string, Handler> {
    map t | t in byTag :: Load(byTag[t])
  }

  function LoadStatics(cfg: Config): Statics {
    Statics(
      Canon(cfg.log), Canon(cfg.dns), Canon(cfg.transport), Canon(cfg.policy), Canon(cfg.api), Canon(cfg.stats),
      Canon(cfg.reverse), Canon(cfg.fakedns), Canon(cfg.observatory), Canon(cfg.burstObservatory),
      Canon(cfg.metrics), Canon(cfg.geodata), Canon(cfg.env))
  }

  /** The core a configuration starts. */
  function Start(cfg: Config): Core
    requires Loadable(cfg)
  {
    var outs := OutboundsOf(cfg.outbounds).value;
    Core(LoadStatics(cfg),
         LoadInbounds(IndexInbounds(cfg.inbounds, map[]).value),
         ByTag(outs),
         if outs == [] then None else Some(outs[0].tag),
         Canon(cfg.routing))
  }

  // ---------------------------------------------------------------- the API, one call at a time

  /** AlterInbound with RemoveUserOperation. */
  function RemoveUser(inb: map<string, Handler>, op: UserOp): Option<map<string, Handler>> {
    if op.tag in inb && inb[op.tag].settings.Clients? && op.email in inb[op.tag].settings.users then
      Some(inb[op.tag := Without(inb[op.tag], {op.email})])
    else
      None
  }

  function RequiredString(user: map<string, Json>, key: string): Option<string> {
    if key in user && user[key].Str? then Some(user[key].s) else None
  }

  function OptionalString(user: map<string, Json>, key: string): Option<string> {
    if key !in user || user[key].Null? then Some("") else RequiredString(user, key)
  }

  /** The planner keeps numbers as their digits, so none of a test seed is recognized and each
      arrives as zero; `testpre` is never recognized. */
  function SentSeed(user: map<string, Json>): map<string, Json> {
    if "testseed" in user && user["testseed"].Arr? && |user["testseed"].items| >= 4 then
      map["testseed" := Arr(seq(|user["testseed"].items|, _ => Num("0")))]
    else
      map[]
  }

  /** buildUserAccount, for the protocols whose users the planner edits. */
  function BuildUserAccount(protocol: string, user: map<string, Json>): Option<map<string, Json>> {
    if protocol == "vmess" then
      var id :- RequiredString(user, "id");
      Some(map["id" := Str(id)])
    else if protocol == "vless" then
      var id :- RequiredString(user, "id");
      var flow :- OptionalString(user, "flow");
      Some(map["id" := Str(id), "flow" := Str(flow)] + SentSeed(user))
    else if protocol == "trojan" then
      var password :- RequiredString(user, "password");
      Some(map["password" := Str(password)])
    else
      None
  }

  /** The client the core hears of: the email and the account built for the protocol, whatever
      else the configuration says of it. None when a string the account needs is missing. */
  function Sent(protocol: string, user: Json): Option<Json> {
    if !user.Obj? then None
    else
      var email :- RequiredString(user.fields, "email");
      var account :- BuildUserAccount(protocol, user.fields);
      Some(AsRead(Obj(account["email" := Str(email)])))
  }

  function SentBy(op: UserOp): Option<Json> {
    if op.user.Some? then Sent(op.protocol, op.user.value) else None
  }

  /** The call describes the client as completely as the configuration does. */
  predicate Conveyed(op: UserOp) {
    op.user.Some? && Sent(op.protocol, op.user.value) == Some(AsRead(op.user.value))
  }

  /** AlterInbound with AddUserOperation: the client as sent is filed under its email. */
  function AddUser(inb: map<string, Handler>, op: UserOp): Option<map<string, Handler>> {
    if && op.tag in inb && inb[op.tag].settings.Clients?
       && op.email !in inb[op.tag].settings.users
       && op.protocol == inb[op.tag].protocol
       && op.user.Some? && ClientEmail(op.user.value) == op.email && SentBy(op).Some?
    then
      Some(inb[op.tag := With(inb[op.tag], map[op.email := SentBy(op).value])])
    else
      None
  }

  predicate HasString(user: map<string, Json>, key: string) {
    key in user && user[key].Str?
  }

  /** An account of each protocol can be built exactly when the client has the string it is made of,
      and no flow that is something else than a string; it holds those strings as they are. */
  lemma {:induction false} AccountsExactly(user: map<string, Json>)
    ensures BuildUserAccount("vmess", user).Some? <==> HasString(user, "id")
    ensures BuildUserAccount("vless", user).Some? <==>
      HasString(user, "id") && ("flow" !in user || user["flow"] == Null || user["flow"].Str?)
    ensures BuildUserAccount("trojan", user).Some? <==> HasString(user, "password")
    ensures BuildUserAccount("vmess", user).Some? ==> BuildUserAccount("vmess", user).value["id"] == user["id"]
    ensures BuildUserAccount("vless", user).Some? ==>
      var account := BuildUserAccount("vless", user).value;
      account["id"] == user["id"] && account["flow"] == if HasString(user, "flow") then user["flow"] else Str("")
    ensures BuildUserAccount("trojan", user).Some? ==> BuildUserAccount("trojan", user).value["password"] == user["password"]
  {
  }

  function Without(h: Handler, emails: set<string>): Handler {
    if h.settings.Clients? then h.(settings := Clients(h.settings.rest, h.settings.users - emails)) else h
  }

  function With(h: Handler, users: map<string, Json>): Handler {
    if h.settings.Clients? then h.(settings := Clients(h.settings.rest, h.settings.users + users)) else h
  }

  function DelInbound(inb: map<string, Handler>, tag: string): Option<map<string, Handler>> {
    if tag in inb then Some(inb - {tag}) else None
  }

  function TransportsOf(h: Handler): Transports {
    InboundTransports(h.protocol, h.stream, if h.settings.Clients? then h.settings.rest else FieldsOf(h.settings.section))
  }

  /** Two handlers that would listen at one place. */
  predicate Conflict(x: Handler, y: Handler) {
    && x.port == y.port && ListenOverlaps(ListenOf(x.listen), ListenOf(y.listen))
    && ((TransportsOf(x).tcp && TransportsOf(y).tcp) || (TransportsOf(x).udp && TransportsOf(y).udp))
  }

  /** Handlers conflict exactly when they would listen on one port of an address in common, over a
      transport in common. */
  lemma {:induction false} ConflictIs(x: Handler, y: Handler)
    ensures Conflict(x, y) <==>
      && x.port == y.port
      && (ListenOf(x.listen) == ListenOf(y.listen) || ListenOf(x.listen) in {"", "0.0.0.0", "::", "::0"}
          || ListenOf(y.listen) in {"", "0.0.0.0", "::", "::0"})
      && ((TransportsOf(x).tcp && TransportsOf(y).tcp) || (TransportsOf(x).udp && TransportsOf(y).udp))
  {
    OverlapIs(ListenOf(x.listen), ListenOf(y.listen));
  }

  predicate Fits(inb: map<string, Handler>, h: Handler) {
    forall t | t in inb :: !Conflict(inb[t], h)
  }

  /** A handler is created under a free tag, and its listener binds a free address. */
  function AddInbound(inb: map<string, Handler>, doc: InboundDoc): Option<map<string, Handler>> {
    if doc.tag in inb || !Fits(inb, LoadDoc(doc)) then None else Some(inb[doc.tag := LoadDoc(doc)])
  }

  /** Removing the default outbound would leave the core without one. */
  function DelOutbound(core: Core, tag: string): Option<Core> {
    if tag in core.outbounds && core.primary != Some(tag) then
      Some(core.(outbounds := core.outbounds - {tag}))
    else
      None
  }

  function AddOutbound(core: Core, elem: Json): Option<Core> {
    var tag :- StringField(elem, "tag");
    if tag == "" || tag in core.outbounds then None
    else Some(core.(outbounds := core.outbounds[tag := elem],
                    primary := if core.primary == None then Some(tag) else core.primary))
  }

  /** RoutingService.AddRule without append: a core that started without a routing section has no
      such service; a core that has one replaces its rules and balancers and nothing else. */
  function ApplyRouting(core: Core, raw: Raw): Option<Core> {
    var v :- Unmarshal(raw);
    if core.routing.Parsed? && core.routing.value.Obj? && v.Obj? then
      var kept := core.routing.value.fields - {"rules", "balancers"};
      var sent := map k | k in v.fields && k in {"rules", "balancers"} :: v.fields[k];
      Some(core.(routing := Parsed(Obj(kept + sent))))
    else
      None
  }

  function RemoveUsers(inb: map<string, Handler>, ops: seq<UserOp>): Option<map<string, Handler>>
    decreases |ops|
  {
    if ops == [] then Some(inb)
    else
      var next :- RemoveUser(inb, ops[0]);
      RemoveUsers(next, ops[1..])
  }

  function AddUsers(inb: map<string, Handler>, ops: seq<UserOp>): Option<map<string, Handler>>
    decreases |ops|
  {
    if ops == [] then Some(inb)
    else
      var next :- AddUser(inb, ops[0]);
      AddUsers(next, ops[1..])
  }

  function DelInbounds(inb: map<string, Handler>, tags: seq<string>): Option<map<string, Handler>>
    decreases |tags|
  {
    if tags == [] then Some(inb)
    else
      var next :- DelInbound(inb, tags[0]);
      DelInbounds(next, tags[1..])
  }

  function AddInbounds(inb: map<string, Handler>, docs: seq<InboundDoc>): Option<map<string, Handler>>
    decreases |docs|
  {
    if docs == [] then Some(inb)
    else
      var next :- AddInbound(inb, docs[0]);
      AddInbounds(next, docs[1..])
  }

  function DelOutbounds(core: Core, tags: seq<string>): Option<Core>
    decreases |tags|
  {
    if tags == [] then Some(core)
    else
      var next :- DelOutbound(core, tags[0]);
      DelOutbounds(next, tags[1..])
  }

  function AddOutbounds(core: Core, elems: seq<Json>): Option<Core>
    decreases |elems|
  {
    if elems == [] then Some(core)
    else
      var next :- AddOutbound(core, elems[0]);
      AddOutbounds(next, elems[1..])
  }

  /** The core refuses to remove what is not there or to add what is there already, and to remove its
      default outbound, which stays the same whatever is added beside it. */
  lemma {:induction false} CallsAreStrict(core: Core, op: UserOp, tag: string, doc: InboundDoc, elem: Json)
    ensures tag !in core.inbounds ==> DelInbound(core.inbounds, tag).None?
    ensures doc.tag in core.inbounds ==> AddInbound(core.inbounds, doc).None?
    ensures tag !in core.outbounds || core.primary == Some(tag) ==> DelOutbound(core, tag).None?
    ensures StringField(elem, "tag") == Some(tag) && (tag == "" || tag in core.outbounds) ==> AddOutbound(core, elem).None?
    ensures AddOutbound(core, elem).Some? ==>
      AddOutbound(core, elem).value.primary == if core.primary.Some? then core.primary else StringField(elem, "tag")
    ensures var known := op.tag in core.inbounds && core.inbounds[op.tag].settings.Clients?
        && op.email in core.inbounds[op.tag].settings.users;
      && (!known ==> RemoveUser(core.inbounds, op).None?)
      && (known ==> AddUser(core.inbounds, op).None?)
    ensures op.tag in core.inbounds && core.inbounds[op.tag].protocol != op.protocol ==> AddUser(core.inbounds, op).None?
  {
  }

  /** The diff applied in the panel's order, removals first; none as soon as one call is illegal. */
  function Execute(core: Core, plan: Plan): Option<Core> {
    var trimmed :- RemoveUsers(core.inbounds, plan.removedUsers);
    var fewer :- DelInbounds(trimmed, plan.removedInboundTags);
    var routed :- DelOutbounds(core.(inbounds := fewer), plan.removedOutboundTags);
    var outs :- AddOutbounds(routed, plan.addedOutbounds);
    var more :- AddInbounds(outs.inbounds, plan.addedInbounds);
    var users :- AddUsers(more, plan.addedUsers);
    var done := outs.(inbounds := users);
    if plan.routingConfig.Some? then ApplyRouting(done, plan.routingConfig.value) else Some(done)
  }

  // ---------------------------------------------------------------- effect of each group of calls

  ghost predicate DistinctUsers(ops: seq<UserOp>) {
    forall i, j | 0 <= i < j < |ops| :: ops[i].tag != ops[j].tag || ops[i].email != ops[j].email
  }

  lemma {:induction false} DistinctTail(ops: seq<UserOp>)
    requires DistinctUsers(ops) && ops != []
    ensures DistinctUsers(ops[1..])
    ensures forall op | op in ops[1..] :: op in ops && (op.tag != ops[0].tag || op.email != ops[0].email)
  {
    forall op | op in ops[1..] ensures op in ops && (op.tag != ops[0].tag || op.email != ops[0].email) {
      var k :| 0 <= k < |ops[1..]| && ops[1..][k] == op;
      assert ops[k + 1] == op;
    }
  }

  function EmailsOf(ops: seq<UserOp>, tag: string): set<string> {
    if ops == [] then {}
    else (if ops[0].tag == tag then {ops[0].email} else {}) + EmailsOf(ops[1..], tag)
  }

  function UsersOf(ops: seq<UserOp>, tag: string): map<string, Json> {
    if ops == [] then map[]
    else
      (if ops[0].tag == tag && SentBy(ops[0]).Some? then map[ops[0].email := SentBy(ops[0]).value] else map[]) +
      UsersOf(ops[1..], tag)
  }

  lemma {:induction false} Twice(h: Handler, a: set<string>, b: set<string>, x: map<string, Json>, y: map<string, Json>)
    ensures Without(Without(h, a), b) == Without(h, a + b) && Without(h, {}) == h
    ensures With(With(h, x), y) == With(h, x + y) && With(h, map[]) == h
  {
    if h.settings.Clients? {
      assert (h.settings.users - a) - b == h.settings.users - (a + b);
      assert (h.settings.users + x) + y == h.settings.users + (x + y);
      assert h.settings.users - {} == h.settings.users && h.settings.users + map[] == h.settings.users;
    }
  }

  /** Calls about different users do not get in each other's way. */
  lemma {:induction false} UsersIndependent(inb: map<string, Handler>, op: UserOp, o: UserOp)
    requires op.tag != o.tag || op.email != o.email
    ensures RemoveUser(inb, op).Some? && RemoveUser(inb, o).Some? ==> RemoveUser(RemoveUser(inb, op).value, o).Some?
    ensures AddUser(inb, op).Some? && AddUser(inb, o).Some? ==> AddUser(AddUser(inb, op).value, o).Some?
  {
  }

  lemma {:induction false} RemoveUsersEffect(inb: map<string, Handler>, ops: seq<UserOp>)
    requires DistinctUsers(ops) && forall op | op in ops :: RemoveUser(inb, op).Some?
    ensures var r := RemoveUsers(inb, ops);
      && r.Some? && r.value.Keys == inb.Keys
      && forall t | t in inb :: r.value[t] == Without(inb[t], EmailsOf(ops, t))
    decreases |ops|
  {
    if ops == [] {
      forall t | t in inb ensures Without(inb[t], {}) == inb[t] {
        Twice(inb[t], {}, {}, map[], map[]);
      }
    } else {
      var op, rest := ops[0], ops[1..];
      var next := RemoveUser(inb, op).value;
      DistinctTail(ops);
      forall o | o in rest ensures RemoveUser(next, o).Some? {
        UsersIndependent(inb, op, o);
      }
      RemoveUsersEffect(next, rest);
      forall t | t in inb ensures RemoveUsers(inb, ops).value[t] == Without(inb[t], EmailsOf(ops, t)) {
        Twice(inb[t], {op.email}, EmailsOf(rest, t), map[], map[]);
        if op.tag != t {
          assert EmailsOf(ops, t) == EmailsOf(rest, t);
        }
      }
    }
  }

  /** Adding one user and then the rest is adding them all. */
  lemma {:induction false} AddedInTurn(h: Handler, ops: seq<UserOp>, t: string)
    requires ops != [] && SentBy(ops[0]).Some?
    ensures With(if ops[0].tag == t then With(h, map[ops[0].email := SentBy(ops[0]).value]) else h, UsersOf(ops[1..], t)) ==
      With(h, UsersOf(ops, t))
  {
    Twice(h, {}, {}, map[ops[0].email := SentBy(ops[0]).value], UsersOf(ops[1..], t));
    if ops[0].tag != t {
      assert UsersOf(ops, t) == UsersOf(ops[1..], t);
    }
  }

  lemma {:induction false} AddUsersRun(inb: map<string, Handler>, ops: seq<UserOp>)
    requires DistinctUsers(ops) && forall op | op in ops :: AddUser(inb, op).Some?
    ensures AddUsers(inb, ops).Some?
    decreases |ops|
  {
    if ops != [] {
      assert ops[0] in ops;
      DistinctTail(ops);
      forall o | o in ops[1..] ensures AddUser(AddUser(inb, ops[0]).value, o).Some? {
        UsersIndependent(inb, ops[0], o);
      }
      AddUsersRun(AddUser(inb, ops[0]).value, ops[1..]);
    }
  }

  lemma {:induction false} AddUsersAt(inb: map<string, Handler>, ops: seq<UserOp>, t: string)
    requires AddUsers(inb, ops).Some? && t in inb
    ensures t in AddUsers(inb, ops).value && AddUsers(inb, ops).value[t] == With(inb[t], UsersOf(ops, t))
    decreases |ops|
  {
    if ops == [] {
      Twice(inb[t], {}, {}, map[], map[]);
    } else {
      AddUsersAt(AddUser(inb, ops[0]).value, ops[1..], t);
      AddedInTurn(inb[t], ops, t);
    }
  }

  lemma {:induction false} AddUsersKeys(inb: map<string, Handler>, ops: seq<UserOp>)
    requires AddUsers(inb, ops).Some?
    ensures AddUsers(inb, ops).value.Keys == inb.Keys
    decreases |ops|
  {
    if ops != [] {
      AddUsersKeys(AddUser(inb, ops[0]).value, ops[1..]);
    }
  }

  lemma {:induction false} AddUsersEffect(inb: map<string, Handler>, ops: seq<UserOp>)
    requires DistinctUsers(ops) && forall op | op in ops :: AddUser(inb, op).Some?
    ensures var r := AddUsers(inb, ops);
      && r.Some? && r.value.Keys == inb.Keys
      && forall t | t in inb :: r.value[t] == With(inb[t], UsersOf(ops, t))
  {
    AddUsersRun(inb, ops);
    AddUsersKeys(inb, ops);
    forall t | t in inb ensures AddUsers(inb, ops).value[t] == With(inb[t], UsersOf(ops, t)) {
      AddUsersAt(inb, ops, t);
    }
  }

  /** The additions stop at the first client whose account cannot be built. */
  lemma {:induction false} AddedAreSent(inb: map<string, Handler>, ops: seq<UserOp>)
    requires AddUsers(inb, ops).Some?
    ensures forall op | op in ops :: SentBy(op).Some?
    decreases |ops|
  {
    if ops != [] {
      AddedAreSent(AddUser(inb, ops[0]).value, ops[1..]);
      assert forall op | op in ops :: op == ops[0] || op in ops[1..];
    }
  }

  lemma {:induction false} UsersOfIs(ops: seq<UserOp>, tag: string, email: string)
    requires DistinctUsers(ops) && forall op | op in ops :: SentBy(op).Some?
    ensures email in UsersOf(ops, tag) <==> exists op :: op in ops && op.tag == tag && op.email == email
    ensures forall op | op in ops && op.tag == tag && op.email == email ::
      email in UsersOf(ops, tag) && UsersOf(ops, tag)[email] == SentBy(op).value
  {
    if ops != [] {
      var rest := ops[1..];
      assert forall op | op in ops :: op == ops[0] || op in rest;
      assert ops[0] in ops;
      UsersOfIs(rest, tag, email);
      forall op | op in rest && ops[0].tag == tag && ops[0].email == email
        ensures !(op.tag == tag && op.email == email)
      {
        var k :| 0 <= k < |rest| && rest[k] == op;
        assert ops[k + 1] == op;
      }
    }
  }

  lemma {:induction false} DelInboundsEffect(inb: map<string, Handler>, tags: seq<string>)
    requires Distinct(tags)
    requires forall t | t in tags :: t in inb
    ensures DelInbounds(inb, tags) == Some(map t | t in inb && t !in tags :: inb[t])
    decreases |tags|
  {
    if tags == [] {
      assert inb == map t | t in inb && t !in tags :: inb[t];
    } else {
      DistinctRest(tags);
      var next := DelInbound(inb, tags[0]).value;
      DelInboundsEffect(next, tags[1..]);
      assert (map t | t in next && t !in tags[1..] :: next[t]) == map t | t in inb && t !in tags :: inb[t];
    }
  }

  /** None of the documents is in the way of a running handler or of another document. */
  ghost predicate DocsFit(inb: map<string, Handler>, docs: seq<InboundDoc>) {
    && (forall d | d in docs :: Fits(inb, LoadDoc(d)))
    && (forall i, j | 0 <= i < j < |docs| :: !Conflict(LoadDoc(docs[i]), LoadDoc(docs[j])))
  }

  lemma {:induction false} FitsGrown(inb: map<string, Handler>, tag: string, h: Handler, x: Handler)
    requires tag !in inb
    ensures Fits(inb[tag := h], x) <==> Fits(inb, x) && !Conflict(h, x)
  {
    var grown := inb[tag := h];
    if Fits(grown, x) {
      assert tag in grown;
      forall t | t in inb
        ensures !Conflict(inb[t], x)
      {
        assert t in grown && grown[t] == inb[t];
      }
    }
  }

  /** The documents fit exactly when the first does and the others fit beside it. */
  lemma {:induction false} DocsFitStep(inb: map<string, Handler>, docs: seq<InboundDoc>)
    requires docs != [] && docs[0].tag !in inb
    ensures DocsFit(inb, docs) <==>
      Fits(inb, LoadDoc(docs[0])) && DocsFit(inb[docs[0].tag := LoadDoc(docs[0])], docs[1..])
  {
    var first, rest := LoadDoc(docs[0]), docs[1..];
    var grown := inb[docs[0].tag := first];
    assert docs[0] in docs;
    forall d | d in rest
      ensures d in docs && (Fits(grown, LoadDoc(d)) <==> Fits(inb, LoadDoc(d)) && !Conflict(first, LoadDoc(d)))
    {
      FitsGrown(inb, docs[0].tag, first, LoadDoc(d));
    }
    if DocsFit(inb, docs) {
      forall d | d in rest
        ensures Fits(grown, LoadDoc(d))
      {
        var k :| 0 <= k < |rest| && rest[k] == d;
        assert docs[k + 1] == d;
      }
      forall i, j | 0 <= i < j < |rest|
        ensures !Conflict(LoadDoc(rest[i]), LoadDoc(rest[j]))
      {
        assert rest[i] == docs[i + 1] && rest[j] == docs[j + 1];
      }
    }
    if Fits(inb, first) && DocsFit(grown, rest) {
      forall d | d in docs
        ensures Fits(inb, LoadDoc(d))
      {
        assert d == docs[0] || d in rest;
      }
      forall i, j | 0 <= i < j < |docs|
        ensures !Conflict(LoadDoc(docs[i]), LoadDoc(docs[j]))
      {
        assert docs[j] == rest[j - 1] && rest[j - 1] in rest;
        if i > 0 {
          assert docs[i] == rest[i - 1];
        }
      }
    }
  }

  lemma {:induction false} RestIsFree(inb: map<string, Handler>, docs: seq<InboundDoc>, h: Handler)
    requires docs != [] && forall i, j | 0 <= i < j < |docs| :: docs[i].tag != docs[j].tag
    requires forall d | d in docs :: d.tag !in inb
    ensures forall d | d in docs[1..] :: d in docs && d.tag !in inb[docs[0].tag := h]
  {
    forall d | d in docs[1..]
      ensures d in docs && d.tag !in inb[docs[0].tag := h]
    {
      var k :| 0 <= k < |docs[1..]| && docs[1..][k] == d;
      assert docs[k + 1] == d;
    }
  }

  /** On free tags the additions run exactly when every listener finds its place free. */
  lemma {:induction false} AddInboundsFit(inb: map<string, Handler>, docs: seq<InboundDoc>)
    requires forall i, j | 0 <= i < j < |docs| :: docs[i].tag != docs[j].tag
    requires forall d | d in docs :: d.tag !in inb
    ensures AddInbounds(inb, docs).Some? <==> DocsFit(inb, docs)
    decreases |docs|
  {
    if docs != [] {
      assert docs[0] in docs;
      DocsFitStep(inb, docs);
      RestIsFree(inb, docs, LoadDoc(docs[0]));
      AddInboundsFit(inb[docs[0].tag := LoadDoc(docs[0])], docs[1..]);
    }
  }

  lemma {:induction false} AddInboundsKeep(inb: map<string, Handler>, docs: seq<InboundDoc>, t: string)
    requires AddInbounds(inb, docs).Some? && t in inb
    ensures t in AddInbounds(inb, docs).value && AddInbounds(inb, docs).value[t] == inb[t]
    decreases |docs|
  {
    if docs != [] {
      AddInboundsKeep(AddInbound(inb, docs[0]).value, docs[1..], t);
    }
  }

  lemma {:induction false} AddInboundsMake(inb: map<string, Handler>, docs: seq<InboundDoc>, d: InboundDoc)
    requires AddInbounds(inb, docs).Some? && d in docs
    ensures d.tag in AddInbounds(inb, docs).value && AddInbounds(inb, docs).value[d.tag] == LoadDoc(d)
    decreases |docs|
  {
    var next := AddInbound(inb, docs[0]).value;
    if d == docs[0] {
      AddInboundsKeep(next, docs[1..], d.tag);
    } else {
      AddInboundsMake(next, docs[1..], d);
    }
  }

  lemma {:induction false} AddInboundsOnly(inb: map<string, Handler>, docs: seq<InboundDoc>, t: string)
    requires AddInbounds(inb, docs).Some? && t in AddInbounds(inb, docs).value
    ensures t in inb || exists d :: d in docs && d.tag == t
    decreases |docs|
  {
    if docs != [] {
      AddInboundsOnly(AddInbound(inb, docs[0]).value, docs[1..], t);
      assert docs[0] in docs && forall d | d in docs[1..] :: d in docs;
    }
  }

  /** Documents on free tags, none in the way of another, add exactly their handlers. */
  lemma {:induction false} AddInboundsEffect(inb: map<string, Handler>, docs: seq<InboundDoc>)
    requires forall i, j | 0 <= i < j < |docs| :: docs[i].tag != docs[j].tag
    requires forall d | d in docs :: d.tag !in inb
    requires DocsFit(inb, docs)
    ensures var r := AddInbounds(inb, docs);
      && r.Some?
      && (forall t | t in inb :: t in r.value && r.value[t] == inb[t])
      && (forall d | d in docs :: d.tag in r.value && r.value[d.tag] == LoadDoc(d))
      && (forall t | t in r.value :: t in inb || exists d :: d in docs && d.tag == t)
  {
    AddInboundsFit(inb, docs);
    var done := AddInbounds(inb, docs).value;
    forall t | t in inb ensures t in done && done[t] == inb[t] {
      AddInboundsKeep(inb, docs, t);
    }
    forall d | d in docs ensures d.tag in done && done[d.tag] == LoadDoc(d) {
      AddInboundsMake(inb, docs, d);
    }
    forall t | t in done ensures t in inb || exists d :: d in docs && d.tag == t {
      AddInboundsOnly(inb, docs, t);
    }
  }

  lemma {:induction false} DelOutboundsEffect(core: Core, tags: seq<string>)
    requires Distinct(tags)
    requires forall t | t in tags :: t in core.outbounds && core.primary != Some(t)
    ensures DelOutbounds(core, tags) ==
      Some(core.(outbounds := map t | t in core.outbounds && t !in tags :: core.outbounds[t]))
    decreases |tags|
  {
    if tags == [] {
      assert core.outbounds == map t | t in core.outbounds && t !in tags :: core.outbounds[t];
    } else {
      DistinctRest(tags);
      var next := DelOutbound(core, tags[0]).value;
      DelOutboundsEffect(next, tags[1..]);
      assert (map t | t in next.outbounds && t !in tags[1..] :: next.outbounds[t]) ==
             map t | t in core.outbounds && t !in tags :: core.outbounds[t];
    }
  }

  function TagOf(elem: Json): string {
    var tag := StringField(elem, "tag");
    if tag.Some? then tag.value else ""
  }

  ghost predicate DistinctElems(elems: seq<Json>) {
    forall i, j | 0 <= i < j < |elems| :: TagOf(elems[i]) != TagOf(elems[j])
  }

  lemma {:induction false} AddOutboundsRun(core: Core, elems: seq<Json>)
    requires core.primary.Some? && DistinctElems(elems)
    requires forall e | e in elems :: TagOf(e) != "" && TagOf(e) !in core.outbounds
    ensures AddOutbounds(core, elems).Some?
    decreases |elems|
  {
    if elems != [] {
      var rest := elems[1..];
      assert elems[0] in elems;
      var next := AddOutbound(core, elems[0]).value;
      forall e | e in rest ensures TagOf(e) != "" && TagOf(e) !in next.outbounds {
        var k :| 0 <= k < |rest| && rest[k] == e;
        assert elems[k + 1] == e && e in elems;
      }
      AddOutboundsRun(next, rest);
    }
  }

  lemma {:induction false} AddOutboundsKeep(core: Core, elems: seq<Json>, t: string)
    requires core.primary.Some? && AddOutbounds(core, elems).Some? && t in core.outbounds
    ensures var done := AddOutbounds(core, elems).value.outbounds; t in done && done[t] == core.outbounds[t]
    decreases |elems|
  {
    if elems != [] {
      AddOutboundsKeep(AddOutbound(core, elems[0]).value, elems[1..], t);
    }
  }

  lemma {:induction false} AddOutboundsMake(core: Core, elems: seq<Json>, e: Json)
    requires core.primary.Some? && AddOutbounds(core, elems).Some? && e in elems
    ensures var done := AddOutbounds(core, elems).value.outbounds; TagOf(e) in done && done[TagOf(e)] == e
    decreases |elems|
  {
    var next := AddOutbound(core, elems[0]).value;
    if e == elems[0] {
      AddOutboundsKeep(next, elems[1..], TagOf(e));
    } else {
      AddOutboundsMake(next, elems[1..], e);
    }
  }

  lemma {:induction false} AddOutboundsOnly(core: Core, elems: seq<Json>, t: string)
    requires core.primary.Some? && AddOutbounds(core, elems).Some? && t in AddOutbounds(core, elems).value.outbounds
    ensures t in core.outbounds || exists e :: e in elems && TagOf(e) == t
    decreases |elems|
  {
    if elems != [] {
      AddOutboundsOnly(AddOutbound(core, elems[0]).value, elems[1..], t);
      assert elems[0] in elems && forall e | e in elems[1..] :: e in elems;
    }
  }

  lemma {:induction false} AddOutboundsSpare(core: Core, elems: seq<Json>)
    requires core.primary.Some? && AddOutbounds(core, elems).Some?
    ensures AddOutbounds(core, elems).value == core.(outbounds := AddOutbounds(core, elems).value.outbounds)
    decreases |elems|
  {
    if elems != [] {
      AddOutboundsSpare(AddOutbound(core, elems[0]).value, elems[1..]);
    }
  }

  /** Elements on free tags add exactly themselves and touch nothing else. */
  lemma {:induction false} AddOutboundsEffect(core: Core, elems: seq<Json>)
    requires core.primary.Some?
    requires DistinctElems(elems)
    requires forall e | e in elems :: TagOf(e) != "" && TagOf(e) !in core.outbounds
    ensures var r := AddOutbounds(core, elems);
      && r.Some? && r.value == core.(outbounds := r.value.outbounds)
      && (forall t | t in core.outbounds :: t in r.value.outbounds && r.value.outbounds[t] == core.outbounds[t])
      && (forall e | e in elems :: TagOf(e) in r.value.outbounds && r.value.outbounds[TagOf(e)] == e)
      && (forall t | t in r.value.outbounds :: t in core.outbounds || exists e :: e in elems && TagOf(e) == t)
  {
    AddOutboundsRun(core, elems);
    AddOutboundsSpare(core, elems);
    var done := AddOutbounds(core, elems).value.outbounds;
    forall t | t in core.outbounds ensures t in done && done[t] == core.outbounds[t] {
      AddOutboundsKeep(core, elems, t);
    }
    forall e | e in elems ensures TagOf(e) in done && done[TagOf(e)] == e {
      AddOutboundsMake(core, elems, e);
    }
    forall t | t in done ensures t in core.outbounds || exists e :: e in elems && TagOf(e) == t {
      AddOutboundsOnly(core, elems, t);
    }
  }
}
