/** Exactly which changes the planner accepts, said of the two configurations themselves. */
module HotAcceptance {
  import opened Wrappers
  import opened JsonModel
  import opened HotDiff
  import opened HotApply
  import opened HotTheorem

  // ---------------------------------------------------------------- two inbounds of one tag

  /** The inbounds differ in layout at most. */
  predicate SameMeaning(x: Inbound, y: Inbound) {
    && x.tag == y.tag && x.port == y.port && x.protocol == y.protocol
    && Canon(x.listen) == Canon(y.listen) && Canon(x.settings) == Canon(y.settings)
    && Canon(x.stream) == Canon(y.stream) && Canon(x.sniffing) == Canon(y.sniffing)
  }

  /** A list of clients that can be told apart by their emails. */
  ghost predicate Addressable(clients: seq<Json>) {
    && (forall i | 0 <= i < |clients| :: HasEmail(clients[i]))
    && (forall i, j | 0 <= i < j < |clients| :: clients[i].fields["email"] != clients[j].fields["email"])
  }

  predicate HasEmail(client: Json) {
    client.Obj? && "email" in client.fields && client.fields["email"].Str? && client.fields["email"].s != ""
  }

  lemma {:induction false} AddressableIsIndexed(items: seq<Json>, done: map<string, Json>)
    requires Addressable(items) && forall i | 0 <= i < |items| :: items[i].fields["email"].s !in done
    ensures IndexClients(items, done).Some?
    decreases |items|
  {
    if items != [] {
      assert HasEmail(items[0]);
      var rest, more := items[1..], done[ClientEmail(items[0]) := items[0]];
      forall i | 0 <= i < |rest|
        ensures HasEmail(rest[i]) && rest[i].fields["email"].s !in more
      {
        assert rest[i] == items[i + 1];
        assert items[0].fields["email"] != items[i + 1].fields["email"];
      }
      AddressableIsIndexed(rest, more);
    }
  }

  /** An object with a list of clients that can be told apart, whatever follows it. */
  ghost predicate HoldsClients(raw: Raw) {
    && raw.Text? && raw.value.Obj?
    && "clients" in raw.value.fields && raw.value.fields["clients"].Arr?
    && Addressable(raw.value.fields["clients"].items)
  }

  /** Inbounds of a protocol whose users can be edited that differ in their clients at most. */
  ghost predicate Editable(x: Inbound, y: Inbound) {
    && (x.protocol == "vless" || x.protocol == "vmess" || x.protocol == "trojan")
    && x.tag == y.tag && x.port == y.port && x.protocol == y.protocol
    && Canon(x.listen) == Canon(y.listen) && Canon(x.stream) == Canon(y.stream) && Canon(x.sniffing) == Canon(y.sniffing)
    && HoldsClients(x.settings) && HoldsClients(y.settings)
    && x.settings.value.fields - {"clients"} == y.settings.value.fields - {"clients"}
  }

  /** Each section is missing or one value with nothing after it. */
  predicate WholeSections(y: Inbound) {
    && (y.listen.Absent? || (y.listen.Text? && !y.listen.trailing))
    && (y.settings.Absent? || (y.settings.Text? && !y.settings.trailing))
    && (y.stream.Absent? || (y.stream.Text? && !y.stream.trailing))
    && (y.sniffing.Absent? || (y.sniffing.Text? && !y.sniffing.trailing))
  }

  lemma {:induction false} IndexedIsAddressable(items: seq<Json>, done: map<string, Json>)
    requires IndexClients(items, done).Some?
    ensures Addressable(items) && forall i | 0 <= i < |items| :: items[i].fields["email"].s !in done
    decreases |items|
  {
    if items != [] {
      var rest, more := items[1..], done[ClientEmail(items[0]) := items[0]];
      IndexedIsAddressable(rest, more);
      assert forall i | 0 < i < |items| :: items[i] == rest[i - 1];
      assert HasEmail(items[0]);
    }
  }

  lemma {:induction false} SplitsExactly(raw: Raw)
    ensures Split(raw).Some? <==> HoldsClients(raw)
    ensures Split(raw).Some? ==> Split(raw).value.rest == raw.value.fields - {"clients"}
  {
    if raw.Text? && raw.value.Obj? && "clients" in raw.value.fields && raw.value.fields["clients"].Arr? {
      var items := raw.value.fields["clients"].items;
      if IndexClients(items, map[]).Some? {
        IndexedIsAddressable(items, map[]);
      }
      if Addressable(items) {
        AddressableIsIndexed(items, map[]);
      }
    }
  }

  lemma {:induction false} EditableIs(x: Inbound, y: Inbound)
    ensures ClientsOnly(x, y) <==> Editable(x, y)
  {
    SplitsExactly(x.settings);
    SplitsExactly(y.settings);
  }

  lemma {:induction false} WholeIsMarshalled(y: Inbound)
    ensures MarshalInbound(y).Some? <==> WholeSections(y)
  {
  }

  predicate Protected(ib: Inbound, apiTag: string) {
    ib.tag == "api" || ib.tag == apiTag
  }

  /** The change of an inbound can be applied to a running core: no client carries a reverse tag, and
      the clients can be edited in place or the inbound, without REALITY, can be created anew. */
  ghost predicate Changeable(x: Inbound, y: Inbound) {
    && !HasReverseTag(x) && !HasReverseTag(y)
    && (Editable(x, y) || (!SaysReality(x) && !SaysReality(y) && WholeSections(y)))
  }

  lemma {:induction false} VerdictOnPair(x: Inbound, y: Inbound, newByTag: map<string, Inbound>, apiTag: string)
    requires x.tag in newByTag && newByTag[x.tag] == y && x.tag == y.tag
    ensures Judge(x, newByTag, apiTag).Refuse? <==> !SameMeaning(x, y) && (Protected(x, apiTag) || !Changeable(x, y))
    ensures Judge(x, newByTag, apiTag).EditUsers? <==>
      !SameMeaning(x, y) && !Protected(x, apiTag) && Changeable(x, y) && Editable(x, y)
    ensures Judge(x, newByTag, apiTag).Replace? <==>
      !SameMeaning(x, y) && !Protected(x, apiTag) && Changeable(x, y) && !Editable(x, y)
  {
    ReverseIs(x);
    ReverseIs(y);
    RealityIs(x);
    RealityIs(y);
    EditableIs(x, y);
    WholeIsMarshalled(y);
  }

  // ---------------------------------------------------------------- all inbounds

  ghost predicate TagsOnce(ibs: seq<Inbound>) {
    && (forall i | 0 <= i < |ibs| :: ibs[i].tag != "")
    && (forall i, j | 0 <= i < j < |ibs| :: ibs[i].tag != ibs[j].tag)
  }

  lemma {:induction false} OnceIsIndexed(ibs: seq<Inbound>, done: map<string, Inbound>)
    requires TagsOnce(ibs) && forall i | 0 <= i < |ibs| :: ibs[i].tag !in done
    ensures IndexInbounds(ibs, done).Some?
    decreases |ibs|
  {
    if ibs != [] {
      var rest := ibs[1..];
      assert forall i | 0 <= i < |rest| :: rest[i] == ibs[i + 1];
      OnceIsIndexed(rest, done[ibs[0].tag := ibs[0]]);
    }
  }

  lemma {:induction false} IndexedHasTags(ibs: seq<Inbound>, done: map<string, Inbound>)
    requires IndexInbounds(ibs, done).Some?
    ensures forall i | 0 <= i < |ibs| :: ibs[i].tag != ""
    decreases |ibs|
  {
    if ibs != [] {
      IndexedHasTags(ibs[1..], done[ibs[0].tag := ibs[0]]);
      assert forall i | 0 < i < |ibs| :: ibs[i] == ibs[1..][i - 1];
    }
  }

  lemma {:induction false} IndexedExactly(ibs: seq<Inbound>)
    ensures IndexInbounds(ibs, map[]).Some? <==> TagsOnce(ibs)
  {
    if TagsOnce(ibs) {
      OnceIsIndexed(ibs, map[]);
    }
    if IndexInbounds(ibs, map[]).Some? {
      IndexedInbounds(ibs, map[]);
      IndexedHasTags(ibs, map[]);
    }
  }

  /** No inbound of the list has the tag. */
  ghost predicate Lacks(ibs: seq<Inbound>, tag: string) {
    forall i | 0 <= i < |ibs| :: ibs[i].tag != tag
  }

  /** What may become of one old inbound. */
  ghost predicate OldMayChange(x: Inbound, news: seq<Inbound>, apiTag: string) {
    && (Lacks(news, x.tag) ==> !Protected(x, apiTag))
    && (forall j | 0 <= j < |news| && news[j].tag == x.tag ::
          SameMeaning(x, news[j]) || (!Protected(x, apiTag) && Changeable(x, news[j])))
  }

  /** A new inbound may be added. */
  ghost predicate NewMayCome(y: Inbound, olds: seq<Inbound>, apiTag: string) {
    Lacks(olds, y.tag) ==> !Protected(y, apiTag) && WholeSections(y)
  }

  lemma {:induction false} IndexLacks(ibs: seq<Inbound>, byTag: map<string, Inbound>, tag: string)
    requires IndexInbounds(ibs, map[]) == Some(byTag)
    ensures Lacks(ibs, tag) <==> tag !in byTag
    ensures forall j | 0 <= j < |ibs| && ibs[j].tag == tag :: tag in byTag && byTag[tag] == ibs[j]
  {
    IndexedInbounds(ibs, map[]);
    if tag in byTag {
      assert byTag[tag] in ibs;
    }
  }

  lemma {:induction false} VerdictOnOne(x: Inbound, news: seq<Inbound>, newByTag: map<string, Inbound>, apiTag: string)
    requires IndexInbounds(news, map[]) == Some(newByTag)
    ensures Judge(x, newByTag, apiTag).Refuse? <==> !OldMayChange(x, news, apiTag)
  {
    IndexLacks(news, newByTag, x.tag);
    if x.tag in newByTag {
      IndexedInbounds(news, map[]);
      var y := newByTag[x.tag];
      var j :| 0 <= j < |news| && news[j] == y;
      VerdictOnPair(x, y, newByTag, apiTag);
    }
  }

  /** The changes of inbounds are accepted exactly when no tag is empty or repeated, every old inbound
      stays or may go or change, and every new one may come. */
  lemma {:induction false} InboundsAcceptedExactly(a: Config, b: Config)
    ensures var apiTag := ApiTagFromConfig(b.api);
      InboundsReloadable(a, b) <==>
        && TagsOnce(a.inbounds) && TagsOnce(b.inbounds)
        && (forall i | 0 <= i < |a.inbounds| :: OldMayChange(a.inbounds[i], b.inbounds, apiTag))
        && (forall j | 0 <= j < |b.inbounds| :: NewMayCome(b.inbounds[j], a.inbounds, apiTag))
  {
    IndexedExactly(a.inbounds);
    IndexedExactly(b.inbounds);
    var oldIndex, newIndex, apiTag := IndexInbounds(a.inbounds, map[]), IndexInbounds(b.inbounds, map[]), ApiTagFromConfig(b.api);
    if oldIndex.Some? && newIndex.Some? {
      forall i | 0 <= i < |a.inbounds|
        ensures Judge(a.inbounds[i], newIndex.value, apiTag).Refuse? <==> !OldMayChange(a.inbounds[i], b.inbounds, apiTag)
      {
        VerdictOnOne(a.inbounds[i], b.inbounds, newIndex.value, apiTag);
      }
      forall j | 0 <= j < |b.inbounds|
        ensures (b.inbounds[j].tag in oldIndex.value || Addable(b.inbounds[j], apiTag)) <==> NewMayCome(b.inbounds[j], a.inbounds, apiTag)
      {
        IndexLacks(a.inbounds, oldIndex.value, b.inbounds[j].tag);
        WholeIsMarshalled(b.inbounds[j]);
      }
    }
  }

  lemma {:induction false} EditedStays(x: Inbound, y: Inbound, oldByTag: map<string, Inbound>, newByTag: map<string, Inbound>,
                                       apiTag: string, plan: Plan)
    requires Editable(x, y) && PlanByTag(oldByTag, newByTag, apiTag, plan)
    requires x.tag in oldByTag && oldByTag[x.tag] == x && x.tag in newByTag && newByTag[x.tag] == y
    ensures x.tag !in plan.removedInboundTags
    ensures forall d | d in plan.addedInbounds :: d.tag != x.tag
  {
    VerdictOnPair(x, y, newByTag, apiTag);
    assert !Leaves(x, newByTag, apiTag);
    assert !Vacant(oldByTag, newByTag, apiTag, x.tag);
  }

  /** An inbound that differs in its clients only is not created anew, so that its listener and its
      other clients are left alone. */
  lemma {:induction false} ClientsAreEditedInPlace(a: Config, b: Config, plan: Plan, x: Inbound, y: Inbound)
    requires HotReloadable(a, b) && Planned(a, b, plan)
    requires x in a.inbounds && y in b.inbounds && Editable(x, y)
    ensures x.tag !in plan.removedInboundTags
    ensures forall d | d in plan.addedInbounds :: d.tag != x.tag
  {
    PlannedInbounds(a, b, plan);
    IndexedInbounds(a.inbounds, map[]);
    IndexedInbounds(b.inbounds, map[]);
    EditedStays(x, y, IndexInbounds(a.inbounds, map[]).value, IndexInbounds(b.inbounds, map[]).value,
                ApiTagFromConfig(b.api), plan);
  }

  /** Users are only edited where the core's API can build their accounts. */
  lemma {:induction false} UserOpsAreOfEditables(a: Config, b: Config, plan: Plan, op: UserOp)
    requires HotReloadable(a, b) && Planned(a, b, plan) && (op in plan.removedUsers || op in plan.addedUsers)
    ensures op.protocol == "vless" || op.protocol == "vmess" || op.protocol == "trojan"
  {
    PlannedInbounds(a, b, plan);
    var oldByTag, newByTag := IndexInbounds(a.inbounds, map[]).value, IndexInbounds(b.inbounds, map[]).value;
    EditableIs(oldByTag[op.tag], newByTag[op.tag]);
  }

  // ---------------------------------------------------------------- outbounds and routing

  /** A section that is missing, null, or a list, each with nothing after it. */
  predicate IsList(raw: Raw) {
    raw.Absent? || (raw.Text? && !raw.trailing && (raw.value.Null? || raw.value.Arr?))
  }

  function Elements(raw: Raw): seq<Json> {
    if raw.Text? && raw.value.Arr? then raw.value.items else []
  }

  predicate HasTag(v: Json) {
    v.Obj? && "tag" in v.fields && v.fields["tag"].Str? && v.fields["tag"].s != ""
  }

  /** Every element has a tag of its own. */
  ghost predicate ElementsOnce(elems: seq<Json>) {
    && (forall i | 0 <= i < |elems| :: HasTag(elems[i]))
    && (forall i, j | 0 <= i < j < |elems| :: elems[i].fields["tag"] != elems[j].fields["tag"])
  }

  lemma {:induction false} TagIs(v: Json)
    ensures StringField(v, "tag").Some? && StringField(v, "tag").value != "" <==> HasTag(v)
    ensures HasTag(v) ==> StringField(v, "tag") == Some(v.fields["tag"].s)
  {
  }

  lemma {:induction false} TagsSnoc(done: seq<OutboundEntry>, e: OutboundEntry)
    ensures Tags(done + [e]) == Tags(done) + {e.tag}
  {
    forall t
      ensures t in Tags(done + [e]) <==> t in Tags(done) || t == e.tag
    {
      if t in Tags(done) {
        var i :| 0 <= i < |done| && done[i].tag == t;
        assert (done + [e])[i].tag == t;
      }
      assert (done + [e])[|done|].tag == e.tag;
    }
  }

  lemma {:induction false} ReadsExactly(elems: seq<Json>, done: seq<OutboundEntry>)
    ensures ReadOutbounds(elems, done).Some? <==>
      ElementsOnce(elems) && forall i | 0 <= i < |elems| :: elems[i].fields["tag"].s !in Tags(done)
    ensures ReadOutbounds(elems, done).Some? ==>
      var read := ReadOutbounds(elems, done).value;
      && |read| == |done| + |elems| && done <= read
      && forall i | 0 <= i < |elems| :: read[|done| + i] == OutboundEntry(elems[i].fields["tag"].s, elems[i])
    decreases |elems|
  {
    if elems != [] {
      TagIs(elems[0]);
      if HasTag(elems[0]) && elems[0].fields["tag"].s !in Tags(done) {
        var e := OutboundEntry(elems[0].fields["tag"].s, elems[0]);
        TagsSnoc(done, e);
        ReadsExactly(elems[1..], done + [e]);
        assert forall i | 0 < i < |elems| :: elems[i] == elems[1..][i - 1];
      }
    }
  }

  lemma {:induction false} OutboundsReadExactly(raw: Raw)
    ensures OutboundsOf(raw).Some? <==> IsList(raw) && ElementsOnce(Elements(raw))
    ensures OutboundsOf(raw).Some? ==>
      var read := OutboundsOf(raw).value;
      && |read| == |Elements(raw)|
      && forall i | 0 <= i < |read| :: read[i] == OutboundEntry(Elements(raw)[i].fields["tag"].s, Elements(raw)[i])
  {
    ReadsExactly(Elements(raw), []);
  }

  /** The changes of outbounds are accepted exactly when both lists can be read and begin alike. */
  lemma {:induction false} OutboundsAcceptedExactly(a: Config, b: Config)
    ensures var olds, news := Elements(a.outbounds), Elements(b.outbounds);
      OutboundsReloadable(a, b) <==>
        && IsList(a.outbounds) && IsList(b.outbounds) && ElementsOnce(olds) && ElementsOnce(news)
        && (olds == [] <==> news == []) && (olds != [] ==> olds[0] == news[0])
  {
    OutboundsReadExactly(a.outbounds);
    OutboundsReadExactly(b.outbounds);
  }

  predicate SameBut(x: map<string, Json>, y: map<string, Json>) {
    x - {"rules", "balancers"} == y - {"rules", "balancers"}
  }

  /** The change of the routing is accepted exactly when there is none, or both sections are null, or
      both are objects that differ in their rules and balancers at most. */
  lemma {:induction false} RoutingAcceptedExactly(a: Config, b: Config)
    ensures var x, y := a.routing, b.routing;
      RoutingReloadable(a, b) <==>
        || x == y
        || (x.Text? && y.Text? && x.value.Null? && y.value.Null?)
        || (x.Text? && y.Text? && x.value.Obj? && y.value.Obj? && SameBut(x.value.fields, y.value.fields))
  {
  }

  /** The planner accepts exactly when the core would load the same besides inbounds, outbounds and
      routing, and the changes of those three can each be made through the API. */
  lemma {:induction false} AcceptedExactly(a: Config, b: Config)
    ensures var apiTag, olds, news := ApiTagFromConfig(b.api), Elements(a.outbounds), Elements(b.outbounds);
      HotReloadable(a, b) <==>
        && LoadStatics(a) == LoadStatics(b)
        && TagsOnce(a.inbounds) && TagsOnce(b.inbounds)
        && (forall i | 0 <= i < |a.inbounds| :: OldMayChange(a.inbounds[i], b.inbounds, apiTag))
        && (forall j | 0 <= j < |b.inbounds| :: NewMayCome(b.inbounds[j], a.inbounds, apiTag))
        && IsList(a.outbounds) && IsList(b.outbounds) && ElementsOnce(olds) && ElementsOnce(news)
        && (olds == [] <==> news == []) && (olds != [] ==> olds[0] == news[0])
        && RoutingReloadable(a, b)
  {
    StaticsAreCompared(a, b);
    InboundsAcceptedExactly(a, b);
    OutboundsAcceptedExactly(a, b);
  }
}
