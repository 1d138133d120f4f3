/** An accepted diff is legal call by call and lands exactly on the new configuration. */
module HotTheorem {
  import opened Wrappers
  import opened JsonModel
  import opened HotDiff
  import opened HotApply

  // ---------------------------------------------------------------- what the lists contain

  ghost predicate DistinctTags(ibs: seq<Inbound>) {
    forall i, j | 0 <= i < j < |ibs| :: ibs[i].tag != ibs[j].tag
  }

  predicate Leaves(x: Inbound, newByTag: map<string, Inbound>, apiTag: string) {
    Judge(x, newByTag, apiTag).Replace? || Judge(x, newByTag, apiTag).Drop?
  }

  ghost predicate TagsMatch(byTag: map<string, Inbound>) {
    forall t | t in byTag :: byTag[t].tag == t
  }

  lemma {:induction false} InPrefix(ibs: seq<Inbound>)
    requires ibs != []
    ensures forall x :: x in ibs <==> x in ibs[..|ibs| - 1] || x == ibs[|ibs| - 1]
    ensures DistinctTags(ibs) ==> DistinctTags(ibs[..|ibs| - 1])
    ensures DistinctTags(ibs) ==> forall x | x in ibs[..|ibs| - 1] :: x.tag != ibs[|ibs| - 1].tag
  {
    var n := |ibs| - 1;
    assert ibs == ibs[..n] + [ibs[n]];
    if DistinctTags(ibs) {
      forall x | x in ibs[..n] ensures x.tag != ibs[n].tag {
        var k :| 0 <= k < n && ibs[k] == x;
      }
    }
  }

  lemma {:induction false} RemovedTagsAre(olds: seq<Inbound>, newByTag: map<string, Inbound>, apiTag: string)
    requires DistinctTags(olds)
    ensures forall x | x in olds && Leaves(x, newByTag, apiTag) :: x.tag in RemovedTags(olds, newByTag, apiTag)
    ensures forall t | t in RemovedTags(olds, newByTag, apiTag) ::
      exists x :: x in olds && x.tag == t && Leaves(x, newByTag, apiTag)
    ensures Distinct(RemovedTags(olds, newByTag, apiTag))
  {
    if olds != [] {
      var n := |olds| - 1;
      InPrefix(olds);
      RemovedTagsAre(olds[..n], newByTag, apiTag);
      var before := RemovedTags(olds[..n], newByTag, apiTag);
      assert olds[n].tag !in before;
      DistinctSnoc(before, olds[n].tag);
    }
  }

  /** Appending a document under a new tag keeps the tags apart. */
  lemma {:induction false} DocsSnoc(docs: seq<InboundDoc>, d: InboundDoc)
    requires (forall i, j | 0 <= i < j < |docs| :: docs[i].tag != docs[j].tag) && forall e | e in docs :: e.tag != d.tag
    ensures forall i, j | 0 <= i < j < |docs + [d]| :: (docs + [d])[i].tag != (docs + [d])[j].tag
  {
  }

  lemma {:induction false} ReplacedDocsAre(olds: seq<Inbound>, newByTag: map<string, Inbound>, apiTag: string)
    requires DistinctTags(olds) && TagsMatch(newByTag)
    ensures var docs := ReplacedDocs(olds, newByTag, apiTag);
      && (forall x | x in olds && Judge(x, newByTag, apiTag).Replace? :: MarshalInbound(newByTag[x.tag]).value in docs)
      && (forall d | d in docs :: exists x ::
            x in olds && x.tag == d.tag && Judge(x, newByTag, apiTag).Replace? && d == MarshalInbound(newByTag[x.tag]).value)
      && (forall i, j | 0 <= i < j < |docs| :: docs[i].tag != docs[j].tag)
  {
    if olds != [] {
      var n := |olds| - 1;
      InPrefix(olds);
      ReplacedDocsAre(olds[..n], newByTag, apiTag);
      if Judge(olds[n], newByTag, apiTag).Replace? {
        MarshalledLoads(newByTag[olds[n].tag]);
        DocsSnoc(ReplacedDocs(olds[..n], newByTag, apiTag), MarshalInbound(newByTag[olds[n].tag]).value);
      }
    }
  }

  lemma {:induction false} AddedDocsAre(news: seq<Inbound>, oldByTag: map<string, Inbound>, apiTag: string)
    requires DistinctTags(news)
    ensures var docs := AddedDocs(news, oldByTag, apiTag);
      && (forall y | y in news && y.tag !in oldByTag && Addable(y, apiTag) :: MarshalInbound(y).value in docs)
      && (forall d | d in docs :: exists y ::
            y in news && y.tag == d.tag && y.tag !in oldByTag && Addable(y, apiTag) && d == MarshalInbound(y).value)
      && (forall i, j | 0 <= i < j < |docs| :: docs[i].tag != docs[j].tag)
  {
    if news != [] {
      var n := |news| - 1;
      InPrefix(news);
      AddedDocsAre(news[..n], oldByTag, apiTag);
      if news[n].tag !in oldByTag && Addable(news[n], apiTag) {
        MarshalledLoads(news[n]);
        DocsSnoc(AddedDocs(news[..n], oldByTag, apiTag), MarshalInbound(news[n]).value);
      }
    }
  }

  lemma {:induction false} UserOpsAre(olds: seq<Inbound>, newByTag: map<string, Inbound>, apiTag: string)
    requires DistinctTags(olds)
    ensures forall op :: op in AllGone(olds, newByTag, apiTag) <==>
      exists x :: x in olds && Judge(x, newByTag, apiTag).EditUsers? && op in GoneOps(x, newByTag[x.tag])
    ensures forall op :: op in AllFresh(olds, newByTag, apiTag) <==>
      exists x :: x in olds && Judge(x, newByTag, apiTag).EditUsers? && op in FreshOps(x, newByTag[x.tag])
  {
    if olds != [] {
      InPrefix(olds);
      UserOpsAre(olds[..|olds| - 1], newByTag, apiTag);
    }
  }

  lemma {:induction false} ClientsCarryTheirEmail(items: seq<Json>, done: map<string, Json>)
    requires IndexClients(items, done).Some? && forall e | e in done :: ClientEmail(done[e]) == e
    ensures var m := IndexClients(items, done).value; forall e | e in m :: ClientEmail(m[e]) == e
    decreases |items|
  {
    if items != [] {
      ClientsCarryTheirEmail(items[1..], done[ClientEmail(items[0]) := items[0]]);
    }
  }

  lemma {:induction false} EmailsOfIs(ops: seq<UserOp>, tag: string, email: string)
    ensures email in EmailsOf(ops, tag) <==> exists op :: op in ops && op.tag == tag && op.email == email
  {
    if ops != [] {
      assert forall op :: op in ops <==> op == ops[0] || op in ops[1..];
      EmailsOfIs(ops[1..], tag, email);
    }
  }

  /** Marshalling and loading back gives the handler the inbound itself would start as. */
  lemma {:induction false} MarshalledLoads(ib: Inbound)
    requires MarshalInbound(ib).Some?
    ensures LoadDoc(MarshalInbound(ib).value) == Load(ib) && MarshalInbound(ib).value.tag == ib.tag
  {
  }

  lemma {:induction false} EqualInboundsLoadAlike(a: Inbound, b: Inbound)
    ensures InboundEqualNormalized(a, b) ==> Load(a) == Load(b)
  {
  }

  lemma {:induction false} SplitLoads(ib: Inbound)
    requires Split(ib.settings).Some?
    ensures Load(ib).settings == Clients(Split(ib.settings).value.rest, Registered(Split(ib.settings).value.clients))
    ensures forall e | e in Split(ib.settings).value.clients :: ClientEmail(Split(ib.settings).value.clients[e]) == e
  {
    var v := Decode(ib.settings).value;
    ClientsCarryTheirEmail(v.fields["clients"].items, map[]);
  }

  /** Removing the gone and adding the new clients of one inbound gives the new inbound exactly
      when the calls convey each of them in full. */
  lemma {:induction false} EditLands(x: Inbound, y: Inbound, gone: set<string>, novel: map<string, Json>)
    requires ClientsOnly(x, y)
    requires forall e :: e in gone <==> UserOp(x.tag, x.protocol, e, None) in GoneOps(x, y)
    requires forall e :: e in novel <==> exists op :: op in FreshOps(x, y) && op.email == e
    requires forall op | op in FreshOps(x, y) :: op.email in novel && SentBy(op) == Some(novel[op.email])
    ensures With(Without(Load(x), gone), novel) == Load(y) <==> forall op | op in FreshOps(x, y) :: Conveyed(op)
  {
    SplitLoads(x);
    SplitLoads(y);
    var was, now := Split(x.settings).value.clients, Split(y.settings).value.clients;
    forall e ensures e in novel <==> e in now && !(e in was && was[e] == now[e]) {
      if e in now && !(e in was && was[e] == now[e]) {
        assert UserOp(x.tag, x.protocol, e, Some(now[e])) in FreshOps(x, y);
      }
    }
    forall e ensures e in gone <==> e in was && !(e in now && was[e] == now[e]) {
    }
    forall e | e in novel ensures Conveyed(UserOp(x.tag, x.protocol, e, Some(now[e]))) <==> novel[e] == AsRead(now[e]) {
      assert UserOp(x.tag, x.protocol, e, Some(now[e])) in FreshOps(x, y);
    }
    assert forall op | op in FreshOps(x, y) :: op == UserOp(x.tag, x.protocol, op.email, Some(now[op.email])) && op.email in novel;
    EditedUsers(was, now, gone, novel);
    if forall e | e in novel :: novel[e] == AsRead(now[e]) {
      assert forall op | op in FreshOps(x, y) :: Conveyed(op);
    } else {
      var e :| e in novel && novel[e] != AsRead(now[e]);
      assert UserOp(x.tag, x.protocol, e, Some(now[e])) in FreshOps(x, y);
    }
  }

  lemma {:induction false} EditedUsers(was: map<string, Json>, now: map<string, Json>, gone: set<string>, novel: map<string, Json>)
    requires forall e :: e in novel <==> e in now && !(e in was && was[e] == now[e])
    requires forall e :: e in gone <==> e in was && !(e in now && was[e] == now[e])
    ensures (Registered(was) - gone) + novel == Registered(now) <==> forall e | e in novel :: novel[e] == AsRead(now[e])
  {
    var edited := (Registered(was) - gone) + novel;
    assert edited.Keys == now.Keys;
    assert forall e | e in now && e !in novel :: edited[e] == Registered(now)[e];
    if forall e | e in novel :: novel[e] == AsRead(now[e]) {
      assert edited == Registered(now);
    } else {
      var e :| e in novel && novel[e] != AsRead(now[e]);
      assert edited[e] != Registered(now)[e];
    }
  }

  // ---------------------------------------------------------------- inbounds and their users

  /** Two inbound lists the planner has indexed and accepted, with the operations it wrote down. */
  ghost predicate InboundPlan(olds: seq<Inbound>, news: seq<Inbound>, oldByTag: map<string, Inbound>,
                              newByTag: map<string, Inbound>, apiTag: string, plan: Plan)
  {
    && IndexInbounds(olds, map[]) == Some(oldByTag) && IndexInbounds(news, map[]) == Some(newByTag)
    && NoneRefused(olds, newByTag, apiTag) && NewOnesAddable(news, oldByTag, apiTag)
    && plan.removedInboundTags == RemovedTags(olds, newByTag, apiTag)
    && plan.addedInbounds == ReplacedDocs(olds, newByTag, apiTag) + AddedDocs(news, oldByTag, apiTag)
    && Lists(plan.removedUsers, AllGone(olds, newByTag, apiTag))
    && Lists(plan.addedUsers, AllFresh(olds, newByTag, apiTag))
  }

  ghost predicate Edits(oldByTag: map<string, Inbound>, newByTag: map<string, Inbound>, apiTag: string, t: string) {
    && t in oldByTag && t in newByTag && oldByTag[t].tag == t
    && Judge(oldByTag[t], newByTag, apiTag).EditUsers?
  }

  /** A tag the new configuration has and the removals leave free. */
  ghost predicate Vacant(oldByTag: map<string, Inbound>, newByTag: map<string, Inbound>, apiTag: string, t: string) {
    && t in newByTag
    && if t in oldByTag then Judge(oldByTag[t], newByTag, apiTag).Replace? else Addable(newByTag[t], apiTag)
  }

  ghost predicate TagsPlanned(oldByTag: map<string, Inbound>, newByTag: map<string, Inbound>, apiTag: string, plan: Plan) {
    var tags := plan.removedInboundTags;
    && (forall t :: t in tags <==> t in oldByTag && Leaves(oldByTag[t], newByTag, apiTag))
    && Distinct(tags)
  }

  ghost predicate DocsPlanned(oldByTag: map<string, Inbound>, newByTag: map<string, Inbound>, apiTag: string, plan: Plan) {
    var docs := plan.addedInbounds;
    && (forall d | d in docs ::
          Vacant(oldByTag, newByTag, apiTag, d.tag) && MarshalInbound(newByTag[d.tag]) == Some(d))
    && (forall t | Vacant(oldByTag, newByTag, apiTag, t) ::
          MarshalInbound(newByTag[t]).Some? && MarshalInbound(newByTag[t]).value in docs)
    && (forall i, j | 0 <= i < j < |docs| :: docs[i].tag != docs[j].tag)
  }

  ghost predicate UsersPlanned(oldByTag: map<string, Inbound>, newByTag: map<string, Inbound>, apiTag: string, plan: Plan) {
    && (forall op :: op in plan.removedUsers <==>
          (Edits(oldByTag, newByTag, apiTag, op.tag) && op in GoneOps(oldByTag[op.tag], newByTag[op.tag])))
    && (forall op :: op in plan.addedUsers <==>
          (Edits(oldByTag, newByTag, apiTag, op.tag) && op in FreshOps(oldByTag[op.tag], newByTag[op.tag])))
    && DistinctUsers(plan.removedUsers) && DistinctUsers(plan.addedUsers)
  }

  /** The plan by tag: what happens to a tag depends only on the two inbounds that carry it. */
  ghost predicate PlanByTag(oldByTag: map<string, Inbound>, newByTag: map<string, Inbound>, apiTag: string, plan: Plan) {
    && TagsMatch(oldByTag) && TagsMatch(newByTag)
    && (forall t | t in oldByTag :: !Judge(oldByTag[t], newByTag, apiTag).Refuse?)
    && (forall t | t in newByTag && t !in oldByTag :: Addable(newByTag[t], apiTag))
    && TagsPlanned(oldByTag, newByTag, apiTag, plan)
    && DocsPlanned(oldByTag, newByTag, apiTag, plan)
    && UsersPlanned(oldByTag, newByTag, apiTag, plan)
  }

  lemma {:induction false} TagsByTag(olds: seq<Inbound>, news: seq<Inbound>, oldByTag: map<string, Inbound>,
                  newByTag: map<string, Inbound>, apiTag: string, plan: Plan)
    requires InboundPlan(olds, news, oldByTag, newByTag, apiTag, plan)
    ensures TagsPlanned(oldByTag, newByTag, apiTag, plan)
  {
    IndexedInbounds(olds, map[]);
    RemovedTagsAre(olds, newByTag, apiTag);
    forall t ensures t in plan.removedInboundTags <==> t in oldByTag && Leaves(oldByTag[t], newByTag, apiTag) {
      if t in oldByTag {
        assert oldByTag[t] in olds;
      }
    }
  }

  lemma {:induction false} ReplacedDocIsVacant(olds: seq<Inbound>, news: seq<Inbound>, oldByTag: map<string, Inbound>,
                                               newByTag: map<string, Inbound>, apiTag: string, d: InboundDoc)
    requires IndexInbounds(olds, map[]) == Some(oldByTag) && IndexInbounds(news, map[]) == Some(newByTag)
    requires d in ReplacedDocs(olds, newByTag, apiTag)
    ensures Vacant(oldByTag, newByTag, apiTag, d.tag) && MarshalInbound(newByTag[d.tag]) == Some(d) && d.tag in oldByTag
  {
    IndexedInbounds(olds, map[]);
    IndexedInbounds(news, map[]);
    ReplacedDocsAre(olds, newByTag, apiTag);
    var x :| x in olds && x.tag == d.tag && Judge(x, newByTag, apiTag).Replace? && d == MarshalInbound(newByTag[x.tag]).value;
  }

  lemma {:induction false} AddedDocIsVacant(olds: seq<Inbound>, news: seq<Inbound>, oldByTag: map<string, Inbound>,
                                            newByTag: map<string, Inbound>, apiTag: string, d: InboundDoc)
    requires IndexInbounds(olds, map[]) == Some(oldByTag) && IndexInbounds(news, map[]) == Some(newByTag)
    requires d in AddedDocs(news, oldByTag, apiTag)
    ensures Vacant(oldByTag, newByTag, apiTag, d.tag) && MarshalInbound(newByTag[d.tag]) == Some(d) && d.tag !in oldByTag
  {
    IndexedInbounds(news, map[]);
    AddedDocsAre(news, oldByTag, apiTag);
    var y :| y in news && y.tag == d.tag && y.tag !in oldByTag && Addable(y, apiTag) && d == MarshalInbound(y).value;
  }

  lemma {:induction false} ReplacedIsListed(olds: seq<Inbound>, newByTag: map<string, Inbound>, apiTag: string, x: Inbound)
    requires DistinctTags(olds) && TagsMatch(newByTag) && x in olds && Judge(x, newByTag, apiTag).Replace?
    ensures MarshalInbound(newByTag[x.tag]).Some? && MarshalInbound(newByTag[x.tag]).value in ReplacedDocs(olds, newByTag, apiTag)
  {
    ReplacedDocsAre(olds, newByTag, apiTag);
  }

  lemma {:induction false} AddedIsListed(news: seq<Inbound>, oldByTag: map<string, Inbound>, apiTag: string, y: Inbound)
    requires DistinctTags(news) && y in news && y.tag !in oldByTag && Addable(y, apiTag)
    ensures MarshalInbound(y).value in AddedDocs(news, oldByTag, apiTag)
  {
    AddedDocsAre(news, oldByTag, apiTag);
  }

  lemma {:induction false} VacantIsListed(olds: seq<Inbound>, news: seq<Inbound>, oldByTag: map<string, Inbound>,
                       newByTag: map<string, Inbound>, apiTag: string, plan: Plan, t: string)
    requires InboundPlan(olds, news, oldByTag, newByTag, apiTag, plan) && Vacant(oldByTag, newByTag, apiTag, t)
    ensures MarshalInbound(newByTag[t]).Some? && MarshalInbound(newByTag[t]).value in plan.addedInbounds
  {
    IndexedInbounds(olds, map[]);
    IndexedInbounds(news, map[]);
    assert newByTag[t] in news;
    if t in oldByTag {
      assert oldByTag[t] in olds;
      ReplacedIsListed(olds, newByTag, apiTag, oldByTag[t]);
    } else {
      AddedIsListed(news, oldByTag, apiTag, newByTag[t]);
    }
  }

  lemma {:induction false} DocsDistinct(olds: seq<Inbound>, news: seq<Inbound>, oldByTag: map<string, Inbound>,
                     newByTag: map<string, Inbound>, apiTag: string, plan: Plan, i: nat, j: nat)
    requires InboundPlan(olds, news, oldByTag, newByTag, apiTag, plan) && i < j < |plan.addedInbounds|
    ensures plan.addedInbounds[i].tag != plan.addedInbounds[j].tag
  {
    var docs, replaced := plan.addedInbounds, ReplacedDocs(olds, newByTag, apiTag);
    IndexedInbounds(olds, map[]);
    IndexedInbounds(news, map[]);
    if j < |replaced| {
      ReplacedDocsAre(olds, newByTag, apiTag);
    } else if |replaced| <= i {
      AddedDocsAre(news, oldByTag, apiTag);
    } else {
      ReplacedDocIsVacant(olds, news, oldByTag, newByTag, apiTag, docs[i]);
      AddedDocIsVacant(olds, news, oldByTag, newByTag, apiTag, docs[j]);
    }
  }

  lemma {:induction false} UsersListed(olds: seq<Inbound>, news: seq<Inbound>, oldByTag: map<string, Inbound>,
                    newByTag: map<string, Inbound>, apiTag: string, plan: Plan, op: UserOp)
    requires InboundPlan(olds, news, oldByTag, newByTag, apiTag, plan)
    ensures op in plan.removedUsers <==>
      (Edits(oldByTag, newByTag, apiTag, op.tag) && op in GoneOps(oldByTag[op.tag], newByTag[op.tag]))
    ensures op in plan.addedUsers <==>
      (Edits(oldByTag, newByTag, apiTag, op.tag) && op in FreshOps(oldByTag[op.tag], newByTag[op.tag]))
  {
    IndexedInbounds(olds, map[]);
    IndexedInbounds(news, map[]);
    UserOpsAre(olds, newByTag, apiTag);
    if Edits(oldByTag, newByTag, apiTag, op.tag) {
      assert oldByTag[op.tag] in olds;
    }
  }

  lemma {:induction false} UsersByTag(olds: seq<Inbound>, news: seq<Inbound>, oldByTag: map<string, Inbound>,
                   newByTag: map<string, Inbound>, apiTag: string, plan: Plan)
    requires InboundPlan(olds, news, oldByTag, newByTag, apiTag, plan)
    ensures UsersPlanned(oldByTag, newByTag, apiTag, plan)
  {
    forall op {
      UsersListed(olds, news, oldByTag, newByTag, apiTag, plan, op);
    }
    var gone, novel := plan.removedUsers, plan.addedUsers;
    forall i, j | 0 <= i < j < |gone| ensures gone[i].tag != gone[j].tag || gone[i].email != gone[j].email {
      assert gone[i] in gone && gone[j] in gone;
    }
    forall i, j | 0 <= i < j < |novel| ensures novel[i].tag != novel[j].tag || novel[i].email != novel[j].email {
      assert novel[i] in novel && novel[j] in novel;
    }
  }

  lemma {:induction false} DocsByTag(olds: seq<Inbound>, news: seq<Inbound>, oldByTag: map<string, Inbound>,
                                     newByTag: map<string, Inbound>, apiTag: string, plan: Plan)
    requires InboundPlan(olds, news, oldByTag, newByTag, apiTag, plan)
    ensures DocsPlanned(oldByTag, newByTag, apiTag, plan)
  {
    forall d | d in plan.addedInbounds
      ensures Vacant(oldByTag, newByTag, apiTag, d.tag) && MarshalInbound(newByTag[d.tag]) == Some(d)
    {
      if d in ReplacedDocs(olds, newByTag, apiTag) {
        ReplacedDocIsVacant(olds, news, oldByTag, newByTag, apiTag, d);
      } else {
        AddedDocIsVacant(olds, news, oldByTag, newByTag, apiTag, d);
      }
    }
    forall t | Vacant(oldByTag, newByTag, apiTag, t)
      ensures MarshalInbound(newByTag[t]).Some? && MarshalInbound(newByTag[t]).value in plan.addedInbounds
    {
      VacantIsListed(olds, news, oldByTag, newByTag, apiTag, plan, t);
    }
    forall i, j | 0 <= i < j < |plan.addedInbounds| ensures plan.addedInbounds[i].tag != plan.addedInbounds[j].tag {
      DocsDistinct(olds, news, oldByTag, newByTag, apiTag, plan, i, j);
    }
  }

  lemma {:induction false} PlanIsByTag(olds: seq<Inbound>, news: seq<Inbound>, oldByTag: map<string, Inbound>,
                                       newByTag: map<string, Inbound>, apiTag: string, plan: Plan)
    requires InboundPlan(olds, news, oldByTag, newByTag, apiTag, plan)
    ensures PlanByTag(oldByTag, newByTag, apiTag, plan)
  {
    TagsByTag(olds, news, oldByTag, newByTag, apiTag, plan);
    DocsByTag(olds, news, oldByTag, newByTag, apiTag, plan);
    UsersByTag(olds, news, oldByTag, newByTag, apiTag, plan);
    IndexedInbounds(olds, map[]);
    IndexedInbounds(news, map[]);
  }

  lemma {:induction false} UserGone(oldByTag: map<string, Inbound>, newByTag: map<string, Inbound>, apiTag: string, plan: Plan, op: UserOp)
    requires PlanByTag(oldByTag, newByTag, apiTag, plan) && op in plan.removedUsers
    ensures RemoveUser(LoadInbounds(oldByTag), op).Some?
  {
    SplitLoads(oldByTag[op.tag]);
  }

  /** The handlers after the first two groups of calls: what leaves is gone, what stays has lost
      the clients that go or change. */
  lemma {:induction false} RemovalsLand(oldByTag: map<string, Inbound>, newByTag: map<string, Inbound>, apiTag: string, plan: Plan)
    returns (inb: map<string, Handler>)
    requires PlanByTag(oldByTag, newByTag, apiTag, plan)
    ensures var trimmed := RemoveUsers(LoadInbounds(oldByTag), plan.removedUsers);
      trimmed.Some? && DelInbounds(trimmed.value, plan.removedInboundTags) == Some(inb)
    ensures forall t :: t in inb <==> t in oldByTag && !Leaves(oldByTag[t], newByTag, apiTag)
    ensures forall t | t in inb :: inb[t] == Without(Load(oldByTag[t]), EmailsOf(plan.removedUsers, t))
  {
    var start := LoadInbounds(oldByTag);
    forall op | op in plan.removedUsers {
      UserGone(oldByTag, newByTag, apiTag, plan, op);
    }
    RemoveUsersEffect(start, plan.removedUsers);
    var trimmed := RemoveUsers(start, plan.removedUsers).value;
    DelInboundsEffect(trimmed, plan.removedInboundTags);
    inb := DelInbounds(trimmed, plan.removedInboundTags).value;
  }

  /** A tag of the new configuration either keeps its handler or is vacant. */
  lemma {:induction false} StaysOrVacant(oldByTag: map<string, Inbound>, newByTag: map<string, Inbound>, apiTag: string, plan: Plan, t: string)
    requires PlanByTag(oldByTag, newByTag, apiTag, plan)
    ensures t in oldByTag && !Leaves(oldByTag[t], newByTag, apiTag) ==> t in newByTag
    ensures t in newByTag ==>
      (Vacant(oldByTag, newByTag, apiTag, t) <==> !(t in oldByTag && !Leaves(oldByTag[t], newByTag, apiTag)))
  {
  }

  lemma {:induction false} VacantLoads(oldByTag: map<string, Inbound>, newByTag: map<string, Inbound>, apiTag: string,
                                       plan: Plan, t: string)
    requires DocsPlanned(oldByTag, newByTag, apiTag, plan) && Vacant(oldByTag, newByTag, apiTag, t)
    ensures var d := MarshalInbound(newByTag[t]);
      && d.Some? && d.value in plan.addedInbounds
      && d.value.tag == newByTag[t].tag && LoadDoc(d.value) == Load(newByTag[t])
  {
    MarshalledLoads(newByTag[t]);
  }

  /** No inbound to be added would listen where another of the new configuration does. */
  ghost predicate Unobstructed(oldByTag: map<string, Inbound>, newByTag: map<string, Inbound>, apiTag: string) {
    forall t, u | Vacant(oldByTag, newByTag, apiTag, t) && u in newByTag && t != u ::
      !Conflict(Load(newByTag[u]), Load(newByTag[t]))
  }

  lemma {:induction false} EditKeepsPlace(h: Handler, emails: set<string>, x: Handler)
    ensures Conflict(Without(h, emails), x) == Conflict(h, x)
  {
  }

  /** A handler that stays listens where the new configuration wants it to. */
  lemma {:induction false} StayerKeepsPlace(x: Inbound, newByTag: map<string, Inbound>, apiTag: string, h: Handler)
    requires Judge(x, newByTag, apiTag).Keep? || Judge(x, newByTag, apiTag).EditUsers?
    ensures x.tag in newByTag && Conflict(Load(x), h) == Conflict(Load(newByTag[x.tag]), h)
  {
    if Judge(x, newByTag, apiTag).Keep? {
      EqualInboundsLoadAlike(x, newByTag[x.tag]);
    } else {
      assert TransportsOf(Load(x)) == TransportsOf(Load(newByTag[x.tag]));
    }
  }

  /** The running handlers are in the way of a new one exactly where the new configuration's are. */
  ghost predicate PlacesKept(newByTag: map<string, Inbound>, inb: map<string, Handler>) {
    inb.Keys <= newByTag.Keys && forall t, h | t in inb :: Conflict(inb[t], h) == Conflict(Load(newByTag[t]), h)
  }

  lemma {:induction false} UnobstructedFits(oldByTag: map<string, Inbound>, newByTag: map<string, Inbound>, apiTag: string,
                                            plan: Plan, inb: map<string, Handler>)
    requires DocsPlanned(oldByTag, newByTag, apiTag, plan) && TagsMatch(newByTag) && PlacesKept(newByTag, inb)
    requires forall t | t in newByTag :: Vacant(oldByTag, newByTag, apiTag, t) <==> t !in inb
    requires Unobstructed(oldByTag, newByTag, apiTag)
    ensures DocsFit(inb, plan.addedInbounds)
  {
    var docs := plan.addedInbounds;
    forall d | d in docs
      ensures Fits(inb, LoadDoc(d))
    {
      MarshalledLoads(newByTag[d.tag]);
      forall t | t in inb
        ensures !Conflict(inb[t], LoadDoc(d))
      {
        assert t in newByTag && Vacant(oldByTag, newByTag, apiTag, d.tag) && t != d.tag;
        assert Conflict(inb[t], LoadDoc(d)) == Conflict(Load(newByTag[t]), LoadDoc(d));
      }
    }
    forall i, j | 0 <= i < j < |docs|
      ensures !Conflict(LoadDoc(docs[i]), LoadDoc(docs[j]))
    {
      assert docs[i] in docs && docs[j] in docs;
      MarshalledLoads(newByTag[docs[i].tag]);
      MarshalledLoads(newByTag[docs[j].tag]);
    }
  }

  lemma {:induction false} ConflictIsMutual(x: Handler, y: Handler)
    ensures Conflict(x, y) == Conflict(y, x)
  {
  }

  lemma {:induction false} FittingIsUnobstructed(oldByTag: map<string, Inbound>, newByTag: map<string, Inbound>, apiTag: string,
                                                 plan: Plan, inb: map<string, Handler>, t: string, u: string)
    requires DocsPlanned(oldByTag, newByTag, apiTag, plan) && TagsMatch(newByTag) && PlacesKept(newByTag, inb)
    requires forall t | t in newByTag :: Vacant(oldByTag, newByTag, apiTag, t) <==> t !in inb
    requires DocsFit(inb, plan.addedInbounds)
    requires Vacant(oldByTag, newByTag, apiTag, t) && u in newByTag && t != u
    ensures !Conflict(Load(newByTag[u]), Load(newByTag[t]))
  {
    var docs := plan.addedInbounds;
    VacantLoads(oldByTag, newByTag, apiTag, plan, t);
    var d := MarshalInbound(newByTag[t]).value;
    if u in inb {
      assert Fits(inb, LoadDoc(d));
      assert Conflict(inb[u], LoadDoc(d)) == Conflict(Load(newByTag[u]), LoadDoc(d));
    } else {
      VacantLoads(oldByTag, newByTag, apiTag, plan, u);
      var c := MarshalInbound(newByTag[u]).value;
      var i :| 0 <= i < |docs| && docs[i] == c;
      var j :| 0 <= j < |docs| && docs[j] == d;
      assert i != j;
      ConflictIsMutual(LoadDoc(c), LoadDoc(d));
    }
  }

  /** The third group runs exactly when nothing is in the way of it. */
  lemma {:induction false} AdditionsFit(oldByTag: map<string, Inbound>, newByTag: map<string, Inbound>, apiTag: string, plan: Plan,
                                        inb: map<string, Handler>)
    requires DocsPlanned(oldByTag, newByTag, apiTag, plan) && TagsMatch(newByTag) && PlacesKept(newByTag, inb)
    requires forall t | t in newByTag :: Vacant(oldByTag, newByTag, apiTag, t) <==> t !in inb
    ensures AddInbounds(inb, plan.addedInbounds).Some? <==> Unobstructed(oldByTag, newByTag, apiTag)
    ensures AddInbounds(inb, plan.addedInbounds).Some? ==> DocsFit(inb, plan.addedInbounds)
  {
    forall d | d in plan.addedInbounds ensures d.tag in newByTag && d.tag !in inb {
      assert Vacant(oldByTag, newByTag, apiTag, d.tag);
    }
    AddInboundsFit(inb, plan.addedInbounds);
    if Unobstructed(oldByTag, newByTag, apiTag) {
      UnobstructedFits(oldByTag, newByTag, apiTag, plan, inb);
    }
    if DocsFit(inb, plan.addedInbounds) {
      forall t, u | Vacant(oldByTag, newByTag, apiTag, t) && u in newByTag && t != u
        ensures !Conflict(Load(newByTag[u]), Load(newByTag[t]))
      {
        FittingIsUnobstructed(oldByTag, newByTag, apiTag, plan, inb, t, u);
      }
    }
  }

  lemma {:induction false} VacantIsAdded(oldByTag: map<string, Inbound>, newByTag: map<string, Inbound>, apiTag: string, plan: Plan,
                                         inb: map<string, Handler>, t: string)
    requires DocsPlanned(oldByTag, newByTag, apiTag, plan) && TagsMatch(newByTag)
    requires Vacant(oldByTag, newByTag, apiTag, t) && AddInbounds(inb, plan.addedInbounds).Some?
    ensures var more := AddInbounds(inb, plan.addedInbounds).value; t in more && more[t] == Load(newByTag[t])
  {
    VacantLoads(oldByTag, newByTag, apiTag, plan, t);
    AddInboundsMake(inb, plan.addedInbounds, MarshalInbound(newByTag[t]).value);
  }

  /** And then every vacant tag of the new configuration gets its handler. */
  lemma {:induction false} AdditionsLand(oldByTag: map<string, Inbound>, newByTag: map<string, Inbound>, apiTag: string, plan: Plan,
                      inb: map<string, Handler>)
    returns (more: map<string, Handler>)
    requires DocsPlanned(oldByTag, newByTag, apiTag, plan) && TagsMatch(newByTag) && inb.Keys <= newByTag.Keys
    requires forall t | t in newByTag :: Vacant(oldByTag, newByTag, apiTag, t) <==> t !in inb
    requires DocsFit(inb, plan.addedInbounds)
    ensures AddInbounds(inb, plan.addedInbounds) == Some(more) && more.Keys == newByTag.Keys
    ensures forall t | t in inb :: more[t] == inb[t]
    ensures forall t | t in newByTag && t !in inb :: more[t] == Load(newByTag[t])
  {
    var docs := plan.addedInbounds;
    forall d | d in docs ensures d.tag in newByTag && d.tag !in inb {
      assert Vacant(oldByTag, newByTag, apiTag, d.tag);
    }
    AddInboundsEffect(inb, docs);
    more := AddInbounds(inb, docs).value;
    forall t | t in newByTag && t !in inb ensures t in more && more[t] == Load(newByTag[t]) {
      VacantIsAdded(oldByTag, newByTag, apiTag, plan, inb, t);
    }
  }

  lemma {:induction false} ListedUsers(ops: seq<UserOp>, t: string)
    requires DistinctUsers(ops) && forall op | op in ops :: SentBy(op).Some?
    ensures forall e :: e in UsersOf(ops, t) <==> exists op :: op in ops && op.tag == t && op.email == e
    ensures forall op | op in ops && op.tag == t :: op.email in UsersOf(ops, t) && UsersOf(ops, t)[op.email] == SentBy(op).value
  {
    forall e
      ensures e in UsersOf(ops, t) <==> exists op :: op in ops && op.tag == t && op.email == e
      ensures forall op | op in ops && op.tag == t && op.email == e :: e in UsersOf(ops, t) && UsersOf(ops, t)[e] == SentBy(op).value
    {
      UsersOfIs(ops, t, e);
    }
  }

  lemma {:induction false} NoUsers(ops: seq<UserOp>, t: string)
    requires forall op | op in ops :: op.tag != t
    ensures EmailsOf(ops, t) == {} && UsersOf(ops, t) == map[]
  {
    if ops != [] {
      assert ops[0] in ops;
      NoUsers(ops[1..], t);
    }
  }

  lemma {:induction false} NoEdits(oldByTag: map<string, Inbound>, newByTag: map<string, Inbound>, apiTag: string, plan: Plan, t: string)
    requires UsersPlanned(oldByTag, newByTag, apiTag, plan) && !Edits(oldByTag, newByTag, apiTag, t)
    ensures EmailsOf(plan.removedUsers, t) == {} && UsersOf(plan.addedUsers, t) == map[]
  {
    NoUsers(plan.removedUsers, t);
    NoUsers(plan.addedUsers, t);
  }

  ghost predicate AllSent(ops: seq<UserOp>) {
    forall op | op in ops :: SentBy(op).Some?
  }

  lemma {:induction false} EditsLand(oldByTag: map<string, Inbound>, newByTag: map<string, Inbound>, apiTag: string, plan: Plan, t: string)
    requires UsersPlanned(oldByTag, newByTag, apiTag, plan) && Edits(oldByTag, newByTag, apiTag, t) && AllSent(plan.addedUsers)
    ensures With(Without(Load(oldByTag[t]), EmailsOf(plan.removedUsers, t)), UsersOf(plan.addedUsers, t)) == Load(newByTag[t]) <==>
      forall op | op in plan.addedUsers && op.tag == t :: Conveyed(op)
  {
    var gone, novel := EmailsOf(plan.removedUsers, t), UsersOf(plan.addedUsers, t);
    var x, y := oldByTag[t], newByTag[t];
    forall e ensures e in gone <==> UserOp(x.tag, x.protocol, e, None) in GoneOps(x, y) {
      EmailsOfIs(plan.removedUsers, t, e);
      if UserOp(x.tag, x.protocol, e, None) in GoneOps(x, y) {
        assert UserOp(x.tag, x.protocol, e, None) in plan.removedUsers;
      }
    }
    assert forall op :: op in FreshOps(x, y) <==> op in plan.addedUsers && op.tag == t;
    ListedUsers(plan.addedUsers, t);
    EditLands(x, y, gone, novel);
  }

  /** Once the gone clients are removed nothing is in the way of a fresh one. */
  lemma {:induction false} FreshIsFree(x: Inbound, y: Inbound, gone: set<string>, op: UserOp)
    requires ClientsOnly(x, y) && op in FreshOps(x, y)
    requires UserOp(x.tag, x.protocol, op.email, None) in GoneOps(x, y) ==> op.email in gone
    ensures var h := Without(Load(x), gone);
      && h.settings.Clients? && op.email !in h.settings.users && op.protocol == h.protocol
      && op.user.Some? && ClientEmail(op.user.value) == op.email
  {
    SplitLoads(x);
    SplitLoads(y);
    var was := Split(x.settings).value.clients;
    if op.email in was {
      assert UserOp(x.tag, x.protocol, op.email, None) in GoneOps(x, y);
    }
  }

  lemma {:induction false} GoneIsRemoved(oldByTag: map<string, Inbound>, newByTag: map<string, Inbound>, apiTag: string, plan: Plan,
                                         t: string, email: string)
    requires UsersPlanned(oldByTag, newByTag, apiTag, plan) && Edits(oldByTag, newByTag, apiTag, t)
    requires UserOp(t, oldByTag[t].protocol, email, None) in GoneOps(oldByTag[t], newByTag[t])
    ensures email in EmailsOf(plan.removedUsers, t)
  {
    assert UserOp(t, oldByTag[t].protocol, email, None) in plan.removedUsers;
    EmailsOfIs(plan.removedUsers, t, email);
  }

  lemma {:induction false} UserFresh(oldByTag: map<string, Inbound>, newByTag: map<string, Inbound>, apiTag: string, plan: Plan,
                  inb: map<string, Handler>, op: UserOp)
    requires UsersPlanned(oldByTag, newByTag, apiTag, plan) && op in plan.addedUsers && SentBy(op).Some?
    requires Edits(oldByTag, newByTag, apiTag, op.tag) && op in FreshOps(oldByTag[op.tag], newByTag[op.tag])
    requires op.tag in inb && inb[op.tag] == Without(Load(oldByTag[op.tag]), EmailsOf(plan.removedUsers, op.tag))
    ensures AddUser(inb, op).Some?
  {
    var x, y := oldByTag[op.tag], newByTag[op.tag];
    if UserOp(x.tag, x.protocol, op.email, None) in GoneOps(x, y) {
      GoneIsRemoved(oldByTag, newByTag, apiTag, plan, op.tag, op.email);
    }
    FreshIsFree(x, y, EmailsOf(plan.removedUsers, op.tag), op);
  }

  /** The handlers before the user additions: what stays has lost its gone clients, what was
      vacant is as the new configuration loads it. */
  ghost predicate Prepared(oldByTag: map<string, Inbound>, newByTag: map<string, Inbound>, apiTag: string, plan: Plan,
                           more: map<string, Handler>)
  {
    more.Keys == newByTag.Keys && forall t | t in newByTag :: PreparedAt(oldByTag, newByTag, apiTag, plan, more[t], t)
  }

  ghost predicate PreparedAt(oldByTag: map<string, Inbound>, newByTag: map<string, Inbound>, apiTag: string, plan: Plan,
                             h: Handler, t: string)
    requires t in newByTag
  {
    h == if t in oldByTag && !Leaves(oldByTag[t], newByTag, apiTag)
         then Without(Load(oldByTag[t]), EmailsOf(plan.removedUsers, t))
         else Load(newByTag[t])
  }

  lemma {:induction false} UneditedLandsAlike(oldByTag: map<string, Inbound>, newByTag: map<string, Inbound>, apiTag: string,
                       plan: Plan, h: Handler, t: string)
    requires UsersPlanned(oldByTag, newByTag, apiTag, plan) && !Edits(oldByTag, newByTag, apiTag, t)
    requires t in oldByTag ==> oldByTag[t].tag == t && !Judge(oldByTag[t], newByTag, apiTag).Refuse?
    requires t in newByTag && PreparedAt(oldByTag, newByTag, apiTag, plan, h, t)
    ensures With(h, UsersOf(plan.addedUsers, t)) == Load(newByTag[t])
  {
    NoEdits(oldByTag, newByTag, apiTag, plan, t);
    Twice(h, {}, {}, map[], map[]);
    if t in oldByTag && !Leaves(oldByTag[t], newByTag, apiTag) {
      KeptIsTheSame(oldByTag[t], newByTag, apiTag);
      Twice(Load(oldByTag[t]), {}, {}, map[], map[]);
    }
  }

  lemma {:induction false} KeptIsTheSame(x: Inbound, newByTag: map<string, Inbound>, apiTag: string)
    requires Judge(x, newByTag, apiTag).Keep?
    ensures x.tag in newByTag && Load(x) == Load(newByTag[x.tag])
  {
    EqualInboundsLoadAlike(x, newByTag[x.tag]);
  }

  lemma {:induction false} KeptLandsAlike(oldByTag: map<string, Inbound>, newByTag: map<string, Inbound>, apiTag: string, plan: Plan,
                       h: Handler, t: string)
    requires PlanByTag(oldByTag, newByTag, apiTag, plan) && AllSent(plan.addedUsers)
    requires t in newByTag && PreparedAt(oldByTag, newByTag, apiTag, plan, h, t)
    ensures With(h, UsersOf(plan.addedUsers, t)) == Load(newByTag[t]) <==>
      forall op | op in plan.addedUsers && op.tag == t :: Conveyed(op)
  {
    if Edits(oldByTag, newByTag, apiTag, t) {
      EditsLand(oldByTag, newByTag, apiTag, plan, t);
    } else {
      UneditedLandsAlike(oldByTag, newByTag, apiTag, plan, h, t);
      assert forall op | op in plan.addedUsers :: Edits(oldByTag, newByTag, apiTag, op.tag);
    }
  }

  /** The fourth group runs exactly when every account can be built, and gives the new handlers
      exactly when every client is conveyed in full. */
  lemma {:induction false} UsersLand(oldByTag: map<string, Inbound>, newByTag: map<string, Inbound>, apiTag: string, plan: Plan,
                  more: map<string, Handler>)
    requires PlanByTag(oldByTag, newByTag, apiTag, plan) && Prepared(oldByTag, newByTag, apiTag, plan, more)
    ensures AddUsers(more, plan.addedUsers).Some? <==> AllSent(plan.addedUsers)
    ensures AddUsers(more, plan.addedUsers) == Some(LoadInbounds(newByTag)) <==>
      forall op | op in plan.addedUsers :: Conveyed(op)
  {
    if AllSent(plan.addedUsers) {
      SentUsersLand(oldByTag, newByTag, apiTag, plan, more);
    } else if AddUsers(more, plan.addedUsers).Some? {
      AddedAreSent(more, plan.addedUsers);
    }
  }

  lemma {:induction false} SentUsersAddable(oldByTag: map<string, Inbound>, newByTag: map<string, Inbound>, apiTag: string, plan: Plan,
                  more: map<string, Handler>, op: UserOp)
    requires PlanByTag(oldByTag, newByTag, apiTag, plan) && Prepared(oldByTag, newByTag, apiTag, plan, more)
    requires op in plan.addedUsers && SentBy(op).Some?
    ensures AddUser(more, op).Some? && op.tag in newByTag
  {
    assert Edits(oldByTag, newByTag, apiTag, op.tag);
    assert PreparedAt(oldByTag, newByTag, apiTag, plan, more[op.tag], op.tag);
    UserFresh(oldByTag, newByTag, apiTag, plan, more, op);
  }

  lemma {:induction false} SentUsersLand(oldByTag: map<string, Inbound>, newByTag: map<string, Inbound>, apiTag: string, plan: Plan,
                  more: map<string, Handler>)
    requires PlanByTag(oldByTag, newByTag, apiTag, plan) && Prepared(oldByTag, newByTag, apiTag, plan, more)
    requires AllSent(plan.addedUsers)
    ensures AddUsers(more, plan.addedUsers).Some?
    ensures AddUsers(more, plan.addedUsers) == Some(LoadInbounds(newByTag)) <==>
      forall op | op in plan.addedUsers :: Conveyed(op)
  {
    forall op | op in plan.addedUsers ensures AddUser(more, op).Some? && op.tag in newByTag {
      SentUsersAddable(oldByTag, newByTag, apiTag, plan, more, op);
    }
    AddUsersEffect(more, plan.addedUsers);
    var done := AddUsers(more, plan.addedUsers).value;
    forall t | t in newByTag
      ensures done[t] == Load(newByTag[t]) <==> forall op | op in plan.addedUsers && op.tag == t :: Conveyed(op)
    {
      assert PreparedAt(oldByTag, newByTag, apiTag, plan, more[t], t);
      KeptLandsAlike(oldByTag, newByTag, apiTag, plan, more[t], t);
    }
    SameHandlers(done, newByTag);
  }

  lemma {:induction false} SameHandlers(done: map<string, Handler>, newByTag: map<string, Inbound>)
    requires done.Keys == newByTag.Keys
    ensures done == LoadInbounds(newByTag) <==> forall t | t in newByTag :: done[t] == Load(newByTag[t])
  {
  }

  lemma {:induction false} StayersKeepPlaces(oldByTag: map<string, Inbound>, newByTag: map<string, Inbound>, apiTag: string, plan: Plan,
                                             fewer: map<string, Handler>)
    requires PlanByTag(oldByTag, newByTag, apiTag, plan)
    requires forall t :: t in fewer <==> t in oldByTag && !Leaves(oldByTag[t], newByTag, apiTag)
    requires forall t | t in fewer :: fewer[t] == Without(Load(oldByTag[t]), EmailsOf(plan.removedUsers, t))
    ensures PlacesKept(newByTag, fewer)
  {
    forall t, h | t in fewer
      ensures t in newByTag && Conflict(fewer[t], h) == Conflict(Load(newByTag[t]), h)
    {
      StayerKeepsPlace(oldByTag[t], newByTag, apiTag, h);
      EditKeepsPlace(Load(oldByTag[t]), EmailsOf(plan.removedUsers, t), h);
    }
  }

  /** The four groups of inbound calls: the removals always run, the additions exactly when nothing
      is in their way, and the outcome is the new handlers exactly when every client is conveyed. */
  lemma {:induction false} InboundsLand(oldByTag: map<string, Inbound>, newByTag: map<string, Inbound>, apiTag: string, plan: Plan)
    returns (fewer: map<string, Handler>)
    requires PlanByTag(oldByTag, newByTag, apiTag, plan)
    ensures var trimmed := RemoveUsers(LoadInbounds(oldByTag), plan.removedUsers);
      trimmed.Some? && DelInbounds(trimmed.value, plan.removedInboundTags) == Some(fewer)
    ensures AddInbounds(fewer, plan.addedInbounds).Some? <==> Unobstructed(oldByTag, newByTag, apiTag)
    ensures var more := AddInbounds(fewer, plan.addedInbounds);
      more.Some? ==>
        && (AddUsers(more.value, plan.addedUsers).Some? <==> AllSent(plan.addedUsers))
        && (AddUsers(more.value, plan.addedUsers) == Some(LoadInbounds(newByTag)) <==>
              forall op | op in plan.addedUsers :: Conveyed(op))
  {
    fewer := RemovalsLand(oldByTag, newByTag, apiTag, plan);
    forall t
      ensures t in fewer ==> t in newByTag
      ensures t in newByTag ==> (Vacant(oldByTag, newByTag, apiTag, t) <==> t !in fewer)
    {
      StaysOrVacant(oldByTag, newByTag, apiTag, plan, t);
    }
    StayersKeepPlaces(oldByTag, newByTag, apiTag, plan, fewer);
    AdditionsFit(oldByTag, newByTag, apiTag, plan, fewer);
    if AddInbounds(fewer, plan.addedInbounds).Some? {
      var more := AdditionsLand(oldByTag, newByTag, apiTag, plan, fewer);
      forall t | t in newByTag
        ensures PreparedAt(oldByTag, newByTag, apiTag, plan, more[t], t)
      {
      }
      UsersLand(oldByTag, newByTag, apiTag, plan, more);
    }
  }

  // ---------------------------------------------------------------- outbounds

  ghost predicate WellTagged(entries: seq<OutboundEntry>) {
    && (forall i, j | 0 <= i < j < |entries| :: entries[i].tag != entries[j].tag)
    && (forall i | 0 <= i < |entries| :: entries[i].tag != "" && TagOf(entries[i].value) == entries[i].tag)
  }

  lemma {:induction false} ReadIsWellTagged(elems: seq<Json>, done: seq<OutboundEntry>)
    requires WellTagged(done) && ReadOutbounds(elems, done).Some?
    ensures WellTagged(ReadOutbounds(elems, done).value)
    decreases |elems|
  {
    if elems != [] {
      var e := OutboundEntry(TagOf(elems[0]), elems[0]);
      forall i | 0 <= i < |done| ensures done[i].tag != e.tag {
        assert done[i].tag in Tags(done);
      }
      ReadIsWellTagged(elems[1..], done + [e]);
    }
  }

  lemma {:induction false} OutboundsWellTagged(raw: Raw)
    requires OutboundsOf(raw).Some?
    ensures WellTagged(OutboundsOf(raw).value)
  {
    if !raw.Absent? && Unmarshal(raw).value.Arr? {
      ReadIsWellTagged(Unmarshal(raw).value.items, []);
    }
  }

  /** Dropping the last entry drops exactly its tag. */
  lemma {:induction false} ByTagSnoc(entries: seq<OutboundEntry>)
    requires WellTagged(entries) && entries != []
    ensures var n := |entries| - 1;
      && WellTagged(entries[..n]) && entries[n].tag !in ByTag(entries[..n])
      && ByTag(entries) == ByTag(entries[..n])[entries[n].tag := entries[n].value]
  {
    var n := |entries| - 1;
    ByTagIs(entries[..n]);
  }

  lemma {:induction false} ByTagIs(entries: seq<OutboundEntry>)
    requires WellTagged(entries)
    ensures forall k | 0 <= k < |entries| :: entries[k].tag in ByTag(entries) && ByTag(entries)[entries[k].tag] == entries[k].value
    ensures forall t | t in ByTag(entries) :: OutboundEntry(t, ByTag(entries)[t]) in entries
    ensures forall t | t in ByTag(entries) :: t != "" && TagOf(ByTag(entries)[t]) == t
    decreases |entries|, 0
  {
    if entries != [] {
      var n := |entries| - 1;
      ByTagIs(entries[..n]);
      forall k | 0 <= k < |entries|
        ensures entries[k].tag in ByTag(entries) && ByTag(entries)[entries[k].tag] == entries[k].value
      {
        if k < n { assert entries[..n][k] == entries[k]; }
      }
      assert entries == entries[..n] + [entries[n]];
    }
  }

  predicate Stale(was: map<string, Json>, now: map<string, Json>, t: string) {
    t in was && !(t in now && now[t] == was[t])
  }

  ghost predicate TagsMatchValues(m: map<string, Json>) {
    forall t | t in m :: t != "" && TagOf(m[t]) == t
  }

  lemma {:induction false} RemovedOutboundsAre(olds: seq<OutboundEntry>, now: map<string, Json>)
    requires WellTagged(olds)
    ensures forall t :: t in RemovedOutbounds(olds, now) <==> Stale(ByTag(olds), now, t)
    ensures Distinct(RemovedOutbounds(olds, now))
  {
    if olds != [] {
      var n := |olds| - 1;
      ByTagSnoc(olds);
      RemovedOutboundsAre(olds[..n], now);
      var before := RemovedOutbounds(olds[..n], now);
      assert olds[n].tag !in before by {
        assert !Stale(ByTag(olds[..n]), now, olds[n].tag);
      }
      DistinctSnoc(before, olds[n].tag);
    }
  }

  lemma {:induction false} ReplacedOutboundsAre(olds: seq<OutboundEntry>, now: map<string, Json>)
    requires WellTagged(olds) && TagsMatchValues(now)
    ensures var elems := ReplacedOutbounds(olds, now);
      && (forall e | e in elems :: Stale(ByTag(olds), now, TagOf(e)) && TagOf(e) in now && e == now[TagOf(e)])
      && (forall t | Stale(ByTag(olds), now, t) && t in now :: now[t] in elems)
      && (forall i, j | 0 <= i < j < |elems| :: TagOf(elems[i]) != TagOf(elems[j]))
  {
    if olds != [] {
      ByTagSnoc(olds);
      ReplacedOutboundsAre(olds[..|olds| - 1], now);
    }
  }

  lemma {:induction false} NewOutboundsAre(news: seq<OutboundEntry>, was: map<string, Json>)
    requires WellTagged(news)
    ensures var elems := NewOutbounds(news, was);
      && (forall e | e in elems :: TagOf(e) !in was && TagOf(e) in ByTag(news) && e == ByTag(news)[TagOf(e)])
      && (forall t | t in ByTag(news) && t !in was :: ByTag(news)[t] in elems)
      && (forall i, j | 0 <= i < j < |elems| :: TagOf(elems[i]) != TagOf(elems[j]))
  {
    if news != [] {
      ByTagSnoc(news);
      NewOutboundsAre(news[..|news| - 1], was);
    }
  }

  /** The elements the plan adds: one for every tag that is stale or new, and no other. */
  lemma {:induction false} AddedOutboundsAre(olds: seq<OutboundEntry>, news: seq<OutboundEntry>)
    requires WellTagged(olds) && WellTagged(news)
    ensures forall e | e in ReplacedOutbounds(olds, ByTag(news)) + NewOutbounds(news, ByTag(olds)) ::
      && TagOf(e) != "" && TagOf(e) in ByTag(news) && e == ByTag(news)[TagOf(e)]
      && (TagOf(e) in ByTag(olds) ==> Stale(ByTag(olds), ByTag(news), TagOf(e)))
    ensures forall t | t in ByTag(news) && (t in ByTag(olds) ==> Stale(ByTag(olds), ByTag(news), t)) ::
      ByTag(news)[t] in ReplacedOutbounds(olds, ByTag(news)) + NewOutbounds(news, ByTag(olds))
    ensures DistinctElems(ReplacedOutbounds(olds, ByTag(news)) + NewOutbounds(news, ByTag(olds)))
  {
    ByTagIs(news);
    ReplacedOutboundsAre(olds, ByTag(news));
    NewOutboundsAre(news, ByTag(olds));
    var a, b := ReplacedOutbounds(olds, ByTag(news)), NewOutbounds(news, ByTag(olds));
    forall i, j | 0 <= i < j < |a + b| ensures TagOf((a + b)[i]) != TagOf((a + b)[j]) {
      if i < |a| <= j {
        assert a[i] in a && b[j - |a|] in b;
      }
    }
  }

  lemma {:induction false} OutboundRemovalsLand(core: Core, olds: seq<OutboundEntry>, now: map<string, Json>)
    requires WellTagged(olds) && olds != [] && core.outbounds == ByTag(olds)
    requires core.primary == Some(olds[0].tag) && !Stale(ByTag(olds), now, olds[0].tag)
    ensures DelOutbounds(core, RemovedOutbounds(olds, now)) == Some(core.(outbounds :=
      map t | t in ByTag(olds) && !Stale(ByTag(olds), now, t) :: ByTag(olds)[t]))
  {
    RemovedOutboundsAre(olds, now);
    DelOutboundsEffect(core, RemovedOutbounds(olds, now));
    assert (map t | t in core.outbounds && t !in RemovedOutbounds(olds, now) :: core.outbounds[t]) ==
           map t | t in ByTag(olds) && !Stale(ByTag(olds), now, t) :: ByTag(olds)[t];
  }

  lemma {:induction false} OutboundAdditionsLand(core: Core, was: map<string, Json>, now: map<string, Json>, elems: seq<Json>)
    requires core.primary.Some? && TagsMatchValues(now) && DistinctElems(elems)
    requires core.outbounds == map t | t in was && !Stale(was, now, t) :: was[t]
    requires forall e | e in elems :: TagOf(e) != "" && TagOf(e) in now && e == now[TagOf(e)]
    requires forall e | e in elems :: TagOf(e) in was ==> Stale(was, now, TagOf(e))
    requires forall t | t in now && (t in was ==> Stale(was, now, t)) :: now[t] in elems
    ensures AddOutbounds(core, elems) == Some(core.(outbounds := now))
  {
    AddOutboundsEffect(core, elems);
    var done := AddOutbounds(core, elems).value.outbounds;
    forall t | t in now ensures t in done && done[t] == now[t] {
      if t !in was || Stale(was, now, t) {
        assert now[t] in elems && TagOf(now[t]) == t;
      }
    }
    assert done.Keys == now.Keys;
    assert done == now;
  }

  /** The two groups of outbound calls: each legal, the default outbound untouched, every other
      one as in the new configuration. */
  lemma {:induction false} OutboundsLand(core: Core, olds: seq<OutboundEntry>, news: seq<OutboundEntry>)
    requires WellTagged(olds) && WellTagged(news) && olds != [] && news != [] && olds[0] == news[0]
    requires core.outbounds == ByTag(olds) && core.primary == Some(olds[0].tag)
    ensures var mid := DelOutbounds(core, RemovedOutbounds(olds, ByTag(news)));
      && mid.Some?
      && AddOutbounds(mid.value, ReplacedOutbounds(olds, ByTag(news)) + NewOutbounds(news, ByTag(olds))) ==
           Some(core.(outbounds := ByTag(news)))
  {
    assert !Stale(ByTag(olds), ByTag(news), olds[0].tag) && TagsMatchValues(ByTag(news)) by {
      ByTagIs(olds);
      ByTagIs(news);
    }
    OutboundRemovalsLand(core, olds, ByTag(news));
    AddedOutboundsAre(olds, news);
    OutboundAdditionsLand(DelOutbounds(core, RemovedOutbounds(olds, ByTag(news))).value, ByTag(olds), ByTag(news),
                          ReplacedOutbounds(olds, ByTag(news)) + NewOutbounds(news, ByTag(olds)));
  }

  // ---------------------------------------------------------------- the whole diff

  /** The routing part of an accepted diff can be applied: nothing changes, or the core started
      with a routing object and the new section is one JSON value and nothing else. */
  predicate RoutingAppliable(a: Config, b: Config) {
    || a.routing == b.routing
    || (a.routing.Text? && a.routing.value.Obj? && b.routing.Text? && !b.routing.trailing)
  }

  lemma {:induction false} RoutingLands(core: Core, a: Config, b: Config)
    requires RoutingReloadable(a, b) && a.routing != b.routing && core.routing == Canon(a.routing)
    ensures ApplyRouting(core, b.routing) ==
      if RoutingAppliable(a, b) then Some(core.(routing := Canon(b.routing))) else None
  {
    if RoutingAppliable(a, b) {
      var was, now := a.routing.value.fields, b.routing.value.fields;
      var kept := was - {"rules", "balancers"};
      var sent := map k | k in now && k in {"rules", "balancers"} :: now[k];
      assert kept == now - {"rules", "balancers"};
      assert kept + sent == now;
    }
  }

  lemma {:induction false} PlannedInbounds(a: Config, b: Config, plan: Plan)
    requires HotReloadable(a, b) && Planned(a, b, plan)
    ensures PlanByTag(IndexInbounds(a.inbounds, map[]).value, IndexInbounds(b.inbounds, map[]).value,
                      ApiTagFromConfig(b.api), plan)
  {
    PlanIsByTag(a.inbounds, b.inbounds, IndexInbounds(a.inbounds, map[]).value,
                IndexInbounds(b.inbounds, map[]).value, ApiTagFromConfig(b.api), plan);
  }

  lemma {:induction false} OutboundPart(core: Core, a: Config, b: Config, plan: Plan)
    requires HotReloadable(a, b) && Planned(a, b, plan)
    requires core.outbounds == Start(a).outbounds && core.primary == Start(a).primary
    ensures var mid := DelOutbounds(core, plan.removedOutboundTags);
      mid.Some? && AddOutbounds(mid.value, plan.addedOutbounds) == Some(core.(outbounds := Start(b).outbounds))
    ensures Start(b).primary == core.primary
  {
    var olds, news := OutboundsOf(a.outbounds).value, OutboundsOf(b.outbounds).value;
    OutboundsWellTagged(a.outbounds);
    OutboundsWellTagged(b.outbounds);
    if olds == [] {
      assert news == [];
    } else {
      OutboundsLand(core, olds, news);
    }
  }

  lemma {:induction false} StaticPart(a: Config, b: Config)
    requires StaticUnchanged(a, b) && Loadable(a) && Loadable(b)
    ensures Start(a).statics == Start(b).statics
  {
    StaticsAreCompared(a, b);
  }

  lemma {:induction false} Compared(table: seq<Pair>, i: nat)
    requires AllEqual(table) && i < |table|
    ensures Canon(table[i].was) == Canon(table[i].now)
  {
  }

  /** The table of the planner is complete: it finds no difference exactly when all that the core
      loads besides inbounds, outbounds and routing is the same. */
  lemma {:induction false} StaticsAreCompared(a: Config, b: Config)
    ensures StaticUnchanged(a, b) <==> LoadStatics(a) == LoadStatics(b)
  {
    var table := StaticTable(a, b);
    if AllEqual(table) {
      Compared(table, 0);
      Compared(table, 1);
      Compared(table, 2);
      Compared(table, 3);
      Compared(table, 4);
      Compared(table, 5);
      Compared(table, 6);
      Compared(table, 7);
      Compared(table, 8);
      Compared(table, 9);
      Compared(table, 10);
      Compared(table, 11);
      Compared(table, 12);
    }
  }

  /** Any change of meaning in a section without a reload API is refused. */
  lemma {:induction false} StaticChangeIsRefused(a: Config, b: Config)
    requires
      || Canon(a.log) != Canon(b.log) || Canon(a.dns) != Canon(b.dns) || Canon(a.transport) != Canon(b.transport)
      || Canon(a.policy) != Canon(b.policy) || Canon(a.api) != Canon(b.api) || Canon(a.stats) != Canon(b.stats)
      || Canon(a.reverse) != Canon(b.reverse) || Canon(a.fakedns) != Canon(b.fakedns)
      || Canon(a.observatory) != Canon(b.observatory) || Canon(a.burstObservatory) != Canon(b.burstObservatory)
      || Canon(a.metrics) != Canon(b.metrics) || Canon(a.geodata) != Canon(b.geodata) || Canon(a.env) != Canon(b.env)
    ensures !HotReloadable(a, b)
  {
    StaticsAreCompared(a, b);
  }

  /** No inbound the diff would add is in the way of another one of the new configuration. */
  ghost predicate PortsFree(a: Config, b: Config)
    requires InboundsReloadable(a, b)
  {
    Unobstructed(IndexInbounds(a.inbounds, map[]).value, IndexInbounds(b.inbounds, map[]).value,
                 ApiTagFromConfig(b.api))
  }

  /** The clients new or changed in an inbound that is edited in place. */
  function FreshIn(a: Config, b: Config): set<UserOp>
    requires InboundsReloadable(a, b)
  {
    AllFresh(a.inbounds, IndexInbounds(b.inbounds, map[]).value, ApiTagFromConfig(b.api))
  }

  /** The accounts of all of them can be built. */
  predicate ClientsSent(a: Config, b: Config)
    requires InboundsReloadable(a, b)
  {
    forall op | op in FreshIn(a, b) :: SentBy(op).Some?
  }

  /** And the call conveys each of them as the new configuration describes it. */
  predicate ClientsConveyed(a: Config, b: Config)
    requires InboundsReloadable(a, b)
  {
    forall op | op in FreshIn(a, b) :: Conveyed(op)
  }

  lemma {:induction false} RestOfPlan(core: Core, a: Config, b: Config, plan: Plan)
    requires HotReloadable(a, b) && Planned(a, b, plan) && Loadable(a) && Loadable(b)
    requires core == Start(a).(inbounds := core.inbounds, outbounds := Start(b).outbounds)
    ensures Rerouted(core, plan) == if RoutingAppliable(a, b) then Some(Start(b).(inbounds := core.inbounds)) else None
  {
    StaticPart(a, b);
    OutboundPart(Start(a), a, b, plan);
    if a.routing != b.routing {
      RoutingLands(core, a, b);
    }
  }

  /** What the two groups of additions leave of the handlers `fewer`. */
  function Added(fewer: map<string, Handler>, plan: Plan): Option<map<string, Handler>> {
    var more :- AddInbounds(fewer, plan.addedInbounds);
    AddUsers(more, plan.addedUsers)
  }

  /** The groups of calls put together, on any core. */
  lemma {:induction false} GroupsRun(core: Core, plan: Plan, fewer: map<string, Handler>, outs: map<string, Json>)
    requires var trimmed := RemoveUsers(core.inbounds, plan.removedUsers);
      trimmed.Some? && DelInbounds(trimmed.value, plan.removedInboundTags) == Some(fewer)
    requires var mid := DelOutbounds(core.(inbounds := fewer), plan.removedOutboundTags);
      mid.Some? && AddOutbounds(mid.value, plan.addedOutbounds) == Some(core.(inbounds := fewer, outbounds := outs))
    ensures Execute(core, plan) ==
      if Added(fewer, plan).None? then None
      else Rerouted(core.(inbounds := Added(fewer, plan).value, outbounds := outs), plan)
  {
  }

  /** The last call, if the plan has one. */
  function Rerouted(core: Core, plan: Plan): Option<Core> {
    if plan.routingConfig.Some? then ApplyRouting(core, plan.routingConfig.value) else Some(core)
  }

  /** Once the removals have left `fewer`, only the additions and the routing can fail. */
  lemma {:induction false} ExecutionIs(a: Config, b: Config, plan: Plan, fewer: map<string, Handler>)
    requires HotReloadable(a, b) && Planned(a, b, plan) && Loadable(a) && Loadable(b)
    requires var trimmed := RemoveUsers(Start(a).inbounds, plan.removedUsers);
      trimmed.Some? && DelInbounds(trimmed.value, plan.removedInboundTags) == Some(fewer)
    ensures Execute(Start(a), plan) ==
      if Added(fewer, plan).Some? && RoutingAppliable(a, b) then Some(Start(b).(inbounds := Added(fewer, plan).value)) else None
  {
    OutboundPart(Start(a).(inbounds := fewer), a, b, plan);
    GroupsRun(Start(a), plan, fewer, Start(b).outbounds);
    if Added(fewer, plan).Some? {
      RestOfPlan(Start(a).(inbounds := Added(fewer, plan).value, outbounds := Start(b).outbounds), a, b, plan);
    }
  }

  /** The additions run exactly when nothing is in their way and every account can be built. */
  lemma {:induction false} AdditionsAre(a: Config, b: Config, plan: Plan) returns (fewer: map<string, Handler>)
    requires HotReloadable(a, b) && Planned(a, b, plan)
    requires Loadable(a) && Loadable(b)
    ensures var trimmed := RemoveUsers(Start(a).inbounds, plan.removedUsers);
      trimmed.Some? && DelInbounds(trimmed.value, plan.removedInboundTags) == Some(fewer)
    ensures Added(fewer, plan).Some? <==> PortsFree(a, b) && AllSent(plan.addedUsers)
    ensures Added(fewer, plan) == Some(Start(b).inbounds) <==> PortsFree(a, b) && forall op | op in plan.addedUsers :: Conveyed(op)
  {
    PlannedInbounds(a, b, plan);
    fewer := InboundsLand(IndexInbounds(a.inbounds, map[]).value, IndexInbounds(b.inbounds, map[]).value,
                          ApiTagFromConfig(b.api), plan);
  }

  lemma {:induction false} FreshAreListed(a: Config, b: Config, plan: Plan)
    requires HotReloadable(a, b) && Planned(a, b, plan)
    ensures AllSent(plan.addedUsers) <==> ClientsSent(a, b)
    ensures (forall op | op in plan.addedUsers :: Conveyed(op)) <==> ClientsConveyed(a, b)
  {
    assert forall op :: op in plan.addedUsers <==> op in FreshIn(a, b);
  }

  lemma {:induction false} Conclude(done: Option<Core>, added: Option<map<string, Handler>>, target: Core,
                                    ports: bool, sent: bool, conveyed: bool, routing: bool)
    requires done == if added.Some? && routing then Some(target.(inbounds := added.value)) else None
    requires added.Some? <==> ports && sent
    requires added == Some(target.inbounds) <==> ports && conveyed
    ensures done.Some? <==> ports && sent && routing
    ensures done.Some? ==> done.value == target.(inbounds := done.value.inbounds)
    ensures done == Some(target) <==> ports && conveyed && routing
  {
  }

  /** Whatever the order the user operations were listed in: on a core that runs the old
      configuration an accepted diff runs to its end exactly when nothing is in the way of an added
      inbound, every account can be built and the routing part can be applied. It then ends in the
      core the new configuration would start, inbounds aside - and in that very core exactly when
      the calls convey every client in full. */
  lemma {:induction false} AcceptedDiffLands(a: Config, b: Config, plan: Plan)
    requires HotReloadable(a, b) && Planned(a, b, plan)
    ensures Loadable(a) && Loadable(b)
    ensures Execute(Start(a), plan).Some? <==> PortsFree(a, b) && ClientsSent(a, b) && RoutingAppliable(a, b)
    ensures Execute(Start(a), plan).Some? ==>
      var done := Execute(Start(a), plan).value; done == Start(b).(inbounds := done.inbounds)
    ensures Execute(Start(a), plan) == Some(Start(b)) <==>
      PortsFree(a, b) && ClientsConveyed(a, b) && RoutingAppliable(a, b)
  {
    var fewer := AdditionsAre(a, b, plan);
    ExecutionIs(a, b, plan, fewer);
    FreshAreListed(a, b, plan);
    Conclude(Execute(Start(a), plan), Added(fewer, plan), Start(b), PortsFree(a, b), ClientsSent(a, b),
             ClientsConveyed(a, b), RoutingAppliable(a, b));
  }

  lemma {:induction false} LeaverIsUnprotected(x: Inbound, newByTag: map<string, Inbound>, apiTag: string)
    requires Leaves(x, newByTag, apiTag)
    ensures x.tag != "api" && x.tag != apiTag
    ensures x.tag in newByTag ==>
      && !InboundUsesReality(x) && !InboundUsesReality(newByTag[x.tag])
      && !InboundHasReverseClient(x) && !InboundHasReverseClient(newByTag[x.tag])
  {
  }

  lemma {:induction false} TagsSpared(oldByTag: map<string, Inbound>, newByTag: map<string, Inbound>, apiTag: string, plan: Plan)
    requires PlanByTag(oldByTag, newByTag, apiTag, plan)
    ensures forall t | t in plan.removedInboundTags :: t != "api" && t != apiTag
    ensures forall d | d in plan.addedInbounds :: d.tag != "api" && d.tag != apiTag
    ensures forall op | op in plan.removedUsers || op in plan.addedUsers ::
      Edits(oldByTag, newByTag, apiTag, op.tag) && op.tag != "api" && op.tag != apiTag
  {
    forall t | t in plan.removedInboundTags ensures t != "api" && t != apiTag {
      LeaverIsUnprotected(oldByTag[t], newByTag, apiTag);
    }
    forall d | d in plan.addedInbounds ensures d.tag != "api" && d.tag != apiTag {
      assert Vacant(oldByTag, newByTag, apiTag, d.tag);
      if d.tag in oldByTag {
        LeaverIsUnprotected(oldByTag[d.tag], newByTag, apiTag);
      }
    }
  }

  /** What no accepted diff names: the api inbound, the default outbound, a handler with REALITY
      or with a reverse-tagged client that both configurations have, and - by a user operation -
      any inbound that is removed or added. */
  lemma {:induction false} AcceptedDiffSparesProtected(a: Config, b: Config, plan: Plan)
    requires HotReloadable(a, b) && Planned(a, b, plan)
    ensures forall t | t in plan.removedInboundTags :: t != "api" && t != ApiTagFromConfig(b.api)
    ensures forall d | d in plan.addedInbounds :: d.tag != "api" && d.tag != ApiTagFromConfig(b.api)
    ensures forall op | op in plan.removedUsers || op in plan.addedUsers ::
      && op.tag != "api" && op.tag != ApiTagFromConfig(b.api)
      && op.tag !in plan.removedInboundTags && forall d | d in plan.addedInbounds :: d.tag != op.tag
    ensures forall t | t in plan.removedOutboundTags :: Start(a).primary != Some(t)
  {
    PlannedInbounds(a, b, plan);
    TagsSpared(IndexInbounds(a.inbounds, map[]).value, IndexInbounds(b.inbounds, map[]).value,
               ApiTagFromConfig(b.api), plan);
    DefaultSpared(a, b);
  }

  lemma {:induction false} DefaultSpared(a: Config, b: Config)
    requires OutboundsReloadable(a, b) && Loadable(a)
    ensures forall t | t in RemovedOutbounds(OutboundsOf(a.outbounds).value, ByTag(OutboundsOf(b.outbounds).value)) ::
      Start(a).primary != Some(t)
  {
    var olds, news := OutboundsOf(a.outbounds).value, OutboundsOf(b.outbounds).value;
    OutboundsWellTagged(a.outbounds);
    OutboundsWellTagged(b.outbounds);
    if olds != [] {
      ByTagIs(olds);
      ByTagIs(news);
      RemovedOutboundsAre(olds, ByTag(news));
    }
  }

  // ---------------------------------------------------------------- what the planner looks for

  /** The fields of a section that is one JSON object with nothing after it. */
  function ObjectFields(raw: Raw): map<string, Json> {
    if raw.Text? && !raw.trailing && raw.value.Obj? then raw.value.fields else map[]
  }

  predicate SaysReality(ib: Inbound) {
    var stream := ObjectFields(ib.stream);
    "security" in stream && stream["security"] == Str("reality")
  }

  function ClientItems(ib: Inbound): seq<Json> {
    var settings := ObjectFields(ib.settings);
    if "clients" in settings && settings["clients"].Arr? then settings["clients"].items else []
  }

  predicate NullOrObject(v: Json) {
    v.Null? || v.Obj?
  }

  /** Some client of a readable list carries a reverse tag. */
  predicate HasReverseTag(ib: Inbound) {
    var clients := ClientItems(ib);
    && (forall i | 0 <= i < |clients| :: NullOrObject(clients[i]))
    && exists i | 0 <= i < |clients| ::
      clients[i].Obj? && "reverse" in clients[i].fields && clients[i].fields["reverse"] != Null
  }

  lemma {:induction false} RealityIs(ib: Inbound)
    ensures InboundUsesReality(ib) <==> SaysReality(ib)
  {
  }

  lemma {:induction false} ReverseIs(ib: Inbound)
    ensures InboundHasReverseClient(ib) <==> HasReverseTag(ib)
  {
    var clients := ClientItems(ib);
    assert forall i | 0 <= i < |clients| :: ReverseClient(clients[i]) <==>
      clients[i].Obj? && "reverse" in clients[i].fields && clients[i].fields["reverse"] != Null;
    if InboundHasReverseClient(ib) {
      assert forall i | 0 <= i < |clients| :: NullOrObject(clients[i]);
    }
  }

  /** REALITY inbounds and reverse portals that both configurations have are never swapped. */
  lemma {:induction false} AcceptedDiffNeverSwapsReality(a: Config, b: Config, plan: Plan, x: Inbound, y: Inbound)
    requires HotReloadable(a, b) && Planned(a, b, plan)
    requires x in a.inbounds && y in b.inbounds && x.tag == y.tag
    requires SaysReality(x) || SaysReality(y) || HasReverseTag(x) || HasReverseTag(y)
    ensures x.tag !in plan.removedInboundTags
  {
    RealityIs(x);
    RealityIs(y);
    ReverseIs(x);
    ReverseIs(y);
    PlannedInbounds(a, b, plan);
    IndexedInbounds(a.inbounds, map[]);
    IndexedInbounds(b.inbounds, map[]);
    var newByTag := IndexInbounds(b.inbounds, map[]).value;
    if x.tag in plan.removedInboundTags {
      LeaverIsUnprotected(x, newByTag, ApiTagFromConfig(b.api));
    }
  }

  predicate Trails(raw: Raw) {
    raw.Text? && raw.trailing
  }

  /** The tag the value of an api section names, whatever follows the value. */
  function NamedTag(s: Section): string {
    if s.Parsed? && StringField(s.value, "tag").Some? && StringField(s.value, "tag").value != ""
    then StringField(s.value, "tag").value else "api"
  }

  /** The protected tag is the one the new api section names, or "api" when bytes follow the
      section's value; the old section gives the same tag exactly when bytes follow both values or
      neither, or the tag is "api" anyhow. */
  lemma {:induction false} ProtectedTagIsTheRunningOne(a: Config, b: Config)
    requires StaticUnchanged(a, b)
    ensures Canon(a.api) == Canon(b.api)
    ensures ApiTagFromConfig(b.api) ==
      if Trails(b.api) then "api" else NamedTag(Canon(b.api))
    ensures ApiTagFromConfig(a.api) == ApiTagFromConfig(b.api) <==>
      || (Trails(a.api) <==> Trails(b.api))
      || NamedTag(Canon(b.api)) == "api"
  {
    StaticsAreCompared(a, b);
  }

  // ---------------------------------------------------------------- listeners

  /** Because removals run first, inbounds can trade ports: when no two inbounds of the new
      configuration are in each other's way, no addition finds its place taken, whatever the old
      configuration had there. */
  lemma {:induction false} AdditionsFindTheirPortsFree(a: Config, b: Config)
    requires InboundsReloadable(a, b)
    requires forall x, y | x in b.inbounds && y in b.inbounds && x.tag != y.tag :: !Conflict(Load(x), Load(y))
    ensures PortsFree(a, b)
  {
    IndexedInbounds(b.inbounds, map[]);
  }
}
