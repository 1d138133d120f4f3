/** The search for a free name, base, base-2, base-3 and so on, and the passes that use it: unique
    proxy names in a Clash profile and fresh client emails in two migrations. */
module UniqueNames {
  import opened Collections
  import opened Wrappers
  import opened Text
  import opened Decimal

  // ---------------------------------------------------------------- the search

  /** The `n`-th name the search tries. */
  function Candidate(base: Bytes, n: nat): Bytes {
    if n <= 1 then base else base + "-" + Itoa(n)
  }

  lemma {:induction false} CandidatesDiffer(base: Bytes, j: nat, k: nat)
    requires 1 <= j < k
    ensures Candidate(base, j) != Candidate(base, k)
  {
    ItoaReadsBack(j);
    ItoaReadsBack(k);
    CancelPrefix(base + "-", Itoa(j), Itoa(k));
    assert |Candidate(base, k)| > |base|;
  }

  lemma {:induction false} CancelPrefix<T>(p: seq<T>, x: seq<T>, y: seq<T>)
    ensures p + x == p + y ==> x == y
  {
    assert (p + x)[|p|..] == x && (p + y)[|p|..] == y;
  }

  /** As many taken candidates, as many names taken: they are all different. */
  lemma {:induction false} TriedAreTaken(base: Bytes, taken: set<Bytes>, n: nat)
    requires forall k | 1 <= k <= n :: Candidate(base, k) in taken
    ensures n <= |taken|
    decreases n
  {
    if n > 0 {
      var rest := taken - {Candidate(base, n)};
      forall k | 1 <= k <= n - 1
        ensures Candidate(base, k) in rest
      {
        CandidatesDiffer(base, k, n);
      }
      TriedAreTaken(base, rest, n - 1);
      assert taken == rest + {Candidate(base, n)};
    }
  }

  /** `name` is the first candidate that is not taken, found within one more try than names taken. */
  ghost predicate FirstFree(base: Bytes, taken: set<Bytes>, name: Bytes) {
    exists k: nat | 1 <= k <= |taken| + 1 :: FreeAt(base, taken, name, k)
  }

  ghost predicate FreeAt(base: Bytes, taken: set<Bytes>, name: Bytes, k: nat) {
    && name == Candidate(base, k) && name !in taken
    && forall j | 1 <= j < k :: Candidate(base, j) in taken
  }

  method FreeName(base: Bytes, taken: set<Bytes>) returns (name: Bytes)
    ensures FirstFree(base, taken, name)
  {
    name := base;
    var n: nat := 2;
    while name in taken
      invariant n >= 2 && name == Candidate(base, n - 1)
      invariant forall j | 1 <= j < n - 1 :: Candidate(base, j) in taken
      decreases |taken| + 2 - n
    {
      TriedAreTaken(base, taken, n - 1);
      name := base + "-" + Itoa(n);
      n := n + 1;
    }
    TriedAreTaken(base, taken, n - 2);
    assert FreeAt(base, taken, name, n - 1);
  }

  lemma {:induction false} FirstFreeIsUnique(base: Bytes, taken: set<Bytes>, a: Bytes, b: Bytes)
    requires FirstFree(base, taken, a) && FirstFree(base, taken, b)
    ensures a == b
  {
    var j: nat :| 1 <= j <= |taken| + 1 && FreeAt(base, taken, a, j);
    var k: nat :| 1 <= k <= |taken| + 1 && FreeAt(base, taken, b, k);
    assert !(j < k) && !(k < j);
  }

  // ---------------------------------------------------------------- a whole pass

  ghost function Names(s: seq<Bytes>): set<Bytes> {
    set x | x in s
  }

  /** The names a pass over `bases` gives, each the first free one at its turn. */
  ghost predicate Assigned(bases: seq<Bytes>, taken: set<Bytes>, names: seq<Bytes>) {
    && |names| == |bases|
    && forall i | 0 <= i < |names| :: Turn(bases, taken, names, i)
  }

  ghost predicate Turn(bases: seq<Bytes>, taken: set<Bytes>, names: seq<Bytes>, i: nat)
    requires i < |names| == |bases|
  {
    FirstFree(bases[i], taken + Names(names[..i]), names[i])
  }

  lemma {:induction false} NamesOneMore(names: seq<Bytes>, name: Bytes)
    ensures Names(names + [name]) == Names(names) + {name}
  {
  }

  lemma {:induction false} Earlier<T>(s: seq<T>, x: T, i: nat)
    requires i <= |s|
    ensures (s + [x])[..i] == s[..i] && (i < |s| ==> (s + [x])[i] == s[i]) && (i == |s| ==> s[..i] == s && (s + [x])[i] == x)
  {
  }

  lemma {:induction false} AssignedOneMore(bases: seq<Bytes>, taken: set<Bytes>, names: seq<Bytes>, base: Bytes, name: Bytes)
    requires Assigned(bases, taken, names) && FirstFree(base, taken + Names(names), name)
    ensures Assigned(bases + [base], taken, names + [name])
  {
    forall i | 0 <= i < |names + [name]|
      ensures Turn(bases + [base], taken, names + [name], i)
    {
      Earlier(names, name, i);
      Earlier(bases, base, i);
      assert i < |names| ==> Turn(bases, taken, names, i);
    }
  }

  /** One turn of a pass. */
  method TakeName(base: Bytes, seen: set<Bytes>, ghost bases: seq<Bytes>, ghost taken: set<Bytes>, ghost names: seq<Bytes>)
    returns (name: Bytes)
    requires Assigned(bases, taken, names) && seen == taken + Names(names)
    ensures Assigned(bases + [base], taken, names + [name]) && seen + {name} == taken + Names(names + [name])
    ensures FirstFree(base, seen, name)
  {
    name := FreeName(base, seen);
    AssignedOneMore(bases, taken, names, base, name);
    NamesOneMore(names, name);
  }

  /** No two names of a pass are equal, and none was taken before. */
  lemma {:induction false} AssignedAreDistinct(bases: seq<Bytes>, taken: set<Bytes>, names: seq<Bytes>)
    requires Assigned(bases, taken, names)
    ensures forall i, j | 0 <= i < j < |names| :: names[i] != names[j]
    ensures forall i | 0 <= i < |names| :: names[i] !in taken
  {
    forall i, j | 0 <= i < j < |names|
      ensures names[i] != names[j]
    {
      assert Turn(bases, taken, names, j);
      assert names[..j][i] == names[i];
    }
    forall i | 0 <= i < |names|
      ensures names[i] !in taken
    {
      assert Turn(bases, taken, names, i);
    }
  }

  /** A base not taken when its turn comes is kept as it is; every name begins with its base. */
  lemma {:induction false} FreeBaseIsKept(bases: seq<Bytes>, taken: set<Bytes>, names: seq<Bytes>, i: nat)
    requires Assigned(bases, taken, names) && i < |bases|
    ensures bases[i] !in taken + Names(names[..i]) ==> names[i] == bases[i]
    ensures bases[i] <= names[i]
  {
    var before := taken + Names(names[..i]);
    assert Turn(bases, taken, names, i);
    var k: nat :| 1 <= k <= |before| + 1 && FreeAt(bases[i], before, names[i], k);
    if k > 1 {
      assert Candidate(bases[i], 1) in before;
    }
  }

  /** The outcome of a pass is determined. */
  lemma {:induction false} AssignedIsUnique(bases: seq<Bytes>, taken: set<Bytes>, a: seq<Bytes>, b: seq<Bytes>, n: nat)
    requires Assigned(bases, taken, a) && Assigned(bases, taken, b) && n <= |bases|
    ensures a[..n] == b[..n]
    decreases n
  {
    if n > 0 {
      AssignedIsUnique(bases, taken, a, b, n - 1);
      SameTurn(bases, taken, a, b, n - 1);
      SameOneMore(a, b, n);
    }
  }

  lemma {:induction false} SameTurn(bases: seq<Bytes>, taken: set<Bytes>, a: seq<Bytes>, b: seq<Bytes>, i: nat)
    requires Assigned(bases, taken, a) && Assigned(bases, taken, b) && i < |bases| && a[..i] == b[..i]
    ensures a[i] == b[i]
  {
    assert Turn(bases, taken, a, i) && Turn(bases, taken, b, i);
    FirstFreeIsUnique(bases[i], taken + Names(a[..i]), a[i], b[i]);
  }

  /** Names that are distinct, free and non-empty already are left alone. */
  lemma {:induction false} DistinctAreLeftAlone(bases: seq<Bytes>, taken: set<Bytes>, names: seq<Bytes>, n: nat)
    requires Assigned(bases, taken, names) && n <= |bases|
    requires forall i, j | 0 <= i < j < |bases| :: bases[i] != bases[j]
    requires forall i | 0 <= i < |bases| :: bases[i] !in taken
    ensures names[..n] == bases[..n]
    decreases n
  {
    if n > 0 {
      DistinctAreLeftAlone(bases, taken, names, n - 1);
      NotAmongEarlier(bases, n - 1);
      FreeBaseIsKept(bases, taken, names, n - 1);
      SameOneMore(names, bases, n);
    }
  }

  lemma {:induction false} SameOneMore<T>(a: seq<T>, b: seq<T>, n: nat)
    requires 0 < n <= |a| && n <= |b| && a[..n - 1] == b[..n - 1] && a[n - 1] == b[n - 1]
    ensures a[..n] == b[..n]
  {
    TakeOneMore(a, n);
    TakeOneMore(b, n);
  }

  lemma {:induction false} NotAmongEarlier<T>(s: seq<T>, i: nat)
    requires i < |s| && forall j, k | 0 <= j < k < |s| :: s[j] != s[k]
    ensures s[i] !in s[..i]
  {
  }

  // ---------------------------------------------------------------- Clash proxies

  /** A proxy of the profile; its name is rewritten in place. */
  class Proxy {
    var name: Option<Bytes>
    const typ: Bytes
    const server: Bytes
    const port: Bytes

    constructor (name: Option<Bytes>, typ: Bytes, server: Bytes, port: Bytes)
      ensures this.name == name && this.typ == typ && this.server == server && this.port == port
    {
      this.name, this.typ, this.server, this.port := name, typ, server, port;
    }

    predicate Named(n: Bytes)
      reads this
    {
      name == Some(n)
    }

    function Fallback(idx: nat): (r: Bytes)
      ensures r != []
    {
      if typ != [] && server != [] then typ + "-" + server + "-" + port
      else "proxy-" + Itoa(idx + 1)
    }

    function Base(idx: nat): (r: Bytes)
      reads this
      ensures r != []
    {
      if name.Some? && name.value != [] then name.value else Fallback(idx)
    }
  }

  ghost function Bases(proxies: seq<Proxy>): seq<Bytes>
    reads proxies
  {
    seq(|proxies|, i requires 0 <= i < |proxies| reads proxies => proxies[i].Base(i))
  }

  ghost predicate EachOnce(proxies: seq<Proxy>) {
    forall i, j | 0 <= i < j < |proxies| :: proxies[i] != proxies[j]
  }

  /** The names of the first `n` proxies are usable: none empty, none shared by two of them. */
  ghost predicate Usable(proxies: seq<Proxy>, n: nat)
    requires n <= |proxies|
    reads proxies
  {
    && (forall i | 0 <= i < n :: proxies[i].name.Some? && proxies[i].name.value != [])
    && (forall i, j | 0 <= i < n && 0 <= j < n && proxies[i] != proxies[j] :: proxies[i].name != proxies[j].name)
  }

  ghost predicate AllSeen(proxies: seq<Proxy>, n: nat, seen: set<Bytes>)
    requires n <= |proxies|
    reads proxies
  {
    forall i | 0 <= i < n :: proxies[i].name.Some? && proxies[i].name.value in seen
  }

  lemma {:induction false} FreeIsUsable(base: Bytes, taken: set<Bytes>, name: Bytes)
    requires FirstFree(base, taken, name) && base != []
    ensures name != [] && name !in taken
  {
  }

  method Rename(proxy: Proxy, idx: nat, seen: set<Bytes>, ghost bases: seq<Bytes>, ghost names: seq<Bytes>)
    returns (name: Bytes)
    requires Assigned(bases, {}, names) && seen == {} + Names(names)
    modifies proxy
    ensures proxy.Named(name) && name != [] && name !in seen
    ensures Assigned(bases + [old(proxy.Base(idx))], {}, names + [name]) && seen + {name} == {} + Names(names + [name])
  {
    name := TakeName(proxy.Base(idx), seen, bases, {}, names);
    FreeIsUsable(proxy.Base(idx), seen, name);
    proxy.name := Some(name);
  }

  ghost predicate Passed(proxies: seq<Proxy>, n: nat, seen: set<Bytes>)
    reads proxies
  {
    n <= |proxies| && Usable(proxies, n) && AllSeen(proxies, n, seen)
  }

  /** With each proxy listed once: the first `n` have their new names, the others what they had. */
  ghost predicate InPlace(proxies: seq<Proxy>, n: nat, first: seq<Bytes>, bases: seq<Bytes>, names: seq<Bytes>)
    requires n <= |proxies| == |first| && |bases| == |names| == n
    reads proxies
  {
    EachOnce(proxies) ==>
      && bases == first[..n]
      && (forall i | 0 <= i < n :: proxies[i].Named(names[i]))
      && (forall i | n <= i < |proxies| :: proxies[i].Base(i) == first[i])
  }

  method RenameNext(proxies: seq<Proxy>, i: nat, seen: set<Bytes>, ghost bases: seq<Bytes>, ghost names: seq<Bytes>)
    returns (name: Bytes)
    requires i < |proxies| && Assigned(bases, {}, names) && seen == {} + Names(names) && Passed(proxies, i, seen)
    modifies proxies[i]
    ensures proxies[i].Named(name)
    ensures Assigned(bases + [old(proxies[i].Base(i))], {}, names + [name]) && seen + {name} == {} + Names(names + [name])
    ensures Passed(proxies, i + 1, seen + {name})
  {
    name := Rename(proxies[i], i, seen, bases, names);
  }

  /** The loop over the proxies. */
  method RenameAll(proxies: seq<Proxy>, ghost first: seq<Bytes>) returns (ghost bases: seq<Bytes>, ghost names: seq<Bytes>)
    requires first == Bases(proxies)
    modifies proxies
    ensures Assigned(bases, {}, names) && |names| == |proxies|
    ensures Usable(proxies, |proxies|)
    ensures EachOnce(proxies) ==> bases == first && forall i | 0 <= i < |proxies| :: proxies[i].Named(names[i])
  {
    bases, names := [], [];
    var seen: set<Bytes> := {};
    for i := 0 to |proxies|
      invariant |bases| == |names| == i && seen == {} + Names(names) && Assigned(bases, {}, names)
      invariant Passed(proxies, i, seen) && InPlace(proxies, i, first, bases, names)
    {
      TakeOneMore(first, i + 1);
      ghost var base := proxies[i].Base(i);
      var name := RenameNext(proxies, i, seen, bases, names);
      bases, names, seen := bases + [base], names + [name], seen + {name};
    }
    TakeAll(first);
  }

  /** `bases` and `names` are what each proxy had at its turn and was given then. A proxy listed
      twice is renamed at its second turn; otherwise the bases are the names the pass began with. */
  method EnsureUniqueProxyNames(proxies: seq<Proxy>) returns (ghost bases: seq<Bytes>, ghost names: seq<Bytes>)
    modifies proxies
    ensures Assigned(bases, {}, names) && |names| == |proxies|
    ensures Usable(proxies, |proxies|)
    ensures EachOnce(proxies) ==>
      bases == old(Bases(proxies)) && forall i | 0 <= i < |proxies| :: proxies[i].Named(names[i])
    ensures old(Usable(proxies, |proxies|)) && EachOnce(proxies) ==>
      forall i | 0 <= i < |proxies| :: proxies[i].name == old(proxies[i].name)
  {
    ghost var first := Bases(proxies);
    ghost var usable := Usable(proxies, |proxies|) && EachOnce(proxies);
    if usable {
      UsableAreBases(proxies);
    }
    bases, names := RenameAll(proxies, first);
    if usable {
      DistinctStay(first, names);
    }
  }

  ghost predicate AllDiffer(names: seq<Bytes>) {
    forall i, j | 0 <= i < j < |names| :: names[i] != names[j]
  }

  lemma {:induction false} UsableAreBases(proxies: seq<Proxy>)
    requires Usable(proxies, |proxies|) && EachOnce(proxies)
    ensures AllDiffer(Bases(proxies)) && forall i | 0 <= i < |proxies| :: proxies[i].name == Some(Bases(proxies)[i])
  {
    forall i | 0 <= i < |proxies|
      ensures proxies[i].name == Some(Bases(proxies)[i])
    {
    }
    forall i, j | 0 <= i < j < |proxies|
      ensures Bases(proxies)[i] != Bases(proxies)[j]
    {
      assert proxies[i] != proxies[j] && proxies[i].name != proxies[j].name;
    }
  }

  lemma {:induction false} DistinctStay(bases: seq<Bytes>, names: seq<Bytes>)
    requires AllDiffer(bases) && Assigned(bases, {}, names)
    ensures names == bases
  {
    DistinctAreLeftAlone(bases, {}, names, |bases|);
    TakeAll(bases);
    TakeAll(names);
  }

  /** A proxy without a name is called by its type, server and port, or by its place when it lacks
      one of the first two. */
  lemma {:induction false} UnnamedIsCalled(typ: Bytes, server: Bytes, port: Bytes, idx: nat, proxy: Proxy)
    requires proxy.typ == typ && proxy.server == server && proxy.port == port && (proxy.name == None || proxy.name == Some([]))
    ensures typ != [] && server != [] ==> proxy.Base(idx) == Join([typ, server, port], "-")
    ensures typ == [] || server == [] ==> proxy.Base(idx) == "proxy-" + Itoa(idx + 1)
  {
    assert [typ, server, port][1..] == [server, port] && [server, port][1..] == [port];
    assert Join([server, port], "-") == server + "-" + port;
    assert typ + "-" + (server + "-" + port) == typ + "-" + server + "-" + port;
  }

  lemma {:induction false} TakeAll<T>(s: seq<T>)
    ensures s[..|s|] == s
  {
  }

  // ---------------------------------------------------------------- client emails

  /** strings.ReplaceAll of " " by "-". */
  function Dashed(s: Bytes): Bytes
    decreases |s|
  {
    if s == [] then [] else [if s[0] == ' ' then '-' else s[0]] + Dashed(s[1..])
  }

  /** Only spaces are replaced, each by a dash; every other byte stays in its place. */
  lemma {:induction false} DashedIs(s: Bytes)
    ensures |Dashed(s)| == |s| && ' ' !in Dashed(s)
    ensures forall i | 0 <= i < |s| :: Dashed(s)[i] == if s[i] == ' ' then '-' else s[i]
    decreases |s|
  {
    if s != [] {
      DashedIs(s[1..]);
    }
  }

  /** A migrated email has no space in it and is not empty, whatever the search had to append. */
  lemma {:induction false} EmailShape(text: Bytes, taken: set<Bytes>, email: Bytes)
    requires text != [] && FirstFree(Dashed(text), taken, email)
    ensures email != [] && ' ' !in email && email !in taken
  {
    DashedIs(text);
    var k: nat :| 1 <= k <= |taken| + 1 && FreeAt(Dashed(text), taken, email, k);
    ItoaReadsBack(k);
  }

  function OrDefault(remark: Bytes, default: Bytes): Bytes {
    if TrimSpace(remark) == [] then default else TrimSpace(remark)
  }

  /** A legacy peer: not an object, or one with perhaps a comment that is a string. */
  datatype Peer = Malformed | Peer(comment: Option<Bytes>)

  function PeerBase(remark: Bytes, comment: Option<Bytes>, index: nat): Bytes {
    var suffix := if comment.Some? && TrimSpace(comment.value) != [] then TrimSpace(comment.value) else Itoa(index + 1);
    Dashed(OrDefault(remark, "wg") + "-" + suffix)
  }

  function PeerBases(remark: Bytes, peers: seq<Peer>): seq<Bytes>
    decreases |peers|
  {
    if peers == [] then [] else
      var last := |peers| - 1;
      PeerBases(remark, peers[..last]) +
      (if peers[last].Malformed? then [] else [PeerBase(remark, peers[last].comment, last)])
  }

  /** How many well-formed peers there are among the first `i`. */
  function Before(peers: seq<Peer>, i: nat): nat
    requires i <= |peers|
    decreases i
  {
    if i == 0 then 0 else Before(peers, i - 1) + if peers[i - 1].Peer? then 1 else 0
  }

  lemma {:induction false} BeforeWithin(peers: seq<Peer>, n: nat, i: nat)
    requires i <= n <= |peers|
    ensures Before(peers[..n], i) == Before(peers, i) <= Before(peers, n)
    decreases n, i
  {
    if i > 0 {
      BeforeWithin(peers, n, i - 1);
    }
    if i < n {
      BeforeWithin(peers, n - 1, i);
    }
  }

  /** Malformed peers get no email but count for the numbering: each of the others gets the base of
      its own place, in order. */
  lemma {:induction false} PeersInOrder(remark: Bytes, peers: seq<Peer>, i: nat)
    requires i < |peers|
    ensures |PeerBases(remark, peers)| == Before(peers, |peers|)
    ensures peers[i].Peer? ==>
      && Before(peers, i) < |PeerBases(remark, peers)|
      && PeerBases(remark, peers)[Before(peers, i)] == PeerBase(remark, peers[i].comment, i)
    decreases |peers|
  {
    var n := |peers| - 1;
    BeforeWithin(peers, n, n);
    if n > 0 {
      PeersInOrder(remark, peers[..n], if i < n then i else 0);
    }
    if i < n {
      BeforeWithin(peers, n, i);
    }
  }

  /** Where there are no spaces and nothing is blank, a peer is called by the remark and its comment,
      or by the remark and its place, counted from one; a blank remark counts as "wg". */
  lemma {:induction false} PeerIsCalled(remark: Bytes, comment: Bytes, index: nat)
    requires TrimSpace(remark) == remark && TrimSpace(comment) == comment != [] && ' ' !in remark && ' ' !in comment
    ensures var name: Bytes := if remark == [] then "wg" else remark;
      && PeerBase(remark, Some(comment), index) == name + "-" + comment
      && PeerBase(remark, None, index) == name + "-" + Itoa(index + 1)
      && PeerBase(remark, Some([]), index) == name + "-" + Itoa(index + 1)
  {
    var nothing: Bytes := [];
    assert TrimSpace(nothing) == [];
    var name: Bytes := if remark == [] then "wg" else remark;
    ItoaReadsBack(index + 1);
    NoSpacesStay(name + "-" + comment);
    NoSpacesStay(name + "-" + Itoa(index + 1));
  }

  lemma {:induction false} NoSpacesStay(s: Bytes)
    requires ' ' !in s
    ensures Dashed(s) == s
  {
    DashedIs(s);
    forall i | 0 <= i < |s|
      ensures Dashed(s)[i] == s[i]
    {
      assert s[i] in s;
    }
  }

  /** The emails the WireGuard migration gives the peers of one inbound. */
  method PeerEmails(remark: Bytes, peers: seq<Peer>, used: set<Bytes>) returns (emails: seq<Bytes>, taken: set<Bytes>)
    ensures Assigned(PeerBases(remark, peers), used, emails)
    ensures taken == used + Names(emails)
  {
    emails := [];
    taken := used;
    for i := 0 to |peers|
      invariant Assigned(PeerBases(remark, peers[..i]), used, emails)
      invariant taken == used + Names(emails)
    {
      assert peers[..i + 1][..i] == peers[..i];
      if peers[i].Peer? {
        var base := PeerBase(remark, peers[i].comment, i);
        var email := TakeName(base, taken, PeerBases(remark, peers[..i]), used, emails);
        emails := emails + [email];
        taken := taken + {email};
      } else {
        ConcatNil(PeerBases(remark, peers[..i]));
      }
    }
    assert peers[..|peers|] == peers;
  }

  function InboundBase(remark: Bytes): Bytes {
    Dashed(OrDefault(remark, "mtproto"))
  }

  function InboundBases(remarks: seq<Bytes>): seq<Bytes>
    decreases |remarks|
  {
    if remarks == [] then [] else InboundBases(remarks[..|remarks| - 1]) + [InboundBase(remarks[|remarks| - 1])]
  }

  lemma {:induction false} InboundBasesOneMore(remarks: seq<Bytes>, i: nat)
    requires i < |remarks|
    ensures InboundBases(remarks[..i + 1]) == InboundBases(remarks[..i]) + [InboundBase(remarks[i])]
  {
    assert remarks[..i + 1][..i] == remarks[..i];
  }

  lemma {:induction false} InboundsInOrder(remarks: seq<Bytes>, i: nat)
    requires i < |remarks|
    ensures |InboundBases(remarks)| == |remarks| && InboundBases(remarks)[i] == InboundBase(remarks[i])
    decreases |remarks|
  {
    var n := |remarks| - 1;
    if n > 0 {
      InboundsInOrder(remarks[..n], if i < n then i else 0);
    }
  }

  /** Each inbound is called by its remark, and by "mtproto" when that is blank. */
  lemma {:induction false} InboundIsCalled(remarks: seq<Bytes>, i: nat)
    requires i < |remarks|
    ensures |InboundBases(remarks)| == |remarks|
    ensures remarks[i] == [] ==> InboundBases(remarks)[i] == "mtproto"
    ensures TrimSpace(remarks[i]) == remarks[i] != [] && ' ' !in remarks[i] ==> InboundBases(remarks)[i] == remarks[i]
  {
    InboundsInOrder(remarks, i);
    BaseOfRemark(remarks[i]);
  }

  lemma {:induction false} BaseOfRemark(remark: Bytes)
    ensures remark == [] ==> InboundBase(remark) == "mtproto"
    ensures TrimSpace(remark) == remark != [] && ' ' !in remark ==> InboundBase(remark) == remark
  {
    var nothing: Bytes := [];
    assert TrimSpace(nothing) == [];
    NoSpacesStay("mtproto");
    if ' ' !in remark {
      NoSpacesStay(remark);
    }
  }

  /** The emails the MTProto migration gives its inbounds. */
  method InboundEmails(remarks: seq<Bytes>, used: set<Bytes>) returns (emails: seq<Bytes>)
    ensures Assigned(InboundBases(remarks), used, emails)
  {
    emails := [];
    var taken := used;
    for i := 0 to |remarks|
      invariant Assigned(InboundBases(remarks[..i]), used, emails)
      invariant taken == used + Names(emails)
    {
      InboundBasesOneMore(remarks, i);
      var email := TakeName(InboundBase(remarks[i]), taken, InboundBases(remarks[..i]), used, emails);
      emails := emails + [email];
      taken := taken + {email};
    }
    assert remarks[..|remarks|] == remarks;
  }
}
