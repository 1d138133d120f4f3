/** The panel's own rule for inbounds that cannot share a port. */
module Listeners {
  import opened JsonModel

  /** The transport protocols an inbound listens on. */
  datatype Transports = Transports(tcp: bool, udp: bool)

  function TextAt(fields: map<string, Json>, name: string): string {
    if name in fields && fields[name].Str? then fields[name].s else ""
  }

  function FieldsOf(s: Section): map<string, Json> {
    if s.Parsed? && s.value.Obj? then s.value.fields else map[]
  }

  predicate Blank(c: char) {
    c == ' ' || '\t' <= c <= '\r'
  }

  function TrimFront(s: string): string {
    if s != [] && Blank(s[0]) then TrimFront(s[1..]) else s
  }

  function TrimBack(s: string): string {
    if s != [] && Blank(s[|s| - 1]) then TrimBack(s[..|s| - 1]) else s
  }

  /** Whether `name` is one of the trimmed parts between commas, `part` being the one read so far. */
  predicate Names(csv: string, name: string, part: string := "")
    decreases |csv|
  {
    if csv == [] then TrimBack(TrimFront(part)) == name
    else if csv[0] == ',' then TrimBack(TrimFront(part)) == name || Names(csv[1..], name)
    else Names(csv[1..], name, part + [csv[0]])
  }

  /** The default of a transport without any bit. */
  function NotNone(t: Transports): Transports {
    if t.tcp || t.udp then t else Transports(true, false)
  }

  /** The transports an inbound needs; `settings` are its fields other than the clients. */
  function InboundTransports(protocol: string, stream: Section, settings: map<string, Json>): Transports {
    if protocol == "hysteria" || protocol == "wireguard" then Transports(false, true)
    else if protocol == "mtproto" then Transports(true, false)
    else
      var network := TextAt(FieldsOf(stream), "network");
      var udp := network == "kcp" || network == "quic";
      if protocol == "shadowsocks" || protocol == "tunnel" then
        var csv := TextAt(settings, if protocol == "tunnel" then "allowedNetwork" else "network");
        if csv == "" then Transports(!udp, udp) else NotNone(Transports(Names(csv, "tcp"), Names(csv, "udp")))
      else if protocol == "mixed" && "udp" in settings && settings["udp"] == Bool(true) then
        Transports(!udp, true)
      else
        Transports(!udp, udp)
  }

  predicate AnyListen(s: string) {
    s == "" || s == "0.0.0.0" || s == "::" || s == "::0"
  }

  predicate ListenOverlaps(a: string, b: string) {
    AnyListen(a) || AnyListen(b) || a == b
  }

  function ListenOf(s: Section): string {
    if s.Parsed? && s.value.Str? then s.value.s else ""
  }

  // ---------------------------------------------------------------- what the rule comes to

  /** A listener needs some transport, whatever the inbound says. */
  lemma {:induction false} SomeTransport(protocol: string, stream: Section, settings: map<string, Json>)
    ensures var t := InboundTransports(protocol, stream, settings); t.tcp || t.udp
  {
  }

  /** The protocols with a transport of their own, and all those that go by the network of their stream. */
  lemma {:induction false} TransportsByProtocol(protocol: string, stream: Section, settings: map<string, Json>)
    ensures InboundTransports("hysteria", stream, settings) == InboundTransports("wireguard", stream, settings) == Transports(false, true)
    ensures InboundTransports("mtproto", stream, settings) == Transports(true, false)
    ensures protocol !in {"hysteria", "wireguard", "mtproto", "shadowsocks", "tunnel", "mixed"} ==>
      var udp := stream.Parsed? && stream.value.Obj? && "network" in stream.value.fields
        && stream.value.fields["network"] in {Str("kcp"), Str("quic")};
      InboundTransports(protocol, stream, settings) == Transports(!udp, udp)
    ensures var plain, more := InboundTransports("vless", stream, settings), InboundTransports("mixed", stream, settings);
      more == if "udp" in settings && settings["udp"] == Bool(true) then Transports(plain.tcp, true) else plain
  {
  }

  /** Shadowsocks and tunnel list their transports, under different names; an empty list counts as
      none given, and one without either transport as TCP. */
  lemma {:induction false} TransportsByList(stream: Section, settings: map<string, Json>, csv: string)
    requires csv != ""
    ensures var listed := Transports(Names(csv, "tcp"), Names(csv, "udp"));
      var t := if listed == Transports(false, false) then Transports(true, false) else listed;
      && InboundTransports("shadowsocks", stream, settings["network" := Str(csv)]) == t
      && InboundTransports("tunnel", stream, settings["allowedNetwork" := Str(csv)]) == t
    ensures InboundTransports("shadowsocks", stream, settings["network" := Str("")]) == InboundTransports("vless", stream, settings)
    ensures InboundTransports("tunnel", stream, settings["allowedNetwork" := Str("")]) == InboundTransports("vless", stream, settings)
  {
  }

  function Trimmed(s: string): string {
    TrimBack(TrimFront(s))
  }

  ghost predicate AllBlank(s: string) {
    forall c | c in s :: c in " \t\n\r" || c as int == 11 || c as int == 12
  }

  lemma {:induction false} TrimBackIs(core: string, b: string)
    requires AllBlank(b) && (core == [] || !AllBlank([core[|core| - 1]]))
    ensures TrimBack(core + b) == core
    decreases |b|
  {
    if b == [] {
      assert core + b == core;
      assert core != [] ==> core[|core| - 1] in [core[|core| - 1]];
    } else {
      var n := |b| - 1;
      assert b[n] in b && (core + b)[..|core + b| - 1] == core + b[..n];
      assert forall c | c in b[..n] :: c in b;
      TrimBackIs(core, b[..n]);
    }
  }

  /** Trimming takes white space off both ends and nothing else. */
  lemma {:induction false} TrimmedIs(a: string, core: string, b: string)
    requires AllBlank(a) && AllBlank(b)
    requires core != [] && !AllBlank([core[0]]) && !AllBlank([core[|core| - 1]])
    ensures Trimmed(a + (core + b)) == core
    decreases |a|
  {
    if a == [] {
      assert a + (core + b) == core + b && (core + b)[0] == core[0] && core[0] in [core[0]];
      TrimBackIs(core, b);
    } else {
      assert a[0] in a && (a + (core + b))[1..] == a[1..] + (core + b);
      assert forall c | c in a[1..] :: c in a;
      TrimmedIs(a[1..], core, b);
    }
  }

  lemma {:induction false} ListenIs(address: string)
    ensures ListenOf(Parsed(Str(address))) == address && ListenOf(Parsed(Null)) == ""
  {
  }

  function Commas(parts: seq<string>): string
    requires parts != []
    decreases |parts|
  {
    if |parts| == 1 then parts[0] else parts[0] + ([','] + Commas(parts[1..]))
  }

  lemma {:induction false} NamesPart(part: string, rest: string, name: string, read: string)
    requires ',' !in part
    ensures Names(part, name, read) <==> Trimmed(read + part) == name
    ensures Names(part + ([','] + rest), name, read) <==> Trimmed(read + part) == name || Names(rest, name)
    decreases |part|
  {
    if part == [] {
      assert read + part == read;
      assert part + ([','] + rest) == [','] + rest && ([','] + rest)[1..] == rest;
    } else {
      assert part[0] in part && forall c | c in part[1..] :: c in part;
      assert read + [part[0]] + part[1..] == read + part;
      assert (part + ([','] + rest))[1..] == part[1..] + ([','] + rest);
      NamesPart(part[1..], rest, name, read + [part[0]]);
    }
  }

  /** A list names exactly the trimmed parts between its commas. */
  lemma {:induction false} NamesAre(parts: seq<string>, name: string)
    requires parts != [] && forall p | p in parts :: ',' !in p
    ensures Names(Commas(parts), name) <==> exists p :: p in parts && Trimmed(p) == name
    decreases |parts|
  {
    assert parts[0] in parts && [] + parts[0] == parts[0];
    if |parts| == 1 {
      NamesPart(parts[0], [], name, []);
    } else {
      NamesPart(parts[0], Commas(parts[1..]), name, []);
      NamesAre(parts[1..], name);
      assert forall p :: p in parts <==> p == parts[0] || p in parts[1..];
    }
  }

  /** Addresses overlap exactly when they are the same or one of them stands for all. */
  lemma {:induction false} OverlapIs(a: string, b: string)
    ensures ListenOverlaps(a, b) <==> a == b || a in {"", "0.0.0.0", "::", "::0"} || b in {"", "0.0.0.0", "::", "::0"}
  {
  }
}
