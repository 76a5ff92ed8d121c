/**
 The SOCKS5 handshake of the pinning proxy (sections 3 to 6 of RFC 1928): a parser
 over a stream that `recv` may cut anywhere, and the connection it leads to. Address
 printing, IDNA decoding, the resolver's rules and the network are parameters.
 */
module Socks {
  import opened Wrappers

  type Byte = n: nat | n < 256

  type Bytes = seq<Byte>

  const SOCKS_VERSION: Byte := 5
  const CMD_CONNECT: Byte := 1
  const ATYP_IPV4: Byte := 1
  const ATYP_DOMAIN: Byte := 3
  const ATYP_IPV6: Byte := 4
  const REPLY_OK: Byte := 0
  const REPLY_FAILURE: Byte := 1
  const REPLY_NOT_ALLOWED: Byte := 2
  const REPLY_UNREACHABLE: Byte := 4
  const REPLY_BAD_COMMAND: Byte := 7
  const REPLY_BAD_ADDRESS: Byte := 8

  type Address = string

  /** `idna` None: the bytes do not decode; `resolve` None: the guard refuses the host. */
  datatype Env = Env(
    ipv4: Bytes -> string, ipv6: Bytes -> string, idna: Bytes -> Option<string>,
    resolve: string -> Option<seq<Address>>, dial: (Address, nat) -> bool)

  /** Closed and BadName are exceptions, Refused is a None. */
  datatype Ending = Closed | BadName | Refused | Connected(address: Address)

  /** A handshake: how it ended, what it sent, what it left unread, and what it did on the way. */
  datatype Outcome = Outcome(
    ending: Ending, sent: Bytes, rest: Bytes, blocked: seq<(string, nat)>, dialed: seq<(Address, nat)>)

  // ----- What the bytes mean -----

  function Reply(code: Byte): Bytes {
    [SOCKS_VERSION, code, 0, ATYP_IPV4, 0, 0, 0, 0, 0, 0]
  }

  /** The first address that answers, and the attempts made up to it. */
  function DialFirst(env: Env, addresses: seq<Address>, port: nat): (Option<Address>, seq<(Address, nat)>) {
    if addresses == [] then (None, [])
    else if env.dial(addresses[0], port) then (Some(addresses[0]), [(addresses[0], port)])
    else
      var (found, tried) := DialFirst(env, addresses[1..], port);
      (found, [(addresses[0], port)] + tried)
  }

  /** A request for a host that could be read, from its command on. */
  function Answer(env: Env, command: Byte, host: Option<string>, port: nat, rest: Bytes): Outcome {
    if command != CMD_CONNECT then Outcome(Refused, Reply(REPLY_BAD_COMMAND), rest, [], [])
    else
      match host
      case None => Outcome(Refused, Reply(REPLY_BAD_ADDRESS), rest, [], [])
      case Some(name) =>
        match env.resolve(name)
        case None => Outcome(Refused, Reply(REPLY_NOT_ALLOWED), rest, [(name, port)], [])
        case Some(addresses) =>
          var (found, tried) := DialFirst(env, addresses, port);
          match found
          case Some(a) => Outcome(Connected(a), Reply(REPLY_OK), rest, [], tried)
          case None =>
            Outcome(Refused, Reply(if addresses != [] then REPLY_UNREACHABLE else REPLY_FAILURE), rest, [], tried)
  }

  const CLOSED := Outcome(Closed, [], [], [], [])

  function Port(b: Bytes): nat
    requires |b| == 2
  {
    256 * b[0] as nat + b[1] as nat
  }

  /** The port and what follows from it; an address type that is not known has no host. */
  function AfterHost(env: Env, command: Byte, host: Option<string>, b: Bytes): Outcome {
    if |b| < 2 then CLOSED else Answer(env, command, host, Port(b[..2]), b[2..])
  }

  function AfterDomain(env: Env, command: Byte, length: nat, b: Bytes): Outcome {
    if |b| < length then CLOSED
    else
      match env.idna(b[..length])
      case None => Outcome(BadName, [], b[length..], [], [])
      case Some(name) => AfterHost(env, command, Some(name), b[length..])
  }

  /** The address, by its type, and what follows from it. */
  function AtAddress(env: Env, command: Byte, atyp: Byte, b: Bytes): Outcome {
    if atyp == ATYP_IPV4 then
      if |b| < 4 then CLOSED else AfterHost(env, command, Some(env.ipv4(b[..4])), b[4..])
    else if atyp == ATYP_IPV6 then
      if |b| < 16 then CLOSED else AfterHost(env, command, Some(env.ipv6(b[..16])), b[16..])
    else if atyp == ATYP_DOMAIN then
      if |b| < 1 then CLOSED else AfterDomain(env, command, b[0], b[1..])
    else AfterHost(env, command, None, b)
  }

  /** The version byte of a request is read and not looked at. */
  function Request(env: Env, b: Bytes): Outcome {
    if |b| < 4 then CLOSED else AtAddress(env, b[1], b[3], b[4..])
  }

  const NO_AUTHENTICATION: Bytes := [SOCKS_VERSION, 0]

  function Sending(sent: Bytes, o: Outcome): Outcome {
    Outcome(o.ending, sent + o.sent, o.rest, o.blocked, o.dialed)
  }

  function AfterGreeting(env: Env, methods: nat, b: Bytes): Outcome {
    if |b| < methods then CLOSED else Sending(NO_AUTHENTICATION, Request(env, b[methods..]))
  }

  /** A whole handshake over the concatenation of everything the client sends. */
  function Handshake(env: Env, b: Bytes): Outcome {
    if |b| < 2 then CLOSED
    else if b[0] != SOCKS_VERSION then Outcome(Refused, [], b[2..], [], [])
    else AfterGreeting(env, b[1], b[2..])
  }

  // ----- The stream -----

  function Joined(chunks: seq<Bytes>): Bytes {
    if chunks == [] then [] else chunks[0] + Joined(chunks[1..])
  }

  class Client {
    /** What recv will deliver, cut in any way into pieces that are not empty. */
    var inbound: seq<Bytes>
    var sent: Bytes

    constructor (inbound: seq<Bytes>)
      requires [] !in inbound
      ensures Valid() && Stream() == Joined(inbound) && sent == []
    {
      this.inbound, sent := inbound, [];
    }

    predicate Valid()
      reads this
    {
      [] !in inbound
    }

    function Stream(): Bytes
      reads this
    {
      Joined(inbound)
    }

    /** Some of what is next, at most `size`; nothing only at the end. */
    method Recv(size: nat) returns (chunk: Bytes)
      requires Valid() && size > 0
      modifies this`inbound
      ensures Valid() && chunk + Stream() == old(Stream())
      ensures |chunk| <= size && (chunk == [] <==> old(Stream()) == [])
    {
      if inbound == [] {
        return [];
      }
      var next := inbound[0];
      assert inbound == [next] + inbound[1..];
      if |next| <= size {
        chunk, inbound := next, inbound[1..];
      } else {
        assert next == next[..size] + next[size..];
        chunk := next[..size];
        inbound := [next[size..]] + inbound[1..];
        assert inbound[1..] == old(inbound)[1..];
      }
    }

    method Send(data: Bytes)
      modifies this`sent
      ensures sent == old(sent) + data
    {
      sent := sent + data;
    }

    /** `_recv_exact`; not ok is the exception for a connection closed mid-handshake. */
    method RecvExact(size: nat) returns (ok: bool, data: Bytes)
      requires Valid()
      modifies this`inbound
      ensures Valid() && (ok <==> size <= |old(Stream())|)
      ensures ok ==> data == old(Stream())[..size] && Stream() == old(Stream())[size..]
      ensures !ok ==> Stream() == []
    {
      data, ok := [], true;
      while |data| < size
        invariant Valid() && ok && |data| <= size && data + Stream() == old(Stream())
      {
        var chunk := Recv(size - |data|);
        if chunk == [] {
          return false, data;
        }
        data := data + chunk;
      }
    }
  }

  // ----- The proxy -----

  class PinningProxy {
    const env: Env
    var blocked: seq<(string, nat)>
    /** Every dial the proxy ever made. */
    var dialed: seq<(Address, nat)>

    constructor (env: Env)
      ensures this.env == env && blocked == [] && dialed == []
    {
      this.env := env;
      blocked, dialed := [], [];
    }

    /** What one handshake did is this outcome; `ending` is what it returned or raised. */
    twostate predicate Did(client: Client, ending: Ending, o: Outcome)
      reads this, client
    {
      && client.Valid()
      && ending == o.ending && client.sent == old(client.sent) + o.sent && client.Stream() == o.rest
      && blocked == old(blocked) + o.blocked && dialed == old(dialed) + o.dialed
    }

    /** The host by its address type; `failed` is the exception that ended the reading. */
    method ReadHost(client: Client, ghost command: Byte, atyp: Byte) returns (failed: Option<Ending>,
                    host: Option<string>)
      requires client.Valid()
      modifies client`inbound
      ensures client.Valid()
      ensures AtAddress(env, command, atyp, old(client.Stream()))
              == if failed.Some? then Outcome(failed.value, [], client.Stream(), [], [])
                 else AfterHost(env, command, host, client.Stream())
    {
      failed, host := None, None;
      var ok, data := true, [];
      if atyp == ATYP_IPV4 {
        ok, data := client.RecvExact(4);
        host := Some(env.ipv4(data));
      } else if atyp == ATYP_IPV6 {
        ok, data := client.RecvExact(16);
        host := Some(env.ipv6(data));
      } else if atyp == ATYP_DOMAIN {
        ok, data := client.RecvExact(1);
        if ok {
          ok, data := client.RecvExact(data[0]);
          if ok {
            host := env.idna(data);
            if host.None? {
              return Some(BadName), None;
            }
          }
        }
      }
      if !ok {
        failed := Some(Closed);
      }
    }

    /** The loop over the resolver's addresses: the first that answers is the upstream. */
    method DialAny(addresses: seq<Address>, port: nat) returns (upstream: Option<Address>)
      modifies this`dialed
      ensures (upstream, dialed) == (DialFirst(env, addresses, port).0, old(dialed) + DialFirst(env, addresses, port).1)
    {
      var i := 0;
      while i < |addresses|
        invariant i <= |addresses|
        invariant DialFirst(env, addresses, port).0 == DialFirst(env, addresses[i..], port).0
        invariant old(dialed) + DialFirst(env, addresses, port).1 == dialed + DialFirst(env, addresses[i..], port).1
      {
        assert addresses[i..][0] == addresses[i] && addresses[i..][1..] == addresses[i + 1..];
        dialed := dialed + [(addresses[i], port)];
        if env.dial(addresses[i], port) {
          return Some(addresses[i]);
        }
        i := i + 1;
      }
      assert addresses[i..] == [] && dialed + [] == dialed;
      upstream := None;
    }

    /** What is answered once the request has been read. */
    method Decide(client: Client, command: Byte, host: Option<string>, port: nat) returns (ending: Ending)
      requires client.Valid()
      modifies this, client`sent
      ensures Did(client, ending, Answer(env, command, host, port, old(client.Stream())))
    {
      if command != CMD_CONNECT {
        client.Send(Reply(REPLY_BAD_COMMAND));
        return Refused;
      }
      if host.None? {
        client.Send(Reply(REPLY_BAD_ADDRESS));
        return Refused;
      }
      var addresses := env.resolve(host.value);
      if addresses.None? {
        blocked := blocked + [(host.value, port)];
        client.Send(Reply(REPLY_NOT_ALLOWED));
        return Refused;
      }
      var upstream := DialAny(addresses.value, port);
      match upstream {
        case Some(a) =>
          client.Send(Reply(REPLY_OK));
          ending := Connected(a);
        case None =>
          client.Send(Reply(if addresses.value != [] then REPLY_UNREACHABLE else REPLY_FAILURE));
          ending := Refused;
      }
    }

    method ReadRequest(client: Client) returns (ending: Ending)
      requires client.Valid()
      modifies this, client
      ensures Did(client, ending, Request(env, old(client.Stream())))
    {
      hide AtAddress, Answer;
      var ok, head := client.RecvExact(4);
      if !ok {
        return Closed;
      }
      var failed, host := ReadHost(client, head[1], head[3]);
      if failed.Some? {
        return failed.value;
      }
      var port;
      ok, port := client.RecvExact(2);
      if !ok {
        return Closed;
      }
      ending := Decide(client, head[1], host, Port(port));
    }

    /** `_handshake`: however the stream is cut, its bytes alone decide what happens. */
    method Serve(client: Client) returns (ending: Ending)
      requires client.Valid()
      modifies this, client
      ensures Did(client, ending, Handshake(env, old(client.Stream())))
    {
      hide Request;
      var ok, head := client.RecvExact(2);
      if !ok {
        return Closed;
      }
      if head[0] != SOCKS_VERSION {
        return Refused;
      }
      var methods;
      ok, methods := client.RecvExact(head[1]);
      if !ok {
        return Closed;
      }
      client.Send(NO_AUTHENTICATION);
      ending := ReadRequest(client);
    }
  }

  // ----- The parser -----

  /** Where a client asks to be connected to. */
  datatype Destination = IPv4(octets: Bytes) | IPv6(octets: Bytes) | Domain(name: Bytes)

  predicate IsDestination(d: Destination) {
    match d
    case IPv4(octets) => |octets| == 4
    case IPv6(octets) => |octets| == 16
    case Domain(name) => |name| < 256
  }

  function AddressField(d: Destination): (f: Bytes)
    requires IsDestination(d)
    ensures f != []
  {
    match d
    case IPv4(octets) => [ATYP_IPV4] + octets
    case IPv6(octets) => [ATYP_IPV6] + octets
    case Domain(name) => [ATYP_DOMAIN, |name|] + name
  }

  function PortBytes(port: nat): Bytes
    requires port < 65536
  {
    [port / 256, port % 256]
  }

  /** A request as section 4 of RFC 1928 lays it out. */
  function RequestBytes(version: Byte, command: Byte, reserved: Byte, d: Destination, port: nat): Bytes
    requires IsDestination(d) && port < 65536
  {
    [version, command, reserved] + AddressField(d) + PortBytes(port)
  }

  /** The greeting of section 3, then the request. */
  function ClientBytes(methods: Bytes, version: Byte, command: Byte, reserved: Byte, d: Destination, port: nat): Bytes
    requires |methods| < 256 && IsDestination(d) && port < 65536
  {
    [SOCKS_VERSION, |methods|] + methods + RequestBytes(version, command, reserved, d, port)
  }

  /** The host a destination names; None when its bytes do not decode. */
  function HostOf(env: Env, d: Destination): Option<string> {
    match d
    case IPv4(octets) => Some(env.ipv4(octets))
    case IPv6(octets) => Some(env.ipv6(octets))
    case Domain(name) => env.idna(name)
  }

  /** What a request comes to: a host that does not decode stops the reading before the port. */
  function Meaning(env: Env, command: Byte, d: Destination, port: nat, payload: Bytes): Outcome
    requires IsDestination(d) && port < 65536
  {
    match HostOf(env, d)
    case None => Outcome(BadName, [], PortBytes(port) + payload, [], [])
    case Some(name) => Answer(env, command, Some(name), port, payload)
  }

  lemma PortRead(env: Env, command: Byte, host: Option<string>, port: nat, payload: Bytes)
    requires port < 65536
    ensures AfterHost(env, command, host, PortBytes(port) + payload) == Answer(env, command, host, port, payload)
  {
    var b := PortBytes(port) + payload;
    assert b[..2] == PortBytes(port) && b[2..] == payload;
  }

  lemma OctetsRead(env: Env, command: Byte, octets: Bytes, tail: Bytes)
    ensures |octets| == 4 ==>
            AtAddress(env, command, ATYP_IPV4, octets + tail) == AfterHost(env, command, Some(env.ipv4(octets)), tail)
    ensures |octets| == 16 ==>
            AtAddress(env, command, ATYP_IPV6, octets + tail) == AfterHost(env, command, Some(env.ipv6(octets)), tail)
  {
    hide AfterHost;
    assert (octets + tail)[..|octets|] == octets && (octets + tail)[|octets|..] == tail;
  }

  lemma NameRead(env: Env, command: Byte, name: Bytes, tail: Bytes)
    requires |name| < 256
    ensures AtAddress(env, command, ATYP_DOMAIN, [|name|] + name + tail)
            == if env.idna(name).None? then Outcome(BadName, [], tail, [], [])
               else AfterHost(env, command, env.idna(name), tail)
  {
    hide AfterHost;
    var b: Bytes := [|name|] + name + tail;
    assert b[0] == |name| && b[1..] == name + tail;
    assert (name + tail)[..|name|] == name && (name + tail)[|name|..] == tail;
  }

  lemma AddressRead(env: Env, command: Byte, d: Destination, port: nat, payload: Bytes)
    requires IsDestination(d) && port < 65536
    ensures var tail := PortBytes(port) + payload;
      AtAddress(env, command, AddressField(d)[0], AddressField(d)[1..] + tail)
      == Meaning(env, command, d, port, payload)
  {
    hide Answer, AfterHost, AtAddress;
    var tail := PortBytes(port) + payload;
    PortRead(env, command, HostOf(env, d), port, payload);
    match d
    case IPv4(octets) =>
      assert AddressField(d)[1..] == octets;
      OctetsRead(env, command, octets, tail);
    case IPv6(octets) =>
      assert AddressField(d)[1..] == octets;
      OctetsRead(env, command, octets, tail);
    case Domain(name) =>
      assert AddressField(d)[1..] == [|name|] + name;
      NameRead(env, command, name, tail);
  }

  lemma HeaderFields(head: Bytes, field: Bytes, port: Bytes, payload: Bytes)
    requires |head| == 3 && field != []
    ensures var b := head + field + port + payload;
      |b| >= 4 && b[1] == head[1] && b[3] == field[0] && b[4..] == field[1..] + (port + payload)
  {
  }

  lemma RequestRead(env: Env, version: Byte, command: Byte, reserved: Byte, d: Destination, port: nat, payload: Bytes)
    requires IsDestination(d) && port < 65536
    ensures Request(env, RequestBytes(version, command, reserved, d, port) + payload)
            == Meaning(env, command, d, port, payload)
  {
    hide AtAddress, Meaning, AddressField;
    HeaderFields([version, command, reserved], AddressField(d), PortBytes(port), payload);
    AddressRead(env, command, d, port, payload);
  }

  lemma AnswerRest(env: Env, command: Byte, host: Option<string>, port: nat, rest: Bytes)
    ensures Answer(env, command, host, port, rest).rest == rest
  {
  }

  /**
   A request laid out as RFC 1928 says parses back to its command, its host's bytes
   and its port, whatever its version and reserved bytes are, and the stream is left
   at the first byte of the payload.
   */
  lemma RequestParses(env: Env, methods: Bytes, version: Byte, command: Byte, reserved: Byte, d: Destination,
                      port: nat, payload: Bytes)
    requires |methods| < 256 && IsDestination(d) && port < 65536
    ensures Handshake(env, ClientBytes(methods, version, command, reserved, d, port) + payload)
            == Sending(NO_AUTHENTICATION, Meaning(env, command, d, port, payload))
    ensures HostOf(env, d).Some? ==>
            Handshake(env, ClientBytes(methods, version, command, reserved, d, port) + payload).rest == payload
  {
    hide Request, RequestBytes, Answer;
    var request := RequestBytes(version, command, reserved, d, port) + payload;
    var b := ClientBytes(methods, version, command, reserved, d, port) + payload;
    assert b == [SOCKS_VERSION, |methods|] + (methods + request);
    assert b[0] == SOCKS_VERSION && b[1] == |methods| && b[2..] == methods + request;
    assert (methods + request)[|methods|..] == request;
    RequestRead(env, version, command, reserved, d, port, payload);
    AnswerRest(env, command, HostOf(env, d), port, payload);
  }

  // ----- Nothing is read ahead -----

  function Leaving(o: Outcome, extra: Bytes): Outcome {
    Outcome(o.ending, o.sent, o.rest + extra, o.blocked, o.dialed)
  }

  lemma CutBoth(b: Bytes, extra: Bytes, n: nat)
    requires n <= |b|
    ensures (b + extra)[..n] == b[..n] && (b + extra)[n..] == b[n..] + extra
  {
  }

  lemma AfterHostLeaves(env: Env, command: Byte, host: Option<string>, b: Bytes, extra: Bytes)
    requires AfterHost(env, command, host, b).ending != Closed
    ensures AfterHost(env, command, host, b + extra) == Leaving(AfterHost(env, command, host, b), extra)
  {
    CutBoth(b, extra, 2);
  }

  lemma AtAddressLeaves(env: Env, command: Byte, atyp: Byte, b: Bytes, extra: Bytes)
    requires AtAddress(env, command, atyp, b).ending != Closed
    ensures AtAddress(env, command, atyp, b + extra) == Leaving(AtAddress(env, command, atyp, b), extra)
  {
    if atyp == ATYP_IPV4 {
      CutBoth(b, extra, 4);
      AfterHostLeaves(env, command, Some(env.ipv4(b[..4])), b[4..], extra);
    } else if atyp == ATYP_IPV6 {
      CutBoth(b, extra, 16);
      AfterHostLeaves(env, command, Some(env.ipv6(b[..16])), b[16..], extra);
    } else if atyp == ATYP_DOMAIN {
      var length: nat, a := b[0], b[1..];
      CutBoth(b, extra, 1);
      CutBoth(a, extra, length);
      if env.idna(a[..length]).Some? {
        AfterHostLeaves(env, command, env.idna(a[..length]), a[length..], extra);
      }
    } else {
      AfterHostLeaves(env, command, None, b, extra);
    }
  }

  /** Unless the client hung up early, what it sends after its request is left for the connection. */
  lemma NothingReadAhead(env: Env, b: Bytes, extra: Bytes)
    requires Handshake(env, b).ending != Closed
    ensures Handshake(env, b + extra) == Leaving(Handshake(env, b), extra)
  {
    CutBoth(b, extra, 2);
    if b[0] == SOCKS_VERSION {
      var a, methods: nat := b[2..], b[1];
      CutBoth(a, extra, methods);
      var r := a[methods..];
      CutBoth(r, extra, 4);
      AtAddressLeaves(env, r[1], r[3], r[4..], extra);
    }
  }

  // ----- Only accepted addresses are dialed -----

  /** The attempts are the resolver's addresses in order, up to the first that answered. */
  ghost predicate DialsInOrder(env: Env, o: Outcome, name: string, port: nat) {
    && env.resolve(name).Some?
    && |o.dialed| <= |env.resolve(name).value|
    && (forall i :: 0 <= i < |o.dialed| ==> o.dialed[i] == (env.resolve(name).value[i], port))
    && (forall i :: 0 <= i < |o.dialed| - 1 ==> !env.dial(o.dialed[i].0, port))
    && (match o.ending
        case Connected(a) => o.dialed != [] && o.dialed[|o.dialed| - 1] == (a, port) && env.dial(a, port)
        case _ =>
          && |o.dialed| == |env.resolve(name).value|
          && forall i :: 0 <= i < |o.dialed| ==> !env.dial(o.dialed[i].0, port))
  }

  lemma {:induction false} DialFirstExact(env: Env, addresses: seq<Address>, port: nat)
    ensures var (found, tried) := DialFirst(env, addresses, port);
      && |tried| <= |addresses|
      && (forall i :: 0 <= i < |tried| ==> tried[i] == (addresses[i], port))
      && (forall i :: 0 <= i < |tried| - 1 ==> !env.dial(tried[i].0, port))
      && (match found
          case Some(a) => tried != [] && tried[|tried| - 1] == (a, port) && env.dial(a, port)
          case None => |tried| == |addresses| && forall i :: 0 <= i < |tried| ==> !env.dial(tried[i].0, port))
  {
    if addresses != [] && !env.dial(addresses[0], port) {
      DialFirstExact(env, addresses[1..], port);
    }
  }

  /** A CONNECT request in full, with what follows it. */
  datatype Ask = Ask(methods: Bytes, version: Byte, reserved: Byte, destination: Destination, port: nat, payload: Bytes)

  /** These bytes are that request, and the host it names decodes. */
  predicate Asks(env: Env, b: Bytes, ask: Ask) {
    && |ask.methods| < 256 && IsDestination(ask.destination) && ask.port < 65536
    && HostOf(env, ask.destination).Some?
    && b == ClientBytes(ask.methods, ask.version, CMD_CONNECT, ask.reserved, ask.destination, ask.port) + ask.payload
  }

  /** Everything the client hears: no authentication, then a reply with this code (section 6 of RFC 1928). */
  predicate Hears(o: Outcome, code: Byte) {
    o.sent == [5, 0, 5, code, 0, 1, 0, 0, 0, 0, 0, 0]
  }

  /** One name and port decided what was blocked, what was dialed and what was answered. */
  ghost predicate Guarded(env: Env, o: Outcome, name: string, port: nat) {
    match env.resolve(name)
    case None => o.dialed == [] && o.blocked == [(name, port)] && o.ending == Refused && Hears(o, 2)
    case Some(addresses) =>
      && o.blocked == [] && DialsInOrder(env, o, name, port)
      && Hears(o, if o.ending.Connected? then 0 else if addresses == [] then 1 else 4)
      && (o.ending.Connected? || o.ending == Refused)
  }

  lemma AnswerGuarded(env: Env, name: string, port: nat, rest: Bytes)
    ensures Guarded(env, Sending(NO_AUTHENTICATION, Answer(env, CMD_CONNECT, Some(name), port, rest)), name, port)
  {
    if env.resolve(name).Some? {
      DialFirstExact(env, env.resolve(name).value, port);
    }
  }

  lemma AskGuarded(env: Env, b: Bytes, ask: Ask)
    requires Asks(env, b, ask)
    ensures Guarded(env, Handshake(env, b), HostOf(env, ask.destination).value, ask.port)
    ensures Handshake(env, b).rest == ask.payload
  {
    hide Handshake, ClientBytes, Answer, Guarded;
    RequestParses(env, ask.methods, ask.version, CMD_CONNECT, ask.reserved, ask.destination, ask.port, ask.payload);
    AnswerGuarded(env, HostOf(env, ask.destination).value, ask.port, ask.payload);
  }

  /** The guard was asked about some host, or the network was touched. */
  predicate Reaches(o: Outcome) {
    o.dialed != [] || o.blocked != [] || o.ending.Connected?
  }

  lemma PortSplit(b: Bytes)
    requires |b| >= 2
    ensures Port(b[..2]) < 65536 && b == PortBytes(Port(b[..2])) + b[2..]
  {
  }

  lemma AfterHostReaches(env: Env, command: Byte, host: Option<string>, b: Bytes)
    requires Reaches(AfterHost(env, command, host, b))
    ensures command == CMD_CONNECT && host.Some? && |b| >= 2
  {
  }

  /** Bytes that reach the guard past the address type hold an address of that type, then a port. */
  lemma AddressSplit(env: Env, command: Byte, atyp: Byte, b: Bytes) returns (d: Destination, tail: Bytes)
    requires Reaches(AtAddress(env, command, atyp, b))
    ensures command == CMD_CONNECT && IsDestination(d) && HostOf(env, d).Some? && |tail| >= 2
    ensures [atyp] + b == AddressField(d) + tail
  {
    hide AfterHost;
    if atyp == ATYP_IPV4 {
      d, tail := IPv4(b[..4]), b[4..];
    } else if atyp == ATYP_IPV6 {
      d, tail := IPv6(b[..16]), b[16..];
    } else if atyp == ATYP_DOMAIN {
      var length: nat, a := b[0], b[1..];
      d, tail := Domain(a[..length]), a[length..];
      assert b == [b[0]] + a && a == a[..length] + tail;
    } else {
      AfterHostReaches(env, command, None, b);
      assert false;
    }
    AfterHostReaches(env, command, HostOf(env, d), tail);
  }

  lemma RequestSplit(env: Env, r: Bytes, methods: Bytes) returns (ask: Ask)
    requires Reaches(Request(env, r)) && |methods| < 256
    ensures Asks(env, [SOCKS_VERSION, |methods|] + methods + r, ask)
  {
    hide AtAddress, AddressField;
    var d, tail := AddressSplit(env, r[1], r[3], r[4..]);
    PortSplit(tail);
    ask := Ask(methods, r[0], r[2], d, Port(tail[..2]), tail[2..]);
    assert r == [r[0], r[1], r[2]] + ([r[3]] + r[4..]);
    assert r == RequestBytes(r[0], r[1], r[2], d, ask.port) + ask.payload;
  }

  lemma HandshakeSplit(env: Env, b: Bytes) returns (ask: Ask)
    requires Reaches(Handshake(env, b))
    ensures Asks(env, b, ask)
  {
    hide Request, Asks;
    var a := b[2..];
    var methods := a[..b[1] as nat];
    ask := RequestSplit(env, a[|methods|..], methods);
    assert b == [SOCKS_VERSION, |methods|] + methods + a[|methods|..];
  }

  /**
   Whatever a client sends. If it is a whole CONNECT request, the proxy asks its guard
   about the host and port of that request and no other: a refused host is reported as
   blocked, and an accepted one dialed at the addresses the guard gave, in order, up to
   the first that answers. Anything else neither dials, blocks nor connects.
   */
  lemma OnlyAcceptedDialed(env: Env, b: Bytes)
    ensures forall ask :: Asks(env, b, ask) ==>
              && Guarded(env, Handshake(env, b), HostOf(env, ask.destination).value, ask.port)
              && Handshake(env, b).rest == ask.payload
    ensures Reaches(Handshake(env, b)) ==> exists ask :: Asks(env, b, ask)
  {
    hide Handshake, ClientBytes, Guarded, HostOf, Reaches;
    forall ask | Asks(env, b, ask)
      ensures Guarded(env, Handshake(env, b), HostOf(env, ask.destination).value, ask.port)
      ensures Handshake(env, b).rest == ask.payload
    {
      AskGuarded(env, b, ask);
    }
    if Reaches(Handshake(env, b)) {
      var ask := HandshakeSplit(env, b);
    }
  }

  // ----- The other requests -----

  /** Any other command is answered as unsupported, with nothing looked up, dialed or noted. */
  lemma OtherCommand(env: Env, methods: Bytes, version: Byte, command: Byte, reserved: Byte, d: Destination,
                     port: nat, payload: Bytes)
    requires |methods| < 256 && IsDestination(d) && port < 65536 && HostOf(env, d).Some? && command != 1
    ensures var o := Handshake(env, ClientBytes(methods, version, command, reserved, d, port) + payload);
      o.ending == Refused && Hears(o, 7) && o.rest == payload && o.blocked == [] && o.dialed == []
  {
    hide Handshake, ClientBytes;
    RequestParses(env, methods, version, command, reserved, d, port, payload);
  }

  lemma UnknownAnswer(env: Env, command: Byte, port: nat, rest: Bytes)
    ensures var o := Sending(NO_AUTHENTICATION, Answer(env, command, None, port, rest));
      && o.ending == Refused && Hears(o, if command == 1 then 8 else 7)
      && o.rest == rest && o.blocked == [] && o.dialed == []
  {
  }

  /** So is an address of a type that is not known, by its own code; its bytes are not skipped over. */
  lemma OtherAddress(env: Env, methods: Bytes, version: Byte, command: Byte, reserved: Byte, atyp: Byte, port: nat,
                     payload: Bytes)
    requires |methods| < 256 && atyp !in {1, 3, 4} && port < 65536
    ensures var request := [version, command, reserved, atyp] + PortBytes(port) + payload;
      var o := Handshake(env, [SOCKS_VERSION, |methods|] + (methods + request));
      && o.ending == Refused && Hears(o, if command == 1 then 8 else 7)
      && o.rest == payload && o.blocked == [] && o.dialed == []
  {
    hide Answer;
    var request := [version, command, reserved, atyp] + PortBytes(port) + payload;
    var b := [SOCKS_VERSION, |methods|] + (methods + request);
    assert b[2..] == methods + request && (methods + request)[|methods|..] == request;
    assert request[4..] == PortBytes(port) + payload;
    PortRead(env, command, None, port, payload);
    UnknownAnswer(env, command, port, payload);
  }
}
