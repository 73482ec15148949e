/**
 * InetAddr of src/net/inet.cpp at the level of the bytes of its sockaddr_storage: factories,
 * decoding, equality, hash and the printed name.
 */
module InetAddrs {
  import opened Base

  datatype Family = Unspecified | Unix | Inet | Inet6

  // Sizes of the Linux structures, and of what follows the two bytes of the family.
  const BASE: nat := 2              // offsetof(sockaddr_un, sun_path)
  const SUN_PATH: nat := 108
  const SOCKADDR_UN: nat := 110
  const SOCKADDR_IN: nat := 16
  const SOCKADDR_IN6: nat := 28
  const STORAGE: nat := 126         // sizeof(sockaddr_storage) without the family

  type Port = p: int | 0 <= p < 0x1_0000

  /** A sockaddr in memory: the family and the bytes behind it. */
  datatype Sockaddr = Sockaddr(family: Family, data: seq<byte>)

  /** addr_storage_ and socklen_. */
  datatype InetAddr = InetAddr(storage: Sockaddr, socklen: nat)

  predicate Wellformed(a: InetAddr) {
    |a.storage.data| == STORAGE && a.socklen <= BASE + STORAGE
  }

  // ---------------------------------------------------------------- factories

  function Zeros(n: nat): (r: seq<byte>) {
    seq(n, _ => 0)
  }

  /** `bytes` at the front of zeroed storage. */
  function Stored(family: Family, bytes: seq<byte>): Sockaddr
    requires |bytes| <= STORAGE
  {
    Sockaddr(family, bytes + Zeros(STORAGE - |bytes|))
  }

  function Htons(port: Port): seq<byte> {
    [(port / 256) as byte, (port % 256) as byte]
  }

  function Ntohs(bytes: seq<byte>): Port
    requires |bytes| == 2
  {
    bytes[0] as int * 256 + bytes[1] as int
  }

  /** `ip` is what inet_pton wrote, None when it refused the text. */
  function MakeIpv4(ip: Option<seq<byte>>, port: Port): Option<InetAddr>
    requires ip.Some? ==> |ip.value| == 4
  {
    if ip.None? then None else Some(InetAddr(Stored(Inet, Htons(port) + ip.value), SOCKADDR_IN))
  }

  /** Port, a zero flow label, address, scope id. */
  function MakeIpv6(ip: Option<seq<byte>>, port: Port, scope: seq<byte>): Option<InetAddr>
    requires ip.Some? ==> |ip.value| == 16
    requires |scope| == 4
  {
    if ip.None? then None
    else Some(InetAddr(Stored(Inet6, Htons(port) + Zeros(4) + ip.value + scope), SOCKADDR_IN6))
  }

  predicate NameAllowed(name: seq<byte>) {
    0 !in name && name != [] && |name| + 1 <= SUN_PATH
  }

  function MakeUnix(path: seq<byte>): Option<InetAddr> {
    if NameAllowed(path) then Some(InetAddr(Stored(Unix, path + [0]), BASE + |path| + 1)) else None
  }

  function MakeAbstract(name: seq<byte>): Option<InetAddr> {
    if NameAllowed(name) then Some(InetAddr(Stored(Unix, [0] + name), BASE + 1 + |name|)) else None
  }

  /** Without the trailing NULs. */
  function Stripped(s: seq<byte>): seq<byte> {
    if s != [] && s[|s| - 1] == 0 then Stripped(s[..|s| - 1]) else s
  }

  /** A caller that says `len` has that many bytes in memory. */
  predicate Readable(addr: Option<Sockaddr>, len: nat) {
    addr.Some? ==> len <= BASE + |addr.value.data|
  }

  /** What make_from_sockaddr makes of a sockaddr; the method below is its code. */
  function Decode(addr: Option<Sockaddr>, len: nat): Option<InetAddr>
    requires Readable(addr, len)
  {
    if addr.None? then None else
    var Sockaddr(family, data) := addr.value;
    match family
    case Inet =>
      if len < SOCKADDR_IN then None else Some(InetAddr(Stored(Inet, data[..SOCKADDR_IN - BASE]), SOCKADDR_IN))
    case Inet6 =>
      if len < SOCKADDR_IN6 then None else Some(InetAddr(Stored(Inet6, data[..SOCKADDR_IN6 - BASE]), SOCKADDR_IN6))
    case Unix =>
      if len <= BASE || len > SOCKADDR_UN then None
      else if data[0] == 0 then MakeAbstract(Stripped(data[1..len - BASE]))
      else MakeUnix(Stripped(data[..len - BASE]))
    case Unspecified => None
  }

  /** The loops that pop trailing NULs. */
  method StripNuls(s: seq<byte>) returns (name: seq<byte>)
    ensures name == Stripped(s)
    ensures name <= s && (name != [] ==> name[|name| - 1] != 0)
    ensures forall i :: |name| <= i < |s| ==> s[i] == 0
  {
    name := s;
    while name != [] && name[|name| - 1] == 0
      invariant name <= s && Stripped(name) == Stripped(s)
      invariant forall i :: |name| <= i < |s| ==> s[i] == 0
      decreases |name|
    {
      name := name[..|name| - 1];
    }
  }

  method MakeFromSockaddr(addr: Option<Sockaddr>, len: nat) returns (a: Option<InetAddr>)
    requires Readable(addr, len)
    ensures a == Decode(addr, len)
  {
    if addr.None? {
      return None;
    }
    var data := addr.value.data;
    match addr.value.family
    case Inet =>
      if len < SOCKADDR_IN {
        return None;
      }
      return Some(InetAddr(Stored(Inet, data[..SOCKADDR_IN - BASE]), SOCKADDR_IN));
    case Inet6 =>
      if len < SOCKADDR_IN6 {
        return None;
      }
      return Some(InetAddr(Stored(Inet6, data[..SOCKADDR_IN6 - BASE]), SOCKADDR_IN6));
    case Unix =>
      if len <= BASE || len > SOCKADDR_UN {
        return None;
      }
      var sunLen := len - BASE;
      if data[0] == 0 {
        var name := StripNuls(data[1..sunLen]);
        return MakeAbstract(name);
      }
      var path := StripNuls(data[..sunLen]);
      return MakeUnix(path);
    case Unspecified =>
      return None;
  }

  // ---------------------------------------------------------------- round trip

  lemma {:induction false} StrippedPadding(s: seq<byte>, n: nat)
    ensures Stripped(s + Zeros(n)) == Stripped(s)
    decreases n
  {
    if n == 0 {
      assert s + Zeros(n) == s;
    } else {
      var t := s + Zeros(n);
      assert t[..|t| - 1] == s + Zeros(n - 1);
      StrippedPadding(s, n - 1);
    }
  }

  lemma StrippedName(name: seq<byte>, n: nat)
    requires 0 !in name
    ensures Stripped(name + Zeros(n)) == name
  {
    StrippedPadding(name, n);
    assert name != [] ==> name[|name| - 1] in name;
  }

  /** An address some factory returned. */
  ghost predicate FactoryMade(a: InetAddr) {
    || (exists ip: seq<byte>, port: Port :: |ip| == 4 && MakeIpv4(Some(ip), port) == Some(a))
    || (exists ip: seq<byte>, port: Port, scope: seq<byte> ::
          |ip| == 16 && |scope| == 4 && MakeIpv6(Some(ip), port, scope) == Some(a))
    || (exists path :: MakeUnix(path) == Some(a))
    || (exists name :: MakeAbstract(name) == Some(a))
    || (exists addr, len :: Readable(addr, len) && Decode(addr, len) == Some(a))
  }

  /** The name of a canonical unix address. */
  function NameOf(a: InetAddr): seq<byte>
    requires Wellformed(a) && BASE < a.socklen
  {
    if a.storage.data[0] == 0 then a.storage.data[1..a.socklen - BASE] else a.storage.data[..a.socklen - BASE - 1]
  }

  /** The one form in which the library stores an address: its bytes, then zeros. */
  predicate Canonical(a: InetAddr) {
    && Wellformed(a)
    && match a.storage.family
       case Inet => a.socklen == SOCKADDR_IN && a.storage == Stored(Inet, a.storage.data[..SOCKADDR_IN - BASE])
       case Inet6 => a.socklen == SOCKADDR_IN6 && a.storage == Stored(Inet6, a.storage.data[..SOCKADDR_IN6 - BASE])
       case Unix =>
         && BASE < a.socklen && NameAllowed(NameOf(a))
         && a.storage == if a.storage.data[0] == 0 then Stored(Unix, [0] + NameOf(a)) else Stored(Unix, NameOf(a) + [0])
       case Unspecified => false
  }

  lemma MadeUnixIsCanonical(path: seq<byte>)
    requires NameAllowed(path)
    ensures var a := MakeUnix(path).value;
            Canonical(a) && NameOf(a) == path && a.storage.data[0] != 0
  {
    var a := MakeUnix(path).value;
    assert a.storage.data[0] == path[0] && path[0] in path;
    assert a.storage.data[..|path|] == path;
  }

  lemma MadeAbstractIsCanonical(name: seq<byte>)
    requires NameAllowed(name)
    ensures var a := MakeAbstract(name).value;
            Canonical(a) && NameOf(a) == name && a.storage.data[0] == 0
  {
    var a := MakeAbstract(name).value;
    assert a.storage.data[1..|name| + 1] == name;
  }

  lemma StoredPrefix(family: Family, bytes: seq<byte>)
    requires |bytes| <= STORAGE
    ensures Stored(family, bytes).data[..|bytes|] == bytes && |Stored(family, bytes).data| == STORAGE
  {
  }

  lemma DecodedIsCanonical(addr: Option<Sockaddr>, len: nat)
    requires Readable(addr, len) && Decode(addr, len).Some?
    ensures Canonical(Decode(addr, len).value)
  {
    var data := addr.value.data;
    match addr.value.family
    case Inet => StoredPrefix(Inet, data[..SOCKADDR_IN - BASE]);
    case Inet6 => StoredPrefix(Inet6, data[..SOCKADDR_IN6 - BASE]);
    case Unix =>
      if data[0] == 0 {
        MadeAbstractIsCanonical(Stripped(data[1..len - BASE]));
      } else {
        MadeUnixIsCanonical(Stripped(data[..len - BASE]));
      }
    case Unspecified =>
  }

  lemma MadeIpIsCanonical(family: Family, bytes: seq<byte>, size: nat)
    requires (family == Inet && size == SOCKADDR_IN) || (family == Inet6 && size == SOCKADDR_IN6)
    requires |bytes| <= size - BASE
    ensures Canonical(InetAddr(Stored(family, bytes), size))
  {
    var data := Stored(family, bytes).data;
    assert data == data[..size - BASE] + Zeros(STORAGE - (size - BASE));
  }

  lemma CanonicalDecodes(a: InetAddr)
    requires Canonical(a)
    ensures Decode(Some(a.storage), a.socklen) == Some(a)
  {
    if a.storage.family == Unix {
      var name, data := NameOf(a), a.storage.data;
      if data[0] == 0 {
        StrippedName(name, 0);
        assert name + Zeros(0) == data[1..a.socklen - BASE];
      } else {
        StrippedName(name, 1);
        assert name + Zeros(1) == data[..a.socklen - BASE];
      }
    }
  }

  /**
   * The addresses the factories make are exactly those that decoding their own sockaddr gives back,
   * bit for bit; so decoding what was decoded changes nothing.
   */
  lemma RoundTripIff(a: InetAddr)
    requires Wellformed(a)
    ensures FactoryMade(a) <==> Decode(Some(a.storage), a.socklen) == Some(a)
    ensures FactoryMade(a) <==> Canonical(a)
  {
    if FactoryMade(a) {
      MadeIsCanonical(a);
    }
    if Canonical(a) {
      CanonicalDecodes(a);
    }
    if Decode(Some(a.storage), a.socklen) == Some(a) {
      assert Readable(Some(a.storage), a.socklen);
    }
  }

  lemma MadeIsCanonical(a: InetAddr)
    requires FactoryMade(a)
    ensures Canonical(a)
  {
    if ip: seq<byte>, port: Port :| |ip| == 4 && MakeIpv4(Some(ip), port) == Some(a) {
      MadeIpIsCanonical(Inet, Htons(port) + ip, SOCKADDR_IN);
    } else if ip: seq<byte>, port: Port, scope: seq<byte> :|
      |ip| == 16 && |scope| == 4 && MakeIpv6(Some(ip), port, scope) == Some(a) {
      MadeIpIsCanonical(Inet6, Htons(port) + Zeros(4) + ip + scope, SOCKADDR_IN6);
    } else if path :| MakeUnix(path) == Some(a) {
      MadeUnixIsCanonical(path);
    } else if name :| MakeAbstract(name) == Some(a) {
      MadeAbstractIsCanonical(name);
    } else {
      var addr, len :| Readable(addr, len) && Decode(addr, len) == Some(a);
      DecodedIsCanonical(addr, len);
    }
  }

  lemma {:induction false} StrippedRest(s: seq<byte>)
    ensures Stripped(s) <= s && forall i :: |Stripped(s)| <= i < |s| ==> s[i] == 0
    decreases |s|
  {
    if s != [] && s[|s| - 1] == 0 {
      StrippedRest(s[..|s| - 1]);
    }
  }

  lemma {:induction false} StrippedLonger(short: seq<byte>, rest: seq<byte>)
    ensures Stripped(short + rest) == Stripped(short) <==> rest == Zeros(|rest|)
  {
    if rest == Zeros(|rest|) {
      StrippedPadding(short, |rest|);
    } else {
      var i :| 0 <= i < |rest| && rest[i] != 0;
      StrippedRest(short);
      StrippedRest(short + rest);
      assert (short + rest)[|short| + i] == rest[i];
    }
  }

  lemma DecodedByName(sa: Sockaddr, len: nat)
    requires sa.family == Unix && BASE < len <= SOCKADDR_UN && len - BASE <= |sa.data|
    ensures var name := Stripped(sa.data[if sa.data[0] == 0 then 1 else 0..len - BASE]);
            Decode(Some(sa), len) == if sa.data[0] == 0 then MakeAbstract(name) else MakeUnix(name)
  {
    assert sa.data[..len - BASE] == sa.data[0..len - BASE];
  }

  lemma DecodedName(sa: Sockaddr, len: nat)
    requires sa.family == Unix && BASE < len <= SOCKADDR_UN && len - BASE <= |sa.data|
    requires Decode(Some(sa), len).Some?
    ensures var a := Decode(Some(sa), len).value;
            Canonical(a) && NameOf(a) == Stripped(sa.data[if sa.data[0] == 0 then 1 else 0..len - BASE])
  {
    if sa.data[0] == 0 {
      MadeAbstractIsCanonical(Stripped(sa.data[1..len - BASE]));
    } else {
      assert sa.data[..len - BASE] == sa.data[0..len - BASE];
      MadeUnixIsCanonical(Stripped(sa.data[..len - BASE]));
    }
  }

  /** What follows the name of a unix sockaddr is ignored exactly when it is NUL padding. */
  lemma PaddingIsIgnoredIff(sa: Sockaddr, len: nat, padded: nat)
    requires sa.family == Unix && BASE < len <= padded <= SOCKADDR_UN && padded - BASE <= |sa.data|
    requires Decode(Some(sa), len).Some?
    ensures Decode(Some(sa), padded) == Decode(Some(sa), len) <==>
            sa.data[len - BASE..padded - BASE] == Zeros(padded - len)
  {
    var first := if sa.data[0] == 0 then 1 else 0;
    var rest := sa.data[len - BASE..padded - BASE];
    assert sa.data[first..padded - BASE] == sa.data[first..len - BASE] + rest;
    StrippedLonger(sa.data[first..len - BASE], rest);
    DecodedName(sa, len);
    if Decode(Some(sa), padded).Some? {
      DecodedName(sa, padded);
    }
    DecodedByName(sa, len);
    DecodedByName(sa, padded);
  }

  /** get_port gives back the port an address was made with, in network byte order in between. */
  lemma PortRoundTrip(ip: seq<byte>, port: Port, scope: seq<byte>)
    ensures |ip| == 4 ==> GetPort(MakeIpv4(Some(ip), port).value) == port
    ensures |ip| == 16 && |scope| == 4 ==> GetPort(MakeIpv6(Some(ip), port, scope).value) == port
  {
    if |ip| == 4 {
      assert MakeIpv4(Some(ip), port).value.storage.data[..2] == Htons(port);
    }
    if |ip| == 16 && |scope| == 4 {
      assert MakeIpv6(Some(ip), port, scope).value.storage.data[..2] == Htons(port);
    }
  }

  function GetPort(a: InetAddr): Port
    requires Wellformed(a)
  {
    if a.storage.family == Inet || a.storage.family == Inet6 then Ntohs(a.storage.data[..2]) else 0
  }

  // ---------------------------------------------------------------- equality and hash

  /** operator==. */
  predicate Equal(a: InetAddr, b: InetAddr)
    requires Wellformed(a) && Wellformed(b)
  {
    a.storage.family == b.storage.family &&
    var x, y := a.storage.data, b.storage.data;
    match a.storage.family
    case Inet => x[..2] == y[..2] && x[2..6] == y[2..6]
    case Inet6 => x[..2] == y[..2] && x[6..22] == y[6..22]
    case Unix => a.socklen == b.socklen && a.socklen > BASE && x[..a.socklen - BASE] == y[..a.socklen - BASE]
    case Unspecified => false
  }

  /** What an address stands for. */
  datatype Peer =
    | Host4(port: Port, ip: seq<byte>)
    | Host6(port: Port, ip: seq<byte>)
    | Path(name: seq<byte>)
    | Abstract(name: seq<byte>)

  function PeerOf(a: InetAddr): Peer
    requires Canonical(a)
  {
    match a.storage.family
    case Inet => Host4(GetPort(a), a.storage.data[2..6])
    case Inet6 => Host6(GetPort(a), a.storage.data[6..22])
    case Unix => if a.storage.data[0] == 0 then Abstract(NameOf(a)) else Path(NameOf(a))
  }

  /** What the factories make stands for what they were given, in the layout of the Linux structures. */
  lemma MadePeers(ip: seq<byte>, port: Port, scope: seq<byte>, name: seq<byte>)
    ensures |ip| == 4 ==>
              var a := MakeIpv4(Some(ip), port).value;
              && Canonical(a) && PeerOf(a) == Host4(port, ip) && a.socklen == 16
              && a.storage.data[..6] == [(port / 256) as byte, (port % 256) as byte] + ip
    ensures |ip| == 16 && |scope| == 4 ==>
              var a := MakeIpv6(Some(ip), port, scope).value;
              && Canonical(a) && PeerOf(a) == Host6(port, ip) && a.socklen == 28
              && a.storage.data[..26] == [(port / 256) as byte, (port % 256) as byte] + [0, 0, 0, 0] + ip + scope
    ensures 0 !in name && 1 <= |name| <= 107 ==>
              var a, b := MakeUnix(name), MakeAbstract(name);
              && a.Some? && Canonical(a.value) && PeerOf(a.value) == Path(name) && a.value.socklen == 2 + |name| + 1
              && b.Some? && Canonical(b.value) && PeerOf(b.value) == Abstract(name) && b.value.socklen == 2 + 1 + |name|
    ensures !(0 !in name && 1 <= |name| <= 107) ==> MakeUnix(name).None? && MakeAbstract(name).None?
  {
    if |ip| == 4 {
      MadeIpIsCanonical(Inet, Htons(port) + ip, SOCKADDR_IN);
      MadeIpv4Peer(ip, port);
    }
    if |ip| == 16 && |scope| == 4 {
      MadeIpIsCanonical(Inet6, Htons(port) + Zeros(4) + ip + scope, SOCKADDR_IN6);
      MadeIpv6Peer(ip, port, scope);
    }
    if NameAllowed(name) {
      MadeUnixIsCanonical(name);
      MadeAbstractIsCanonical(name);
    }
  }

  lemma MadeIpv4Peer(ip: seq<byte>, port: Port)
    requires |ip| == 4 && Canonical(MakeIpv4(Some(ip), port).value)
    ensures var a := MakeIpv4(Some(ip), port).value;
            && PeerOf(a) == Host4(port, ip)
            && a.storage.data[..6] == [(port / 256) as byte, (port % 256) as byte] + ip
  {
    var a := MakeIpv4(Some(ip), port).value;
    assert a.storage.data[..2] == Htons(port) && a.storage.data[2..6] == ip;
    assert a.storage.data[..6] == Htons(port) + ip;
  }

  lemma MadeIpv6Peer(ip: seq<byte>, port: Port, scope: seq<byte>)
    requires |ip| == 16 && |scope| == 4 && Canonical(MakeIpv6(Some(ip), port, scope).value)
    ensures var a := MakeIpv6(Some(ip), port, scope).value;
            && PeerOf(a) == Host6(port, ip)
            && a.storage.data[..26] == [(port / 256) as byte, (port % 256) as byte] + [0, 0, 0, 0] + ip + scope
  {
    var a := MakeIpv6(Some(ip), port, scope).value;
    assert a.storage.data[..2] == Htons(port) && a.storage.data[6..22] == ip;
    assert Zeros(4) == [0, 0, 0, 0];
    assert a.storage.data[..26] == Htons(port) + Zeros(4) + ip + scope;
  }

  /** The bytes of a sockaddr stand for this peer, in the layout of the Linux structures; NULs may follow a name. */
  predicate Denotes(sa: Sockaddr, len: nat, p: Peer)
    requires Readable(Some(sa), len)
  {
    match p
    case Host4(port, ip) =>
      sa.family == Inet && 16 <= len && sa.data[..2] == [(port / 256) as byte, (port % 256) as byte] && sa.data[2..6] == ip
    case Host6(port, ip) =>
      sa.family == Inet6 && 28 <= len && sa.data[..2] == [(port / 256) as byte, (port % 256) as byte] && sa.data[6..22] == ip
    case Path(name) =>
      && sa.family == Unix && 2 < len <= 110 && 0 !in name && 1 <= |name| <= 107 && |name| <= len - 2
      && sa.data[..len - 2] == name + Zeros(len - 2 - |name|)
    case Abstract(name) =>
      && sa.family == Unix && 2 < len <= 110 && 0 !in name && 1 <= |name| <= 107 && 1 + |name| <= len - 2
      && sa.data[0] == 0 && sa.data[1..len - 2] == name + Zeros(len - 3 - |name|)
  }

  lemma PortBytes(bytes: seq<byte>, port: Port)
    requires |bytes| == 2
    ensures bytes == Htons(port) <==> Ntohs(bytes) == port
  {
  }

  /** Stripping leaves a name exactly when only NULs follow it. */
  lemma StrippedIff(s: seq<byte>, name: seq<byte>)
    requires 0 !in name
    ensures Stripped(s) == name <==> |name| <= |s| && s == name + Zeros(|s| - |name|)
  {
    if Stripped(s) == name {
      StrippedRest(s);
      assert s == name + Zeros(|s| - |name|);
    } else if |name| <= |s| && s == name + Zeros(|s| - |name|) {
      StrippedName(name, |s| - |name|);
    }
  }

  lemma SameSlice(s: seq<byte>, t: seq<byte>, n: nat, i: nat, j: nat)
    requires i <= j <= n <= |s| && n <= |t| && s[..n] == t[..n]
    ensures s[i..j] == t[i..j]
  {
    assert s[i..j] == s[..n][i..j] && t[i..j] == t[..n][i..j];
  }

  lemma DecodedHostIff(sa: Sockaddr, len: nat, p: Peer)
    requires Readable(Some(sa), len) && (sa.family == Inet || sa.family == Inet6)
    ensures var a := Decode(Some(sa), len);
            && (a.Some? ==> Canonical(a.value))
            && (a.Some? && PeerOf(a.value) == p <==> Denotes(sa, len, p))
            && (a.Some? ==> var n := if sa.family == Inet then 14 else 26; a.value.storage.data[..n] == sa.data[..n])
  {
    var a := Decode(Some(sa), len);
    if a.Some? {
      DecodedIsCanonical(Some(sa), len);
      var n := if sa.family == Inet then 14 else 26;
      StoredPrefix(sa.family, sa.data[..n]);
      var kept := a.value.storage.data;
      SameSlice(kept, sa.data, n, 0, 2);
      SameSlice(kept, sa.data, n, 2, 6);
      SameSlice(kept, sa.data, n, if n == 26 then 6 else 0, if n == 26 then 22 else 0);
      assert kept[..2] == kept[0..2] && sa.data[..2] == sa.data[0..2];
      if p.Host4? || p.Host6? {
        PortBytes(sa.data[..2], p.port);
      }
    }
  }

  /** The peer a unix sockaddr names when its name is allowed. */
  function NamedPeer(sa: Sockaddr, len: nat): Peer
    requires 2 < len <= 2 + |sa.data|
  {
    if sa.data[0] == 0 then Abstract(Stripped(sa.data[1..len - 2])) else Path(Stripped(sa.data[0..len - 2]))
  }

  lemma DecodesNamed(sa: Sockaddr, len: nat)
    requires Readable(Some(sa), len) && sa.family == Unix && 2 < len <= 110
    ensures var a := Decode(Some(sa), len);
            && (a.Some? <==> NameAllowed(NamedPeer(sa, len).name))
            && (a.Some? ==> Canonical(a.value) && PeerOf(a.value) == NamedPeer(sa, len))
  {
    DecodedByName(sa, len);
    var name := NamedPeer(sa, len).name;
    if NameAllowed(name) {
      MadeUnixIsCanonical(name);
      MadeAbstractIsCanonical(name);
    }
  }

  lemma DenotesNamed(sa: Sockaddr, len: nat, p: Peer)
    requires Readable(Some(sa), len) && sa.family == Unix && 2 < len <= 110
    ensures Denotes(sa, len, p) <==> NameAllowed(NamedPeer(sa, len).name) && p == NamedPeer(sa, len)
  {
    assert sa.data[..len - 2] == sa.data[0..len - 2];
    if (p.Path? || p.Abstract?) && NameAllowed(p.name) {
      StrippedIff(sa.data[0..len - 2], p.name);
      StrippedIff(sa.data[1..len - 2], p.name);
      assert p.name[0] in p.name;
      assert sa.data[0] == sa.data[0..len - 2][0];
    }
  }

  /**
   * make_from_sockaddr accepts exactly the sockaddrs whose bytes stand for a peer, and the address it
   * makes stands for that peer; of an ip address it keeps all bytes of the structure.
   */
  lemma DecodesToPeerIff(sa: Sockaddr, len: nat, p: Peer)
    requires Readable(Some(sa), len)
    ensures var a := Decode(Some(sa), len);
            && (a.Some? ==> Canonical(a.value))
            && (a.Some? && PeerOf(a.value) == p <==> Denotes(sa, len, p))
            && (a.Some? && sa.family == Inet ==> a.value.storage.data[..14] == sa.data[..14])
            && (a.Some? && sa.family == Inet6 ==> a.value.storage.data[..26] == sa.data[..26])
  {
    match sa.family
    case Unix =>
      if 2 < len <= 110 {
        DecodesNamed(sa, len);
        DenotesNamed(sa, len, p);
      }
    case Unspecified =>
    case _ => DecodedHostIff(sa, len, p);
  }

  /**
   * Two addresses from the factories are equal exactly when they stand for the same port and ip, path
   * or abstract name. Hence equality is an equivalence on them, although it leaves out the scope id.
   */
  lemma EqualIffSamePeer(a: InetAddr, b: InetAddr)
    requires FactoryMade(a) && FactoryMade(b)
    ensures Wellformed(a) && Wellformed(b) && Canonical(a) && Canonical(b)
    ensures Equal(a, b) <==> PeerOf(a) == PeerOf(b)
    ensures a.storage.family == Unix ==> (Equal(a, b) <==> a == b)
  {
    MadeIsCanonical(a);
    MadeIsCanonical(b);
    var x, y := a.storage.data, b.storage.data;
    if a.storage.family == b.storage.family == Unix {
      UnixEqualIff(a, b);
    } else if a.storage.family == b.storage.family {
      assert Ntohs(x[..2]) == Ntohs(y[..2]) ==> x[..2][0] == y[..2][0] && x[..2][1] == y[..2][1];
      assert Ntohs(x[..2]) == Ntohs(y[..2]) <==> x[..2] == y[..2];
    }
  }

  lemma UnixEqualIff(a: InetAddr, b: InetAddr)
    requires Canonical(a) && Canonical(b) && a.storage.family == b.storage.family == Unix
    ensures Equal(a, b) <==> a == b
    ensures a == b <==> PeerOf(a) == PeerOf(b)
  {
    var x, y := a.storage.data, b.storage.data;
    if Equal(a, b) {
      assert x[0] == x[..a.socklen - BASE][0] == y[0];
      if x[0] == 0 {
        assert NameOf(a) == x[..a.socklen - BASE][1..] == NameOf(b);
      } else {
        assert NameOf(a) == x[..a.socklen - BASE][..a.socklen - BASE - 1] == NameOf(b);
      }
    }
  }

  /** An address equals itself unless it is default constructed or an unnamed unix address, which no factory makes. */
  lemma ReflexiveIff(a: InetAddr)
    requires Wellformed(a)
    ensures Equal(a, a) <==> a.storage.family in {Inet, Inet6} || (a.storage.family == Unix && a.socklen > BASE)
    ensures FactoryMade(a) ==> Equal(a, a)
  {
    if FactoryMade(a) {
      MadeIsCanonical(a);
    }
  }

  /** Two addresses that differ in the scope id alone compare equal. */
  lemma ScopeIsIgnored(ip: seq<byte>, port: Port, s: seq<byte>, t: seq<byte>)
    requires |ip| == 16 && |s| == |t| == 4
    ensures Equal(MakeIpv6(Some(ip), port, s).value, MakeIpv6(Some(ip), port, t).value)
    ensures MakeIpv6(Some(ip), port, s) == MakeIpv6(Some(ip), port, t) <==> s == t
  {
    var a, b := MakeIpv6(Some(ip), port, s).value, MakeIpv6(Some(ip), port, t).value;
    assert a.storage.data[..2] == Htons(port) == b.storage.data[..2];
    assert a.storage.data[6..22] == ip == b.storage.data[6..22];
    assert a.storage.data[22..26] == s && b.storage.data[22..26] == t;
  }

  /** A default-constructed address does not equal itself. */
  lemma DefaultIsUnequal()
    ensures var a := InetAddr(Sockaddr(Unspecified, Zeros(STORAGE)), 0); Wellformed(a) && !Equal(a, a) && !FactoryMade(a)
  {
    ReflexiveIff(InetAddr(Sockaddr(Unspecified, Zeros(STORAGE)), 0));
  }

  /** std::hash for the three argument types. */
  datatype StdHash = StdHash(ofU16: seq<byte> -> bv64, ofU32: seq<byte> -> bv64, ofString: seq<byte> -> bv64)

  function Combined(seed: bv64, v: bv64): bv64 {
    seed ^ (v + 0x9e3779b9 + (seed << 6) + (seed >> 2))
  }

  /** sa_family_t, in host byte order. */
  function FamilyBytes(family: Family): seq<byte> {
    match family
    case Unspecified => [0, 0]
    case Unix => [1, 0]
    case Inet => [2, 0]
    case Inet6 => [10, 0]
  }

  function HashOf(h: StdHash, a: InetAddr): bv64
    requires Wellformed(a)
  {
    var seed := Combined(0, h.ofU16(FamilyBytes(a.storage.family)));
    var x := a.storage.data;
    match a.storage.family
    case Inet => Combined(Combined(seed, h.ofU32(x[2..6])), h.ofU16(x[..2]))
    case Inet6 => Combined(Combined(seed, h.ofString(x[6..22])), h.ofU16(x[..2]))
    case Unix => if a.socklen > BASE then Combined(seed, h.ofString(x[..a.socklen - BASE])) else seed
    case Unspecified => 0
  }

  /** hash(), accumulating into its seed. */
  method Hash(h: StdHash, a: InetAddr) returns (seed: bv64)
    requires Wellformed(a)
    ensures seed == HashOf(h, a)
  {
    var x := a.storage.data;
    seed := 0;
    seed := Combined(seed, h.ofU16(FamilyBytes(a.storage.family)));
    match a.storage.family
    case Inet =>
      seed := Combined(seed, h.ofU32(x[2..6]));
      seed := Combined(seed, h.ofU16(x[..2]));
    case Inet6 =>
      seed := Combined(seed, h.ofString(x[6..22]));
      seed := Combined(seed, h.ofU16(x[..2]));
    case Unix =>
      if a.socklen > BASE {
        seed := Combined(seed, h.ofString(x[..a.socklen - BASE]));
      }
    case Unspecified =>
      return 0;
  }

  /** Equal addresses hash alike, whichever way they were made and whatever std::hash does. */
  lemma EqualHashAlike(h: StdHash, a: InetAddr, b: InetAddr)
    requires Wellformed(a) && Wellformed(b) && Equal(a, b)
    ensures HashOf(h, a) == HashOf(h, b)
  {
  }

  /** So an address is found in a hash table under every representation of the same peer. */
  lemma SamePeerHashAlike(h: StdHash, a: InetAddr, b: InetAddr)
    requires FactoryMade(a) && FactoryMade(b)
    ensures Canonical(a) && Canonical(b) && (PeerOf(a) == PeerOf(b) ==> HashOf(h, a) == HashOf(h, b))
  {
    EqualIffSamePeer(a, b);
    if PeerOf(a) == PeerOf(b) {
      EqualHashAlike(h, a, b);
    }
  }

  /** A std::hash that tells one argument from all others, if asked to. */
  function Marking(u16: Option<seq<byte>>, u32: Option<seq<byte>>, str: Option<seq<byte>>): StdHash {
    StdHash(x => if u16 == Some(x) then 1 else 0, x => if u32 == Some(x) then 1 else 0, x => if str == Some(x) then 1 else 0)
  }

  /** Chains of combinations of zeros and a one: the values that occur below. */
  lemma ChainsDiffer()
    ensures var c := Combined(0, 0);
            && Combined(Combined(c, 1), 0) != Combined(Combined(c, 0), 0)
            && Combined(Combined(c, 0), 1) != Combined(Combined(c, 0), 0)
            && Combined(c, 1) != Combined(c, 0)
            && Combined(c, 0) != Combined(Combined(c, 0), 0)
    ensures var c := Combined(0, 1);
            && Combined(Combined(c, 0), 1) != Combined(Combined(c, 0), 0)
  {
  }

  lemma HostsAreToldApart(a: InetAddr, b: InetAddr) returns (h: StdHash)
    requires Canonical(a) && Canonical(b) && a.storage.family == b.storage.family && a.storage.family in {Inet, Inet6}
    requires !Equal(a, b)
    ensures HashOf(h, a) != HashOf(h, b)
  {
    var x, y := a.storage.data, b.storage.data;
    ChainsDiffer();
    if x[..2] != y[..2] {
      h := Marking(Some(x[..2]), None, None);
      if FamilyBytes(a.storage.family) == y[..2] {
        h := Marking(Some(y[..2]), None, None);
      }
    } else if a.storage.family == Inet {
      h := Marking(None, Some(x[2..6]), None);
    } else {
      h := Marking(None, None, Some(x[6..22]));
    }
  }

  lemma OthersAreToldApart(a: InetAddr, b: InetAddr) returns (h: StdHash)
    requires Canonical(a) && Canonical(b) && !Equal(a, b)
    requires a.storage.family == Unix || a.storage.family != b.storage.family
    ensures HashOf(h, a) != HashOf(h, b)
  {
    ChainsDiffer();
    if a.storage.family == b.storage.family {
      UnixNamesDiffer(a, b);
      h := Marking(None, None, Some(a.storage.data[..a.socklen - BASE]));
    } else if a.storage.family == Unix || b.storage.family == Unix {
      h := Marking(None, None, None);
    } else {
      var v4 := if a.storage.family == Inet then a else b;
      h := Marking(None, Some(v4.storage.data[2..6]), None);
    }
  }

  lemma UnixNamesDiffer(a: InetAddr, b: InetAddr)
    requires Canonical(a) && Canonical(b) && a.storage.family == b.storage.family == Unix && !Equal(a, b)
    ensures a.storage.data[..a.socklen - BASE] != b.storage.data[..b.socklen - BASE]
  {
    var x, y := a.storage.data[..a.socklen - BASE], b.storage.data[..b.socklen - BASE];
    assert |x| == a.socklen - BASE && |y| == b.socklen - BASE;
  }

  /** Every part of a peer reaches the hash: addresses hash alike under every std::hash exactly when they stand for the same peer. */
  lemma HashAlikeIff(a: InetAddr, b: InetAddr)
    requires FactoryMade(a) && FactoryMade(b)
    ensures Canonical(a) && Canonical(b)
    ensures PeerOf(a) == PeerOf(b) <==> forall h :: HashOf(h, a) == HashOf(h, b)
  {
    EqualIffSamePeer(a, b);
    if PeerOf(a) == PeerOf(b) {
      forall h
        ensures HashOf(h, a) == HashOf(h, b)
      {
        EqualHashAlike(h, a, b);
      }
    } else if a.storage.family == b.storage.family && a.storage.family != Unix {
      var h := HostsAreToldApart(a, b);
    } else {
      var h := OthersAreToldApart(a, b);
    }
  }

  // ---------------------------------------------------------------- printed names

  const AT: byte := 0x40   // '@'

  /** A C string: the bytes before the first NUL. */
  function CString(s: seq<byte>): seq<byte> {
    if s == [] || s[0] == 0 then [] else [s[0]] + CString(s[1..])
  }

  lemma {:induction false} CStringStops(name: seq<byte>, rest: seq<byte>)
    requires 0 !in name && rest != [] && rest[0] == 0
    ensures CString(name + rest) == name
    decreases |name|
  {
    if name != [] {
      assert (name + rest)[1..] == name[1..] + rest;
      CStringStops(name[1..], rest);
    } else {
      assert name + rest == rest;
    }
  }

  /** get_ip_or_path of a unix address. */
  function PrintedName(a: InetAddr): seq<byte>
    requires Wellformed(a) && a.storage.family == Unix && a.socklen <= SOCKADDR_UN
  {
    if a.socklen <= BASE then []
    else if a.storage.data[0] == 0 then [AT] + a.storage.data[1..a.socklen - BASE]
    else CString(a.storage.data[..SUN_PATH])
  }

  lemma PrintedNameIs(a: InetAddr)
    requires Canonical(a) && a.storage.family == Unix
    ensures a.socklen <= SOCKADDR_UN
    ensures PrintedName(a) == if PeerOf(a).Abstract? then [AT] + NameOf(a) else NameOf(a)
  {
    if a.storage.data[0] != 0 {
      var rest := a.storage.data[|NameOf(a)|..SUN_PATH];
      assert a.storage.data[..SUN_PATH] == NameOf(a) + rest;
      CStringStops(NameOf(a), rest);
    }
  }

  /** The printed name tells unix addresses apart except for a path that begins with '@' and the abstract name behind it. */
  lemma PrintedAlikeIff(a: InetAddr, b: InetAddr)
    requires FactoryMade(a) && FactoryMade(b) && a.storage.family == b.storage.family == Unix
    ensures Canonical(a) && Canonical(b) && a.socklen <= SOCKADDR_UN && b.socklen <= SOCKADDR_UN
    ensures PrintedName(a) == PrintedName(b) <==>
            || a == b
            || (PeerOf(a).Path? && PeerOf(b) == Abstract(NameOf(a)[1..]) && NameOf(a)[0] == AT)
            || (PeerOf(b).Path? && PeerOf(a) == Abstract(NameOf(b)[1..]) && NameOf(b)[0] == AT)
  {
    MadeIsCanonical(a);
    MadeIsCanonical(b);
    PrintedNameIs(a);
    PrintedNameIs(b);
    UnixEqualIff(a, b);
    assert ([AT] + NameOf(a))[1..] == NameOf(a) && ([AT] + NameOf(b))[1..] == NameOf(b);
  }

  /** For every abstract name short enough there is a path, both of them made, that prints like it. */
  lemma PrintedNamesCollide(name: seq<byte>)
    requires NameAllowed(name) && |name| + 1 < SUN_PATH
    ensures var path, other := MakeUnix([AT] + name), MakeAbstract(name);
            && path.Some? && other.Some? && path != other
            && Wellformed(path.value) && Wellformed(other.value)
            && path.value.socklen <= SOCKADDR_UN && other.value.socklen <= SOCKADDR_UN
            && PrintedName(path.value) == PrintedName(other.value)
  {
    MadeUnixIsCanonical([AT] + name);
    MadeAbstractIsCanonical(name);
    var a, b := MakeUnix([AT] + name).value, MakeAbstract(name).value;
    assert ([AT] + name)[1..] == name;
    PrintedAlikeIff(a, b);
  }
}
