/** The generic record model of the libdns interface, as far as the provider
    relies on it: the record kinds, their flattened (Name, Type, TTL, Data)
    view, and the name relativisation helper. The library itself is not part
    of this model; where its behaviour is not visible (address parsing, data
    flattening, relative names) a small stand-in encoding is used and only
    the facts the provider depends on are relied upon. */
module Libdns {
  import opened Wrappers

  /** time.Duration counts nanoseconds. */
  const Second: int := 1_000_000_000

  /** The DNS type names shared by libdns and the provider's record types. */
  const TypeA: string := "A"
  const TypeAAAA: string := "AAAA"
  const TypeNS: string := "NS"
  const TypeMX: string := "MX"
  const TypeCNAME: string := "CNAME"
  const TypeTXT: string := "TXT"
  const TypeSRV: string := "SRV"
  const TypePTR: string := "PTR"
  const TypeCAA: string := "CAA"

  type U16 = x: int | 0 <= x < 0x1_0000
  type U8 = x: int | 0 <= x < 0x100

  /** An IP address (netip.Addr), represented by its text. The stand-in
      parser accepts a non-empty string of hex digits, dots and colons that
      contains a dot or a colon, and keeps the text as written. */
  datatype Addr = Addr(text: string)

  predicate IsAddrChar(c: char) {
    ('0' <= c <= '9') || ('a' <= c <= 'f') || ('A' <= c <= 'F') || c == '.' || c == ':'
  }

  predicate IsIPLiteral(s: string) {
    && |s| > 0
    && (forall i :: 0 <= i < |s| ==> IsAddrChar(s[i]))
    && ('.' in s || ':' in s)
  }

  function ParseAddr(s: string): (r: Option<Addr>)
    ensures r.Some? <==> IsIPLiteral(s)
    ensures r.Some? ==> r.value.text == s
  {
    if IsIPLiteral(s) then Some(Addr(s)) else None
  }

  /** IPv6 addresses are written with colons; they flatten to type AAAA. */
  predicate IsV6(a: Addr) {
    ':' in a.text
  }

  /** The flattened resource-record view every record kind offers (RR()). */
  datatype RR = RR(name: string, rtype: string, ttl: int, data: string)

  /** The generic record kinds. Raw is a bare RR, used for any kind the
      provider does not switch on and for wildcard delete queries. */
  datatype Record =
    | Address(name: string, ttl: int, ip: Addr)
    | NS(name: string, ttl: int, target: string)
    | MX(name: string, ttl: int, preference: U16, target: string)
    | CNAME(name: string, ttl: int, target: string)
    | TXT(name: string, ttl: int, text: string)
    | SRV(service: string, transport: string, name: string, ttl: int,
          priority: U16, weight: U16, port: U16, target: string)
    | CAA(name: string, ttl: int, flags: U8, tag: string, value: string)
    | ServiceBinding(scheme: string, name: string, ttl: int, priority: U16, target: string)
    | Raw(name: string, rtype: string, ttl: int, data: string)
  {
    /** The flattened view. Every kind but SRV keeps its name; SRV prefixes
        the service and transport labels. */
    function AsRR(): (rr: RR)
      ensures rr.ttl == ttl
      ensures !SRV? ==> rr.name == name
      ensures Raw? ==> rr == RR(name, rtype, ttl, data)
    {
      match this
      case Address(name, ttl, ip) =>
        RR(name, if IsV6(ip) then TypeAAAA else TypeA, ttl, ip.text)
      case NS(name, ttl, target) => RR(name, TypeNS, ttl, target)
      case MX(name, ttl, preference, target) =>
        RR(name, TypeMX, ttl, Decimal(preference) + " " + target)
      case CNAME(name, ttl, target) => RR(name, TypeCNAME, ttl, target)
      case TXT(name, ttl, text) => RR(name, TypeTXT, ttl, text)
      case SRV(service, transport, name, ttl, priority, weight, port, target) =>
        RR(SrvOwner(service, transport, name), TypeSRV, ttl,
           Decimal(priority) + " " + Decimal(weight) + " " + Decimal(port) + " " + target)
      case CAA(name, ttl, flags, tag, value) =>
        RR(name, TypeCAA, ttl, Decimal(flags) + " " + tag + " \"" + value + "\"")
      case ServiceBinding(scheme, name, ttl, priority, target) =>
        RR(name, if scheme == "https" then "HTTPS" else "SVCB", ttl, Decimal(priority) + " " + target)
      case Raw(name, rtype, ttl, data) => RR(name, rtype, ttl, data)
    }
  }

  /** The flattened views of a list of records, in order. */
  function RRs(records: seq<Record>): (r: seq<RR>)
    ensures |r| == |records|
    ensures forall p :: 0 <= p < |records| ==> r[p] == records[p].AsRR()
  {
    seq(|records|, p requires 0 <= p < |records| => records[p].AsRR())
  }

  /** The owner name of an SRV record: _service._transport, then the name
      unless it is the zone apex "@". */
  function SrvOwner(service: string, transport: string, name: string): string {
    var labels := "_" + service + "._" + transport;
    if name == "@" then labels else labels + "." + name
  }

  /** Decimal text of a natural number. */
  function Decimal(n: nat): (s: string)
    ensures |s| > 0
  {
    if n < 10 then ["0123456789"[n]] else Decimal(n / 10) + ["0123456789"[n % 10]]
  }

  function TrimSuffix(s: string, suffix: string): string {
    if |suffix| <= |s| && s[|s| - |suffix|..] == suffix then s[..|s| - |suffix|] else s
  }

  /** The name relative to the zone: trailing dots are ignored, the zone
      itself becomes "@", and a name outside the zone is returned as is. */
  function RelativeName(fqdn: string, zone: string): string {
    var f := TrimSuffix(fqdn, ".");
    var z := TrimSuffix(zone, ".");
    if f != "" && f == z then "@"
    else if z != "" && TrimSuffix(f, "." + z) != f then TrimSuffix(f, "." + z)
    else f
  }
}
