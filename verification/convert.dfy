/** Translation between the provider's stored records and generic records
    (client.go:215-354). */
module Convert {
  import opened Wrappers
  import opened Errors
  import opened Libdns
  import opened Linode

  /** The provider writes the zone apex as the empty name; libdns wants "@". */
  function LibdnsWantsAtSym(name: string): (r: string)
    ensures name != "" ==> r == name
    ensures r == "@" <==> name == "" || name == "@"
  {
    if name == "" then "@" else name
  }

  /** The reverse of LibdnsWantsAtSym, for names sent to the provider. */
  function LinodeDoesntWantAtSym(name: string): (r: string)
    ensures name == "@" ==> r == ""
    ensures r != "@"
    ensures r == name <==> name != "@"
  {
    if name == "@" then "" else name
  }

  /** Each apex helper undoes the other on every name but the other's sentinel. */
  lemma AtSymInverses(name: string)
    ensures LinodeDoesntWantAtSym(LibdnsWantsAtSym(name)) == name <==> name != "@"
    ensures LibdnsWantsAtSym(LinodeDoesntWantAtSym(name)) == name <==> name != ""
  {
  }

  predicate IsAddressType(t: string) {
    t == TypeA || t == TypeAAAA
  }

  /** The provider types the translation switches on. */
  predicate IsSwitchedType(t: string) {
    IsAddressType(t) || t in {TypeNS, TypeMX, TypeCNAME, TypeTXT, TypeSRV, TypePTR, TypeCAA}
  }

  /** Go's uint16(x): keeps the low 16 bits, never fails. */
  function Narrow16(x: int): U16 {
    x % 0x1_0000
  }

  /** convertToLibdns: a stored record as a generic record, or why it has none. */
  function ConvertToLibdns(d: DomainRecord): (r: Result<Record, Error>)
    ensures r.Failure? <==>
      || d.rtype == TypePTR
      || !IsSwitchedType(d.rtype)
      || (IsAddressType(d.rtype) && !IsIPLiteral(d.target))
      || (d.rtype == TypeCAA && d.tag.None?)
    ensures r.Success? ==> r.value.name == LibdnsWantsAtSym(d.name) && r.value.ttl == d.ttlSec * Second
    ensures r.Success? ==> !r.value.ServiceBinding? && !r.value.Raw?
    ensures r.Success? && r.value.CAA? ==> r.value.flags == 0
  {
    var name := LibdnsWantsAtSym(d.name);
    var ttl := d.ttlSec * Second;
    if IsAddressType(d.rtype) then
      match ParseAddr(d.target)
      case None => Failure(InvalidAddress(d.target))
      case Some(ip) => Success(Address(name, ttl, ip))
    else if d.rtype == TypeNS then
      Success(NS(name, ttl, d.target))
    else if d.rtype == TypeMX then
      Success(MX(name, ttl, Narrow16(d.priority), d.target))
    else if d.rtype == TypeCNAME then
      Success(CNAME(name, ttl, d.target))
    else if d.rtype == TypeTXT then
      Success(TXT(name, ttl, d.target))
    else if d.rtype == TypeSRV then
      Success(SRV(d.service.GetOr(""), d.protocol.GetOr(""), name, ttl,
                  Narrow16(d.priority), Narrow16(d.weight), Narrow16(d.port), d.target))
    else if d.rtype == TypePTR then
      Failure(PtrUnsupported)
    else if d.rtype == TypeCAA then
      match d.tag
      case None => Failure(MissingCaaTag)
      case Some(tag) => Success(CAA(name, ttl, 0, tag, d.target))
    else
      Failure(UnknownType(d.rtype))
  }

  /** The flattened view of a converted record: the TTL in seconds times one
      second, the provider's type (address records take their type from the
      address family instead), the apex-mapped name for every kind but SRV,
      and the target as the data of the kinds whose value is one string. */
  lemma ConvertedView(d: DomainRecord)
    requires ConvertToLibdns(d).Success?
    ensures ConvertToLibdns(d).value.AsRR().ttl == d.ttlSec * Second
    ensures d.rtype != TypeSRV ==> ConvertToLibdns(d).value.AsRR().name == LibdnsWantsAtSym(d.name)
    ensures !IsAddressType(d.rtype) ==> ConvertToLibdns(d).value.AsRR().rtype == d.rtype
    ensures IsAddressType(d.rtype) ==>
      ConvertToLibdns(d).value.AsRR().rtype == (if ':' in d.target then TypeAAAA else TypeA)
    ensures d.rtype in {TypeA, TypeAAAA, TypeNS, TypeCNAME, TypeTXT} ==>
      ConvertToLibdns(d).value.AsRR().data == d.target
  {
  }

  /** Out-of-range priority, weight and port values never make the
      translation fail: each wraps modulo 65536 on its own. */
  lemma NarrowingWraps(d: DomainRecord, mp: int, mw: int, mq: int)
    ensures ConvertToLibdns(d.(priority := d.priority + 0x1_0000 * mp,
                               weight := d.weight + 0x1_0000 * mw,
                               port := d.port + 0x1_0000 * mq)) == ConvertToLibdns(d)
    ensures d.rtype == TypeMX && ConvertToLibdns(d).Success? ==>
              ConvertToLibdns(d).value.preference == d.priority % 0x1_0000
    ensures d.rtype == TypeSRV && ConvertToLibdns(d).Success? ==>
              && ConvertToLibdns(d).value.priority == d.priority % 0x1_0000
              && ConvertToLibdns(d).value.weight == d.weight % 0x1_0000
              && ConvertToLibdns(d).value.port == d.port % 0x1_0000
  {
    var e := d.(priority := d.priority + 0x1_0000 * mp,
                weight := d.weight + 0x1_0000 * mw,
                port := d.port + 0x1_0000 * mq);
    WrapMod(d.priority, mp);
    WrapMod(d.weight, mw);
    WrapMod(d.port, mq);
    assert Narrow16(e.priority) == Narrow16(d.priority);
    assert Narrow16(e.weight) == Narrow16(d.weight);
    assert Narrow16(e.port) == Narrow16(d.port);
  }

  lemma WrapMod(x: int, m: int)
    ensures (x + 0x1_0000 * m) % 0x1_0000 == x % 0x1_0000
  {
  }

  /** A nil SRV service or protocol reads exactly like an empty one. */
  lemma NilServiceIsEmpty(d: DomainRecord)
    requires d.rtype == TypeSRV
    ensures ConvertToLibdns(d.(service := None, protocol := None))
         == ConvertToLibdns(d.(service := Some(""), protocol := Some("")))
  {
  }

  /** int(d.Seconds()): whole seconds, truncated toward zero. */
  function TruncSeconds(ns: int): (s: int)
    ensures 0 <= ns ==> 0 <= s && s * Second <= ns < (s + 1) * Second
    ensures ns < 0 ==> s <= 0 && (s - 1) * Second < ns <= s * Second
  {
    if ns >= 0 then ns / Second else -((-ns) / Second)
  }

  /** convertToDomainRecord: create options for a generic record. Only
      ServiceBinding is refused; any other kind, a bare RR included, yields
      options whose pointer fields are set exactly for the kinds using them.
      The target is the flattened data, except that CAA sends its value and
      MX and SRV their target host; MX sends its preference as the priority. */
  function ConvertToDomainRecord(rec: Record, zone: string): (r: Result<CreateOptions, Error>)
    ensures r.Failure? <==> rec.ServiceBinding?
    ensures r.Failure? ==> r.error == UnsupportedType
    ensures r.Success? ==> r.value.rtype == rec.AsRR().rtype && r.value.ttlSec == TruncSeconds(rec.ttl)
    ensures r.Success? ==> (r.value.tag.Some? <==> rec.CAA?)
    ensures r.Success? ==> (r.value.priority.Some? <==> rec.MX? || rec.SRV?)
    ensures r.Success? ==> (r.value.weight.Some? <==> rec.SRV?) && (r.value.port.Some? <==> rec.SRV?)
    ensures r.Success? ==> (r.value.service.Some? <==> rec.SRV?) && (r.value.protocol.Some? <==> rec.SRV?)
    ensures r.Success? && rec.SRV? ==> r.value.name == ""
    ensures r.Success? && !rec.SRV? ==> r.value.name == LinodeDoesntWantAtSym(RelativeName(rec.name, zone))
    ensures r.Success? && !(rec.CAA? || rec.MX? || rec.SRV?) ==> r.value.target == rec.AsRR().data
    ensures r.Success? && rec.CAA? ==> r.value.target == rec.value && r.value.tag == Some(rec.tag)
    ensures r.Success? && rec.MX? ==> r.value.target == rec.target && r.value.priority == Some(rec.preference as int)
    ensures r.Success? && rec.SRV? ==>
              && r.value.target == rec.target
              && r.value.priority == Some(rec.priority as int)
              && r.value.weight == Some(rec.weight as int)
              && r.value.port == Some(rec.port as int)
              && r.value.service == Some(rec.service)
              && r.value.protocol == Some(rec.transport)
  {
    var rr := rec.AsRR();
    var base := CreateOptions(rr.rtype, LinodeDoesntWantAtSym(RelativeName(rr.name, zone)), rr.data,
                              TruncSeconds(rr.ttl), None, None, None, None, None, None);
    match rec
    case CAA(_, _, _, tag, value) =>
      Success(base.(tag := Some(tag), target := value))
    case MX(_, _, preference, target) =>
      Success(base.(priority := Some(preference as int), target := target))
    case SRV(service, transport, _, _, priority, weight, port, target) =>
      Success(base.(name := "", priority := Some(priority as int), weight := Some(weight as int),
                    port := Some(port as int), target := target,
                    service := Some(service), protocol := Some(transport)))
    case ServiceBinding(_, _, _, _, _) =>
      Failure(UnsupportedType)
    case _ =>
      Success(base)
  }

  /** The generic records a provider that stores options as given hands back
      unchanged: the kinds other than SRV, ServiceBinding and bare RRs, with a
      whole-second TTL, a non-empty name already relative to the zone, a
      parsable address and CAA flags of zero. */
  predicate Restorable(rec: Record, zone: string) {
    && (rec.Address? || rec.NS? || rec.MX? || rec.CNAME? || rec.TXT? || rec.CAA?)
    && rec.ttl % Second == 0
    && rec.name != ""
    && RelativeName(rec.name, zone) == rec.name
    && (rec.Address? ==> IsIPLiteral(rec.ip.text))
    && (rec.CAA? ==> rec.flags == 0)
  }

  /** Round trip: creating a restorable record and reading back what was
      stored gives the record itself. */
  lemma RoundTrip(rec: Record, zone: string, id: int)
    requires Restorable(rec, zone)
    ensures ConvertToDomainRecord(rec, zone).Success?
    ensures ConvertToLibdns(EchoOf(ConvertToDomainRecord(rec, zone).value, id)) == Success(rec)
  {
    WholeSeconds(rec.ttl);
  }

  /** SRV records come back with every field but the name, which collapses
      to the apex because the create options drop it. */
  lemma SrvRoundTrip(rec: Record, zone: string, id: int)
    requires rec.SRV? && rec.ttl % Second == 0
    ensures ConvertToDomainRecord(rec, zone).Success?
    ensures ConvertToLibdns(EchoOf(ConvertToDomainRecord(rec, zone).value, id))
         == Success(SRV(rec.service, rec.transport, "@", rec.ttl, rec.priority, rec.weight, rec.port, rec.target))
  {
    WholeSeconds(rec.ttl);
    var o := ConvertToDomainRecord(rec, zone).value;
    assert o == CreateOptions(TypeSRV, "", rec.target, TruncSeconds(rec.ttl),
                              Some(rec.priority as int), Some(rec.weight as int), Some(rec.port as int),
                              Some(rec.service), Some(rec.transport), None);
    var d := EchoOf(o, id);
    assert Narrow16(d.priority) == rec.priority && Narrow16(d.weight) == rec.weight && Narrow16(d.port) == rec.port;
  }

  lemma WholeSeconds(ns: int)
    requires ns % Second == 0
    ensures TruncSeconds(ns) * Second == ns
  {
    if ns >= 0 {
      DivExact(ns);
    } else {
      DivExact(-ns);
    }
  }

  lemma DivExact(n: nat)
    requires n % Second == 0
    ensures n / Second * Second == n
  {
    assert n == Second * (n / Second) + n % Second;
  }
}
