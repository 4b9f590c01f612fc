/** The provider's record schema: stored records carry a provider-assigned
    ID; creation takes options in which kind-specific fields are pointers. */
module Linode {
  import opened Wrappers

  /** A stored record (linodego.DomainRecord). Priority, weight and port are
      plain ints; service, protocol and tag are pointers. */
  datatype DomainRecord = DomainRecord(
    id: int,
    rtype: string,
    name: string,
    target: string,
    ttlSec: int,
    priority: int,
    weight: int,
    port: int,
    service: Option<string>,
    protocol: Option<string>,
    tag: Option<string>)

  /** The options of a create call (linodego.DomainRecordCreateOptions);
      there is no ID, the provider assigns it. */
  datatype CreateOptions = CreateOptions(
    rtype: string,
    name: string,
    target: string,
    ttlSec: int,
    priority: Option<int>,
    weight: Option<int>,
    port: Option<int>,
    service: Option<string>,
    protocol: Option<string>,
    tag: Option<string>)

  /** The record a provider stores for the options when it keeps every field
      as given, under the ID it assigned; nil numbers are stored as zero. */
  function EchoOf(o: CreateOptions, id: int): DomainRecord {
    DomainRecord(id, o.rtype, o.name, o.target, o.ttlSec,
                 o.priority.GetOr(0), o.weight.GetOr(0), o.port.GetOr(0),
                 o.service, o.protocol, o.tag)
  }
}
