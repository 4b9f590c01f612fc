/** The error conditions the provider can report. The Go code wraps each in a
    formatted message; only the condition is kept here. */
module Errors {

  datatype Error =
      // translation of a provider record into a generic record
    | PtrUnsupported                 // PTR has no generic counterpart
    | UnknownType(rtype: string)     // type outside the switch
    | InvalidAddress(target: string) // A/AAAA target that is not an IP literal
    | MissingCaaTag                  // CAA record whose tag pointer is nil
      // translation of a generic record into create options
    | UnsupportedType                // the ErrUnsupportedType sentinel (ServiceBinding)
      // zone resolution
    | DomainLookupFailed
    | DomainNotFound
    | DomainAmbiguous(count: nat)
      // collaborator calls on the zone
    | ListFailed
    | ConvertFailed(cause: Error)     // a listed record that does not translate
    | DeleteFailed(id: int)
    | CreateFailed
      // caller input
    | NameRequired                   // delete query with an empty name
}
