# libdns-linode record operations, modelled in Dafny

This project models the core of the Linode provider for libdns, the Go DNS
record interface. The provider maps four record operations onto the Linode
Domains API:

- GetRecords lists a zone's records.
- AppendRecords creates records, skipping the ones that fail.
- SetRecords replaces the records of each (Name, Type) pair found in the input.
- DeleteRecords deletes the records that match queries, which may hold wildcards.

The model covers the following, over the provider's stored records
(`Linode.DomainRecord`) and the generic libdns records (`Libdns.Record`):

- the translation in both directions;
- the zone lookup;
- the delete scan;
- the Set reconciler;
- the four operations' error policies.

The provider is a parameter:

- A zone is the sequence of its stored records, in listing order.
- Deleting by ID filters the zone (`Collaborators.Without`).
- An `Oracle` decides how each collaborator call turns out: whether the
  listing succeeds, whether deleting a given ID succeeds, and what the create
  call for input k stores.
- The outcome of the domain lookup is passed in as the list of matching
  domain IDs, or a failure.

Modules, in dependency order:

- `Wrappers`: `Option` stands for Go pointers, `Result` for (value, error) pairs.
- `Errors`: the error conditions. Go wraps each in a message; only the condition is kept.
- `Libdns`: the record kinds, the flattened `RR` view, and stand-ins for library internals.
- `Linode`: stored records and create options. `EchoOf` is a provider that stores options as given.
- `Convert`: `convertToLibdns`, `convertToDomainRecord` and the apex helpers.
- `Collaborators`: zones, deletion by ID, and the oracle.
- `Client`: `getDomainIDByZone`, `listDomainRecords` and `createDomainRecord`.
- `Delete`: `deleteDomainRecords`, written once over a `Scanner`. A scanner is a
  conversion paired with a view, and the provider's scanner is `Translation`.
- `Reconcile`: `createOrUpdateDomainRecords`.
- `Provider`: the four operations.
- `Scenarios`: the integration tests' scenarios, stated over the model.

Behaviour of client.go and provider.go that a caller may not expect:

- Priority, weight and port read from the provider are narrowed with Go's
  `uint16(...)`. They wrap modulo 65536 (`Convert.NarrowingWraps`) rather than
  failing on out-of-range values.
- DeleteRecords rejects a query with an empty name only when its loop
  reaches that query (client.go:169-171). Deletions made for earlier queries
  stay done, and no records are returned.
- SetRecords stops at any listed record that does not convert
  (client.go:111-114). This includes PTR records, which only the delete scan
  passes over.
- SetRecords and DeleteRecords return no records when they fail
  (provider.go:114, provider.go:134). They do not return the partial list
  collected so far, although the deletions and creations already made stay
  done.
- The (Name, Type) table is built as written at client.go:98. Each input
  resets its name's entry, so a name keeps only the type of its last input.
  The libdns promise (client.go:54-55) therefore holds only when inputs that
  share a name share a type (`Reconcile.UniformDoomed`), and it fails
  otherwise (`Scenarios.MixedTypesKeepOldRecords`).

## Model

| member | source | states |
|---|---|---|
| Convert.LibdnsWantsAtSym | client.go:342-347 | a non-empty name is kept, and the result is "@" exactly for the empty name and "@" itself |
| Convert.LinodeDoesntWantAtSym | client.go:349-354 | "@" becomes the empty name, every other name is kept, and the result is never "@" |
| Convert.AtSymInverses | client.go:342-354 | each apex helper undoes the other on every name except the other's sentinel, both directions of the iff |
| Convert.ConvertToLibdns | client.go:215-291 | translation fails exactly for PTR, an unswitched type, an address target that does not parse, or a CAA record without a tag; a success keeps the apex-mapped name and TTL times one second, never yields ServiceBinding or a bare RR, and fixes CAA flags at 0 |
| Convert.ConvertedView | client.go:215-291 | the flattened view of a converted record has the TTL in nanoseconds, the apex-mapped name except for SRV, the stored type (address records take it from the address family), and the target as data for single-value kinds |
| Convert.NarrowingWraps | client.go:239-270 | adding any multiple of 65536 to priority, weight and port, each by its own multiple, does not change the translation; a translated MX preference and SRV priority, weight and port are the stored values modulo 65536 |
| Convert.NilServiceIsEmpty | client.go:256-265 | a nil SRV service or protocol translates exactly like an empty one |
| Convert.TruncSeconds | client.go:300 | whole seconds truncated toward zero, bracketed from both sides for positive and negative durations |
| Convert.ConvertToDomainRecord | client.go:294-340 | only ServiceBinding is refused, with the unsupported-type sentinel; the options carry the view's type and truncated TTL, tag exactly for CAA, priority exactly for MX and SRV, weight/port/service/protocol exactly for SRV, an empty name for SRV, and the relative, apex-mapped name otherwise; the target is the flattened data, except CAA's value and the MX and SRV target host; the priority is the MX preference or the SRV priority, and SRV's weight, port, service and transport (as protocol) are copied |
| Convert.RoundTrip | client.go:294-340 | a restorable record, created and read back from a provider that stores the options as given, is returned unchanged |
| Convert.SrvRoundTrip | client.go:319-332 | an SRV record read back keeps every field except its name, which becomes "@" |
| Client.GetDomainIdByZone | client.go:16-35 | resolves exactly when one domain matches, to that domain's ID; distinct errors for a failed lookup, none found, and several found |
| Client.ConvertAll | client.go:42-50 | succeeds exactly when every listed record converts, keeping order and length; a failure is the first record's that fails |
| Client.ListDomainRecords | client.go:37-51 | all or nothing: succeeds exactly when the listing works and every record converts; the failure wraps a failing record's conversion error |
| Client.CreateDomainRecord | client.go:138-148 | a record is stored exactly when it converts to options and the create call succeeds; it is reported exactly when it was stored and the stored copy converts back; ServiceBinding stores nothing |
| Client.ListingReadsAs | client.go:37-51 | a working listing whose records convert to the given records, one by one, reads back as exactly those records |
| Client.ReportedAll | client.go:127-133 | when no creation fails, every creation's record is reported, in order |
| Client.ReportedAre | provider.go:86-98 | a record is reported exactly when some creation returned it |
| Client.StoredAre | provider.go:86-98 | a record is stored exactly when some creation stored it |
| Client.ReportedAreStored | client.go:143-147 | a run reports at most as many records as it stored |
| Collaborators.WithoutKeeps | client.go:204 | deleting by ID keeps exactly the records whose ID was not deleted |
| Collaborators.WithoutTwice | client.go:204 | deleting IDs in two rounds equals deleting their union at once |
| Delete.WildMatchIsFilledEquality | client.go:188-201 | a view matches exactly when it equals the query completed by its own values in the fields the query leaves at zero; a query with no zero field matches only an identical view |
| Delete.NameOnlyQuery | client.go:188-201 | a name-only query hits every convertible record whose view has that name |
| Delete.Owner | client.go:167-209 | the first query that hits a record: no earlier query hits it, and the owner hits it unless none does |
| Delete.DeletionOrder | client.go:164-209 | every position in the deletion order is in the listing and owned by some query |
| Delete.OrderIsValid | client.go:178-186 | every record in the deletion order converts |
| Delete.ScanRecord | client.go:173-208 | one listed record: a gone record, an unconvertible PTR, or a non-match is skipped; any other conversion failure or a failed delete stops the scan with that record's error and changes nothing; otherwise the record is deleted and reported |
| Delete.ScanQuery | client.go:173-209 | one query's scan deletes, in listing order, exactly the records it owns, and stops early only at a blocking record, with that record's conversion or delete error |
| Delete.StopError | client.go:112-122 | a scan stopped at a record reports a conversion failure exactly when the record does not convert, and a failed delete of its ID otherwise; the purge and the delete scan share it |
| Delete.ScanStop | client.go:173-209 | a query's scan stops at the first record no earlier query took that does not convert (PTR excepted) or that the query hits but cannot delete, or at the end; no record before it blocks |
| Delete.ScanStopIs | client.go:173-209 | any position before which no record blocks and at which one does, or the end, is the scan's stop |
| Delete.HaltQuery | client.go:167-209 | a delete call halts at the first query whose name is empty or whose scan is blocked, or nowhere; no query before it halts |
| Delete.HaltQueryIs | client.go:167-209 | any query before which none halts and which halts, or the end, is the halting query |
| Delete.DonePositions | client.go:160-209 | the positions removed when the call returns are a prefix of the deletion order, all of it when nothing halts, and all of them convert |
| Delete.NoHaltIffSucceeds | client.go:160-212 | with a working listing, the call halts nowhere exactly when every query is named, every scanned record is passable and every hit record can be deleted |
| Delete.QueryStep | client.go:167-209 | an empty query name stops the call with no records; otherwise the query's scan extends the deletion order by its positions |
| Delete.DeleteLoop | client.go:156-213 | succeeds exactly when the listing works, every query is named, the scanned records are passable, and every hit record can be deleted; on success the deletion order's records are deleted and reported; in every case the error is that of the halt (listing failure, missing name, or the blocking record's error), the records of DonePositions are deleted, and they are reported unless a name was missing |
| Delete.DeleteDomainRecords | client.go:156-213 | the deletion loop with the provider's translation and each query's RR() view, with the same exact error, deletions and reported records |
| Delete.DeletedIffSomeQueryHits | client.go:167-209 | a listed record is deleted exactly when it converts and some query matches its view |
| Delete.OrderedByQueryThenListing | client.go:164-209 | the deletion order goes query by query, in listing order within a query; no record is deleted twice |
| Reconcile.Pairs | client.go:94-100 | the table has an entry exactly for the names in the input, and each entry holds a single type |
| Reconcile.LastTypeWins | client.go:98-99 | a name's entry holds exactly the type of its last input |
| Reconcile.BuildPairs | client.go:94-100 | the table loop computes exactly the reference table `Pairs` of the input views |
| Reconcile.DoomedOnlyFromInput | client.go:116-117 | a (Name, Type) pair not in the input is never replaced |
| Reconcile.UniformDoomed | client.go:54-55 | when inputs sharing a name share a type, a pair is replaced exactly when it occurs in the input |
| Reconcile.CondemnedIdsAre | client.go:110-124 | an ID is condemned exactly when a condemned listed record carries it |
| Reconcile.Purge | client.go:110-124 | each listed record in order is deleted exactly when condemned; any conversion failure, PTR included, or a failed delete stops at that record, with the deletions before it kept |
| Reconcile.PurgeStop | client.go:110-124 | the purge stops at the first listed record that does not convert or whose condemned delete fails, or at the end; every record before the stop passes |
| Reconcile.PurgeStopIs | client.go:110-124 | any position before which every record passes and at which one fails, or the end, is the purge's stop |
| Reconcile.ExamineRecord | client.go:111-124 | one listed record: it fails exactly when the record does not convert or its condemned delete fails, with that error and the zone unchanged; otherwise the zone loses the record exactly when it is condemned |
| Reconcile.PurgeStep | client.go:116-121 | one more examined record keeps the zone equal to the listing without the IDs condemned so far |
| Reconcile.CreateAll | client.go:127-135 | creates in order and stops at the first failure with nothing reported, keeping what was stored, the failing call's record included |
| Reconcile.FirstFailure | client.go:127-133 | the create loop stops at the first creation that fails, or after the last; every creation before it succeeds |
| Reconcile.FirstFailureIs | client.go:127-133 | any position before which every creation succeeds and at which one fails, or the end, is the create loop's stop |
| Reconcile.PurgeThenCreate | client.go:109-135 | succeeds exactly when every listed record passes the purge and every creation succeeds, with one result per input; in every case the zone is the listing without the records condemned before the purge's stop, followed, only when the purge finished, by what the creations stored up to and including the first failed one; the error is the purge's, else the first failed creation's |
| Reconcile.CreateOrUpdateDomainRecords | client.go:53-136 | a failed listing changes nothing; success exactly when the listing, purge and every creation succeed, with one result per input in order; after a working listing, zone and error are those of the two phases stopping where they first fail; a failure returns no records |
| Reconcile.PurgedIffCondemned | client.go:116-121 | with unique IDs, a listed record is gone after the purge exactly when it is condemned |
| Provider.GetRecords | provider.go:61-74 | succeeds exactly when the zone resolves, the listing works, and every record converts; one record per stored record |
| Provider.AppendRecords | provider.go:77-100 | once the zone resolves it never fails; every input is attempted, what was stored stays stored, and only successful creations are reported |
| Provider.CreateEach | provider.go:86-98 | the append loop stores and reports the creations' results, in order, skipping failures |
| Provider.SetRecords | provider.go:104-117 | a failed lookup changes nothing; success exactly when the listing, purge and every creation succeed; once the zone resolves and the listing works, zone and error are those of the two phases stopping where they first fail; failure returns no records |
| Provider.DeleteRecords | provider.go:124-137 | a failed lookup changes nothing; success exactly when the deletion loop succeeds; once the zone resolves, the error is the deletion loop's halt error and the records of DonePositions stay deleted, though a failure returns no records |
| Provider.EchoConvertsFor | client.go:143-147 | every typed record with a parsable address converts back from its stored copy |
| Provider.IdIrrelevant | client.go:143-147 | the provider-assigned ID plays no part in reading a stored copy back |
| Provider.FaithfulRestores | client.go:138-148 | with a provider that stores what it is sent, a restorable input is stored and its create call returns the input itself |
| Provider.FaithfulCreation | client.go:138-148 | with a provider that stores what it is sent, a creation is reported exactly for inputs other than ServiceBinding whose stored copy converts back |
| Provider.ReadBack | provider.go:86-98 | reference read-back of a run against such a provider: at most one record per input that is not a ServiceBinding |
| Provider.ReadBackAll | provider.go:86-98 | when every stored copy converts back, the reference read-back has exactly one record per input that is not a ServiceBinding |
| Provider.AppendDropsOnlyServiceBindings | provider.go:86-98 | with such a provider, append reports exactly the reference read-back, in input order; when every stored copy converts back, that is one record per input other than the ServiceBinding ones |
| Provider.AppendedNeverServiceBinding | provider.go:86-98 | no appended record is a ServiceBinding |
| Scenarios.DeleteExactAndWildcards | provider_integration_test.go:259-323 | an exact query, a name-only query, and two type-only queries delete a1, both dup records, txt1 and the apex MX, in that order, and leave a2, the apex TXT and a PTR record; the PTR record is added to the test's zone here, to show the scan passing over it |
| Scenarios.AppendSkipsServiceBinding | provider_integration_test.go:368-390 | appending the test's seven records to a provider that stores what it is sent reports six; the ServiceBinding stores nothing and fails as unsupported |
| Scenarios.CreatedButNotReported | provider.go:86-97 | a record the provider stored can still be missing from the append result, when its stored copy does not convert |
| Scenarios.SetExample1 | provider_integration_test.go:424-447 | setting one apex A record condemns both apex A records and keeps the apex TXT; against a provider that lists, deletes and stores as asked, every listed record passes the purge and the input is created and read back as itself |
| Scenarios.RunSetExample1 | provider_integration_test.go:424-467 | against such a provider, Set returns the one input record, and GetRecords then returns two records: the apex TXT and the new A |
| Scenarios.SetExample2 | provider_integration_test.go:470-508 | setting three alpha AAAA records condemns the two old alpha records and keeps both beta records; against such a provider every listed record passes the purge and the three inputs are stored in order and read back as themselves |
| Scenarios.RunSetExample2 | provider_integration_test.go:470-535 | against such a provider, Set returns the three input records, and GetRecords then returns five records: both beta records and the three alpha inputs |
| Scenarios.NamelessHalt | client.go:167-171 | an exact query followed by a nameless one halts at the second query as name-required, with the first record removed |
| Scenarios.RunNamelessQuery | client.go:167-171 | that call fails as name-required, returns no records, and leaves only the second record in the zone |
| Scenarios.RefusedHalt | client.go:203-206 | a name-only query against a provider refusing the second record's delete halts there with that delete's error, after removing the first |
| Scenarios.RunRefusedDelete | client.go:203-206 | that call fails with the refused delete, returns the first record, and leaves only the second record in the zone |
| Scenarios.MixedTypesKeepOldRecords | client.go:94-100 | an apex A input followed by an apex TXT input leaves the existing apex A record in place, though (@, A) is in the input |

## Left out

- Transport, authentication, pagination and the Linode client library sit
  behind the `Oracle`. Their failures are one condition per call (list,
  delete, create).
- Provider initialisation (`init`), the mutex that serialises the
  operations, and `ListZones` are not modelled. They manage the session and
  concurrency, not records.
- The domain filter sent by `getDomainIDByZone` (client.go:17-24) is left out;
  the lookup is modelled from the domain list it returns.
- libdns internals get small stand-ins whose only job is to supply the
  facts the provider relies on:
  - `netip.ParseAddr` is a character-class check that keeps the text as written.
  - `RR()` data flattening writes decimal text.
  - `RelativeName` trims dots and the zone suffix.
  - `RR()` builds an SRV owner name as `_service._transport.name`, or
    `_service._transport` at the apex, and gives ServiceBinding the type
    HTTPS for the https scheme and SVCB otherwise. Delete matches and Set
    pairs these views, so other spellings in the library would change
    which records they touch.
- Error message text and `%w` wrapping are dropped, except that a listed
  record that does not convert is reported as `ConvertFailed` around its
  cause.
- The diagnostic printing of skipped records in AppendRecords is out of
  scope. It is output, not state.
- Integer widths: the provider's `int` fields and the TTL arithmetic
  `time.Duration(ttl) * time.Second` are unbounded here. Go's 64-bit
  overflow on huge TTLs is not modelled. The 16-bit narrowing of priority,
  weight and port is modelled.
- Float TTL conversion: `rr.TTL.Seconds()` followed by `int(...)` is modelled as
  exact integer division truncating toward zero (`Convert.TruncSeconds`).
  Float rounding of very large durations is not modelled.
- The integration tests' remaining checks run against a live account and
  are not modelled: GetRecords after the delete and append tests, ListZones,
  and the canonical text of addresses.
- Scenarios.AppendSkipsServiceBinding: states how many records are reported
  and how the ServiceBinding fails, not that each reported record equals its
  input. Addresses are kept as written text, so the live test's comparison
  of canonical values has no counterpart here.
