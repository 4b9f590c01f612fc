/** Fixed scenarios of the provider's integration tests, stated over the
    model: the deletion of exact and wildcard queries, appending seven
    records of which one is unsupported, and the two SetRecords examples of
    the libdns interface; plus the two situations the code produces that
    its callers may not expect. */
module Scenarios {
  import opened Wrappers
  import opened Errors
  import opened Libdns
  import opened Linode
  import opened Convert
  import opened Collaborators
  import opened Client
  import opened Delete
  import opened Reconcile
  import opened Provider

  /** A stored record of one of the kinds whose value is its target. */
  function Stored(id: int, rtype: string, name: string, target: string, ttlSec: int): DomainRecord {
    DomainRecord(id, rtype, name, target, ttlSec, 0, 0, 0, None, None, None)
  }

  /** Every delete call succeeds. */
  const Permissive: Oracle := Oracle(true, _ => true, (_, _) => None)

  /** Part of the test zone: two distinct A names, two A records sharing a
      name, a TXT name, the apex TXT and MX. The PTR record is not in the
      test's zone; it is added here because the scan must pass over it. */
  const DeleteListing: Zone := [
    Stored(1, TypeA, "a1", "192.0.2.1", 300),
    Stored(2, TypeA, "a2", "192.0.2.2", 300),
    Stored(3, TypeA, "dup", "192.0.2.10", 300),
    Stored(4, TypeA, "dup", "192.0.2.11", 300),
    Stored(5, TypeTXT, "txt1", "hello-libdns", 300),
    Stored(6, TypeTXT, "", "root-text", 300),
    DomainRecord(7, TypeMX, "", "mail.example", 300, 10, 0, 0, None, None, None),
    Stored(8, TypePTR, "ptr", "host.example", 300)]

  /** An exact query, a name-only query, a query leaving TTL and data
      open, and an apex query leaving TTL and data open. */
  const DeleteQueries: seq<Record> := [
    Raw("a1", TypeA, 300 * Second, "192.0.2.1"),
    Raw("dup", "", 0, ""),
    Raw("txt1", TypeTXT, 0, ""),
    Raw("@", TypeMX, 0, "")]

  /** The query views: an exact view, and views leaving fields at zero. */
  const QueryViews: seq<RR> := [
    RR("a1", TypeA, 300 * Second, "192.0.2.1"),
    RR("dup", "", 0, ""),
    RR("txt1", TypeTXT, 0, ""),
    RR("@", TypeMX, 0, "")]

  lemma QueryViewsAre()
    ensures RRs(DeleteQueries) == QueryViews
  {
  }

  /** Which query first hits each listed record: the first, none, the
      second twice, the third, none, the fourth, none. */
  const DeleteOwners: seq<nat> := [0, 4, 1, 1, 2, 4, 3, 4]

  /** The first hitting query is the one the hits say it is. */
  lemma OwnerIs(queries: seq<RR>, d: DomainRecord, o: nat)
    requires o <= |queries|
    requires forall p :: 0 <= p < o ==> !Hits(Translation, queries[p], d)
    requires o < |queries| ==> Hits(Translation, queries[o], d)
    ensures Owner(Translation, queries, d) == o
  {
  }

  /** The listed record at j converts to a record with this view. */
  predicate ViewsAs(j: nat, v: RR)
    requires j < |DeleteListing|
  {
    ConvertToLibdns(DeleteListing[j]).Success? && ConvertToLibdns(DeleteListing[j]).value.AsRR() == v
  }

  lemma OwnerOfA1()
    ensures Owner(Translation, QueryViews, DeleteListing[0]) == 0
  {
    assert ViewsAs(0, QueryViews[0]);
    OwnerIs(QueryViews, DeleteListing[0], 0);
  }

  lemma OwnerOfA2()
    ensures Owner(Translation, QueryViews, DeleteListing[1]) == 4
  {
    assert ViewsAs(1, RR("a2", TypeA, 300 * Second, "192.0.2.2"));
    OwnerIs(QueryViews, DeleteListing[1], 4);
  }

  lemma OwnerOfDup2()
    ensures Owner(Translation, QueryViews, DeleteListing[2]) == 1
  {
    assert ViewsAs(2, RR("dup", TypeA, 300 * Second, "192.0.2.10"));
    OwnerIs(QueryViews, DeleteListing[2], 1);
  }

  lemma OwnerOfDup3()
    ensures Owner(Translation, QueryViews, DeleteListing[3]) == 1
  {
    assert ViewsAs(3, RR("dup", TypeA, 300 * Second, "192.0.2.11"));
    OwnerIs(QueryViews, DeleteListing[3], 1);
  }

  lemma OwnerOfTxt1()
    ensures Owner(Translation, QueryViews, DeleteListing[4]) == 2
  {
    assert ViewsAs(4, RR("txt1", TypeTXT, 300 * Second, "hello-libdns"));
    OwnerIs(QueryViews, DeleteListing[4], 2);
  }

  lemma OwnerOfApexTxt()
    ensures Owner(Translation, QueryViews, DeleteListing[5]) == 4
  {
    assert ViewsAs(5, RR("@", TypeTXT, 300 * Second, "root-text"));
    OwnerIs(QueryViews, DeleteListing[5], 4);
  }

  lemma OwnerOfApexMx()
    ensures Owner(Translation, QueryViews, DeleteListing[6]) == 3
  {
    var v := ConvertToLibdns(DeleteListing[6]).value.AsRR();
    assert v.name == "@" && v.rtype == TypeMX;
    OwnerIs(QueryViews, DeleteListing[6], 3);
  }

  lemma OwnerOfPtr()
    ensures Owner(Translation, QueryViews, DeleteListing[7]) == 4
  {
    assert ConvertToLibdns(DeleteListing[7]).Failure?;
    OwnerIs(QueryViews, DeleteListing[7], 4);
  }

  lemma DeleteOwnersAre()
    ensures Owners(Translation, QueryViews, DeleteListing) == DeleteOwners
  {
    var owners := Owners(Translation, QueryViews, DeleteListing);
    forall j | 0 <= j < |DeleteListing|
      ensures owners[j] == DeleteOwners[j]
    {
      OwnersAt(Translation, QueryViews, DeleteListing, j);
      if j == 0 {
        OwnerOfA1();
      } else if j == 1 {
        OwnerOfA2();
      } else if j == 2 {
        OwnerOfDup2();
      } else if j == 3 {
        OwnerOfDup3();
      } else if j == 4 {
        OwnerOfTxt1();
      } else if j == 5 {
        OwnerOfApexTxt();
      } else if j == 6 {
        OwnerOfApexMx();
      } else {
        OwnerOfPtr();
      }
    }
  }

  lemma HitsOfQuery0()
    ensures HitPositions(DeleteOwners, 0, 8) == [0]
  {
    assert HitPositions(DeleteOwners, 0, 1) == [0];
    assert HitPositions(DeleteOwners, 0, 2) == [0];
    assert HitPositions(DeleteOwners, 0, 3) == [0];
    assert HitPositions(DeleteOwners, 0, 4) == [0];
    assert HitPositions(DeleteOwners, 0, 5) == [0];
    assert HitPositions(DeleteOwners, 0, 6) == [0];
    assert HitPositions(DeleteOwners, 0, 7) == [0];
  }

  lemma HitsOfQuery1()
    ensures HitPositions(DeleteOwners, 1, 8) == [2, 3]
  {
    assert HitPositions(DeleteOwners, 1, 1) == [];
    assert HitPositions(DeleteOwners, 1, 2) == [];
    assert HitPositions(DeleteOwners, 1, 3) == [2];
    assert HitPositions(DeleteOwners, 1, 4) == [2, 3];
    assert HitPositions(DeleteOwners, 1, 5) == [2, 3];
    assert HitPositions(DeleteOwners, 1, 6) == [2, 3];
    assert HitPositions(DeleteOwners, 1, 7) == [2, 3];
  }

  lemma HitsOfQuery2()
    ensures HitPositions(DeleteOwners, 2, 8) == [4]
  {
    assert HitPositions(DeleteOwners, 2, 1) == [];
    assert HitPositions(DeleteOwners, 2, 2) == [];
    assert HitPositions(DeleteOwners, 2, 3) == [];
    assert HitPositions(DeleteOwners, 2, 4) == [];
    assert HitPositions(DeleteOwners, 2, 5) == [4];
    assert HitPositions(DeleteOwners, 2, 6) == [4];
    assert HitPositions(DeleteOwners, 2, 7) == [4];
  }

  lemma HitsOfQuery3()
    ensures HitPositions(DeleteOwners, 3, 8) == [6]
  {
    assert HitPositions(DeleteOwners, 3, 1) == [];
    assert HitPositions(DeleteOwners, 3, 2) == [];
    assert HitPositions(DeleteOwners, 3, 3) == [];
    assert HitPositions(DeleteOwners, 3, 4) == [];
    assert HitPositions(DeleteOwners, 3, 5) == [];
    assert HitPositions(DeleteOwners, 3, 6) == [];
    assert HitPositions(DeleteOwners, 3, 7) == [6];
  }

  lemma DeleteOrderIs()
    ensures OrderOf(DeleteOwners, 4) == [0, 2, 3, 4, 6]
  {
    HitsOfQuery0();
    HitsOfQuery1();
    HitsOfQuery2();
    HitsOfQuery3();
    assert OrderOf(DeleteOwners, 1) == [0];
    assert OrderOf(DeleteOwners, 2) == [0, 2, 3];
    assert OrderOf(DeleteOwners, 3) == [0, 2, 3, 4];
  }

  lemma ListingPassable(j: nat)
    requires j < |DeleteListing|
    ensures Passable(Translation, DeleteListing[j])
  {
    if j < 7 {
      assert IsSwitchedType(DeleteListing[j].rtype);
      assert IsIPLiteral(DeleteListing[j].target) || !IsAddressType(DeleteListing[j].rtype);
    }
  }

  lemma DeleteLeaves()
    ensures Without(DeleteListing, {1, 3, 4, 5, 7}) == [DeleteListing[1], DeleteListing[5], DeleteListing[7]]
  {
    forall m | 1 <= m <= 8
      ensures DeleteListing[..m][..m - 1] == DeleteListing[..m - 1]
    {
    }
    assert Without(DeleteListing[..1], {1, 3, 4, 5, 7}) == [];
    assert Without(DeleteListing[..2], {1, 3, 4, 5, 7}) == [DeleteListing[1]];
    assert Without(DeleteListing[..3], {1, 3, 4, 5, 7}) == [DeleteListing[1]];
    assert Without(DeleteListing[..4], {1, 3, 4, 5, 7}) == [DeleteListing[1]];
    assert Without(DeleteListing[..5], {1, 3, 4, 5, 7}) == [DeleteListing[1]];
    assert Without(DeleteListing[..6], {1, 3, 4, 5, 7}) == [DeleteListing[1], DeleteListing[5]];
    assert Without(DeleteListing[..7], {1, 3, 4, 5, 7}) == [DeleteListing[1], DeleteListing[5]];
    assert DeleteListing[..8] == DeleteListing;
  }

  /** provider_integration_test.go:260-323: the queries take a1, both dup
      records, txt1 and the apex MX, in that order; a2, the apex TXT and the
      PTR record stay, and the call succeeds. */
  lemma DeleteExactAndWildcards()
    ensures DeleteSucceeds(Translation, DeleteListing, RRs(DeleteQueries), Permissive)
    ensures DeletionOrder(Translation, RRs(DeleteQueries), DeleteListing) == [0, 2, 3, 4, 6]
    ensures Without(DeleteListing, IdsAt(DeleteListing, [0, 2, 3, 4, 6])) == [DeleteListing[1], DeleteListing[5], DeleteListing[7]]
  {
    QueryViewsAre();
    DeleteOwnersAre();
    DeleteOrderIs();
    DeleteSucceedsHere();
    DeletedIds();
    DeleteLeaves();
  }

  lemma DeleteSucceedsHere()
    ensures DeleteSucceeds(Translation, DeleteListing, QueryViews, Permissive)
  {
    forall j | 0 <= j < |DeleteListing|
      ensures Passable(Translation, DeleteListing[j])
    {
      ListingPassable(j);
    }
    forall p | 0 <= p < |QueryViews|
      ensures |QueryViews[p].name| > 0
    {
    }
  }

  lemma DeletedIds()
    ensures IdsAt(DeleteListing, [0, 2, 3, 4, 6]) == {1, 3, 4, 5, 7}
  {
    var order := [0, 2, 3, 4, 6];
    assert order[..1] == [0] && order[..2] == [0, 2] && order[..3] == [0, 2, 3] && order[..4] == [0, 2, 3, 4];
    assert [0, 2, 3, 4][..3] == [0, 2, 3] && [0, 2, 3][..2] == [0, 2] && [0, 2][..1] == [0];
    assert IdsAt(DeleteListing, [0]) == {1};
    assert IdsAt(DeleteListing, [0, 2]) == {1, 3};
    assert IdsAt(DeleteListing, [0, 2, 3]) == {1, 3, 4};
    assert IdsAt(DeleteListing, [0, 2, 3, 4]) == {1, 3, 4, 5};
  }

  /** Two TXT records sharing a name, for delete calls that halt part way. */
  const HaltListing: Zone := [
    Stored(1, TypeTXT, "t", "one", 300),
    Stored(2, TypeTXT, "t", "two", 300)]

  lemma HaltListingReads()
    ensures ConvertToLibdns(HaltListing[0]) == Success(TXT("t", 300 * Second, "one"))
    ensures ConvertToLibdns(HaltListing[1]) == Success(TXT("t", 300 * Second, "two"))
  {
  }

  /** Deleting ID 1 from the halt listing leaves the second record. */
  lemma HaltListingLeaves()
    ensures IdsAt(HaltListing, [0]) == {1}
    ensures Without(HaltListing, {1}) == [HaltListing[1]]
  {
    assert [0][..0] == [];
    assert HaltListing[..1][..0] == [];
    assert HaltListing[..2][..1] == HaltListing[..1] && HaltListing[..2] == HaltListing;
  }

  /** An exact query for the first record, then a query without a name. */
  const NamelessQueries: seq<Record> := [Raw("t", TypeTXT, 0, "one"), Raw("", "", 0, "")]

  /** The first query owns the first record and nothing owns the second. */
  lemma NamelessOwners()
    ensures Owners(Translation, RRs(NamelessQueries), HaltListing) == [0, 2]
  {
    HaltListingReads();
    var views := RRs(NamelessQueries);
    assert views == [RR("t", TypeTXT, 0, "one"), RR("", "", 0, "")];
    OwnerIs(views, HaltListing[0], 0);
    OwnerIs(views, HaltListing[1], 2);
    OwnersAt(Translation, views, HaltListing, 0);
    OwnersAt(Translation, views, HaltListing, 1);
  }

  /** client.go:167-171: the first query's scan completes, and the call
      halts at the nameless second query with the first record deleted. */
  lemma NamelessHalt()
    ensures DeleteError(Translation, RRs(NamelessQueries), HaltListing, Permissive) == Some(NameRequired)
    ensures DonePositions(Translation, RRs(NamelessQueries), HaltListing, Permissive) == [0]
  {
    HaltListingReads();
    NamelessOwners();
    var views := RRs(NamelessQueries);
    var owners := Owners(Translation, views, HaltListing);
    ScanStopIs(Translation, HaltListing, Permissive, owners, 0, 2);
    HaltQueryIs(Translation, views, HaltListing, Permissive, 1);
    assert HitPositions(owners, 0, 1) == [0];
    assert HitPositions(owners, 0, 2) == [0];
    assert OrderOf(owners, 1) == [0];
  }

  /** deleteDomainRecords with a nameless second query: the call fails as
      name-required and returns no records, but the first query's deletion
      stays done. */
  method RunNamelessQuery() returns (zone': Zone, deleted: seq<Record>, err: Option<Error>)
    ensures err == Some(NameRequired) && deleted == [] && zone' == [HaltListing[1]]
  {
    NamelessHalt();
    HaltListingLeaves();
    zone', deleted, err := DeleteDomainRecords(HaltListing, NamelessQueries, Permissive);
  }

  /** A provider that refuses to delete ID 2. */
  const RefusesTwo: Oracle := Oracle(true, id => id != 2, (_, _) => None)

  /** A name-only query, which hits both records. */
  const NameOnlyQueries: seq<Record> := [Raw("t", "", 0, "")]

  lemma NameOnlyOwners()
    ensures Owners(Translation, RRs(NameOnlyQueries), HaltListing) == [0, 0]
  {
    HaltListingReads();
    var views := RRs(NameOnlyQueries);
    assert views == [RR("t", "", 0, "")];
    OwnerIs(views, HaltListing[0], 0);
    OwnerIs(views, HaltListing[1], 0);
    OwnersAt(Translation, views, HaltListing, 0);
    OwnersAt(Translation, views, HaltListing, 1);
  }

  /** client.go:204-206: the scan deletes the first record and halts at
      the refused delete of the second. */
  lemma RefusedHalt()
    ensures DeleteError(Translation, RRs(NameOnlyQueries), HaltListing, RefusesTwo) == Some(DeleteFailed(2))
    ensures DonePositions(Translation, RRs(NameOnlyQueries), HaltListing, RefusesTwo) == [0]
  {
    HaltListingReads();
    NameOnlyOwners();
    var views := RRs(NameOnlyQueries);
    var owners := Owners(Translation, views, HaltListing);
    ScanStopIs(Translation, HaltListing, RefusesTwo, owners, 0, 1);
    HaltQueryIs(Translation, views, HaltListing, RefusesTwo, 0);
    assert HitPositions(owners, 0, 1) == [0];
  }

  /** deleteDomainRecords against a provider refusing ID 2: the call fails
      with that delete's error, returning the record it did delete, which
      stays deleted. */
  method RunRefusedDelete() returns (zone': Zone, deleted: seq<Record>, err: Option<Error>)
    ensures err == Some(DeleteFailed(2)) && deleted == [TXT("t", 300 * Second, "one")] && zone' == [HaltListing[1]]
  {
    RefusedHalt();
    HaltListingLeaves();
    zone', deleted, err := DeleteDomainRecords(HaltListing, NameOnlyQueries, RefusesTwo);
    assert [0][..0] == [];
  }

  /** The zone of the integration tests. */
  const TestZone: string := "libdns-test.example"

  /** The seven records of provider_integration_test.go:368-379. */
  const AppendInput: seq<Record> := [
    Address("newa", 120 * Second, Addr("192.0.2.200")),
    Address("newaaaa", 300 * Second, Addr("2001:db8::200")),
    TXT("addtxt", 120 * Second, "hello-append"),
    CNAME("alias", 300 * Second, "a1.libdns-test.example"),
    MX("@", 300 * Second, 5, "mx.libdns-test.example"),
    SRV("ldap", "tcp", "_ldap._tcp", 300 * Second, 10, 20, 389, "ldap.libdns-test.example"),
    ServiceBinding("https", "@", 60 * Second, 1, "svc.libdns-test.example")]

  /** provider_integration_test.go:380-390: against a provider that stores
      what it is sent, appending the seven records reports six; the
      ServiceBinding record is neither created nor reported. */
  lemma AppendSkipsServiceBinding(oracle: Oracle)
    requires Faithful(oracle)
    ensures |Reported(Creations(AppendInput, TestZone, oracle))| == 6
    ensures Creations(AppendInput, TestZone, oracle)[6] == Creation(None, Failure(UnsupportedType))
  {
    AppendInputEchoes();
    AppendInputBindings();
    AppendDropsOnlyServiceBindings(AppendInput, TestZone, oracle);
  }

  lemma AppendInputEchoes()
    ensures forall k :: 0 <= k < |AppendInput| ==> EchoConverts(AppendInput[k], TestZone)
  {
    forall k | 0 <= k < |AppendInput|
      ensures EchoConverts(AppendInput[k], TestZone)
    {
      if k == 0 {
        assert IsIPLiteral("192.0.2.200");
      } else if k == 1 {
        assert IsIPLiteral("2001:db8::200");
      }
      EchoConvertsFor(AppendInput[k], TestZone);
    }
  }

  lemma AppendInputBindings()
    ensures ServiceBindings(AppendInput) == 1
  {
    forall m | 1 <= m <= 7
      ensures AppendInput[..m][..m - 1] == AppendInput[..m - 1]
    {
    }
    assert ServiceBindings(AppendInput[..1]) == 0;
    assert ServiceBindings(AppendInput[..2]) == 0;
    assert ServiceBindings(AppendInput[..3]) == 0;
    assert ServiceBindings(AppendInput[..4]) == 0;
    assert ServiceBindings(AppendInput[..5]) == 0;
    assert ServiceBindings(AppendInput[..6]) == 0;
    assert ServiceBindings(AppendInput[..7]) == 1;
    assert AppendInput[..7] == AppendInput;
  }

  /** A provider that answers a CAA create with a stored record whose tag is
      missing. */
  const TaglessEcho: Oracle := Oracle(true, _ => true, (_, o: CreateOptions) => Some(EchoOf(o, 42).(tag := None)))

  /** A record can be created yet be missing from AppendRecords' result:
      here the provider stores the CAA record but its reply does not
      convert. */
  lemma CreatedButNotReported()
    ensures var cs := Creations([CAA("@", 300 * Second, 0, "issue", "letsencrypt.org")], TestZone, TaglessEcho);
            |StoredBy(cs)| == 1 && Reported(cs) == []
  {
    var cs := Creations([CAA("@", 300 * Second, 0, "issue", "letsencrypt.org")], TestZone, TaglessEcho);
    assert cs[..0] == [];
  }

  /** libdns Example 1: two apex A records and an apex TXT. */
  const Example1Listing: Zone := [
    Stored(1, TypeA, "", "192.0.2.1", 300),
    Stored(2, TypeA, "", "192.0.2.2", 300),
    Stored(3, TypeTXT, "", "root-text", 300)]

  const Example1Input: seq<Record> := [Address("@", 3600 * Second, Addr("192.0.2.3"))]

  lemma Example1Table()
    ensures Pairs(RRs(Example1Input)) == map["@" := {TypeA}]
  {
    assert RRs(Example1Input)[0] == RR("@", TypeA, 3600 * Second, "192.0.2.3");
  }

  lemma Example1Marks()
    ensures forall j :: 0 <= j < 3 ==> (Condemned(Translation, map["@" := {TypeA}], Example1Listing[j]) <==> j < 2)
  {
    var t := map["@" := {TypeA}];
    forall j | 0 <= j < 3
      ensures Condemned(Translation, t, Example1Listing[j]) <==> j < 2
    {
      var v := ConvertToLibdns(Example1Listing[j]).value.AsRR();
      assert ConvertToLibdns(Example1Listing[j]).Success? && v.name == "@";
      if j < 2 {
        assert v.rtype == TypeA;
      } else {
        assert v.rtype == TypeTXT;
      }
    }
  }

  lemma Example1Condemned()
    ensures CondemnedIds(Translation, map["@" := {TypeA}], Example1Listing) == {1, 2}
  {
    var t := map["@" := {TypeA}];
    Example1Marks();
    assert Example1Listing[..2][..1] == Example1Listing[..1];
    assert Example1Listing[..3][..2] == Example1Listing[..2];
    assert CondemnedIds(Translation, t, Example1Listing[..1]) == {1};
    assert CondemnedIds(Translation, t, Example1Listing[..2]) == {1, 2};
    assert Example1Listing[..3] == Example1Listing;
  }

  lemma Example1Leaves()
    ensures Without(Example1Listing, {1, 2}) == [Example1Listing[2]]
  {
    assert Example1Listing[..2][..1] == Example1Listing[..1];
    assert Without(Example1Listing[..1], {1, 2}) == [];
    assert Without(Example1Listing[..2], {1, 2}) == [];
    assert Example1Listing[..3] == Example1Listing;
  }

  /** Records that each report a creation which returned the matching input
      are those inputs. */
  lemma RecordsAre(records: seq<Record>, cs: seq<Creation>, input: seq<Record>)
    requires |records| == |input| && |cs| == |input|
    requires forall k :: 0 <= k < |input| ==> Success(records[k]) == cs[k].result
    requires forall k :: 0 <= k < |input| ==> cs[k].result == Success(input[k])
    ensures records == input
  {
  }

  /** A provider that lists successfully, deletes every record asked for,
      and stores every create request as given. */
  ghost predicate Obliging(oracle: Oracle) {
    Faithful(oracle) && oracle.listOk && forall id :: oracle.deleteOk(id)
  }

  /** Every record of the Example 1 zone converts; the apex TXT reads back
      as the test created it. */
  lemma Example1Readable()
    ensures forall j :: 0 <= j < |Example1Listing| ==> ConvertToLibdns(Example1Listing[j]).Success?
    ensures ConvertToLibdns(Example1Listing[2]) == Success(TXT("@", 300 * Second, "root-text"))
  {
    assert IsIPLiteral(Example1Listing[0].target);
    assert IsIPLiteral(Example1Listing[1].target);
  }

  /** A name without dots is already relative to the test zone. */
  lemma ApexIsRelative()
    ensures RelativeName("@", TestZone) == "@"
  {
    assert TrimSuffix("@", ".") == "@";
    assert TrimSuffix("@", "." + TestZone) == "@";
  }

  lemma Example1Address()
    ensures IsIPLiteral("192.0.2.3")
  {
  }

  lemma Example1Restorable()
    ensures Restorable(Example1Input[0], TestZone)
  {
    ApexIsRelative();
    Example1Address();
    assert Example1Input[0] == Address("@", 3600 * Second, Addr("192.0.2.3"));
  }

  /** Against a provider that stores what it is sent, Example 1's one input
      is created, stored, and read back as itself. */
  lemma Example1Creates(oracle: Oracle)
    requires Faithful(oracle)
    ensures var cs := Creations(Example1Input, TestZone, oracle);
            && cs[0].result == Success(Example1Input[0])
            && cs[0].stored.Some?
            && StoredBy(cs) == [cs[0].stored.value]
            && ConvertToLibdns(cs[0].stored.value) == Success(Example1Input[0])
  {
    Example1Restorable();
    FaithfulRestores(Example1Input, TestZone, oracle, 0);
    var cs := Creations(Example1Input, TestZone, oracle);
    assert cs[..0] == [];
  }

  /** provider_integration_test.go:432-467 (libdns Example 1): setting one
      apex A record condemns both apex A records and keeps the apex TXT;
      against an obliging provider every listed record passes the purge and
      the one input is created, stored, and read back as itself. */
  lemma SetExample1(oracle: Oracle)
    requires Obliging(oracle)
    ensures Without(Example1Listing, CondemnedIds(Translation, Pairs(RRs(Example1Input)), Example1Listing))
         == [Example1Listing[2]]
    ensures forall j :: 0 <= j < |Example1Listing| ==>
              Purgeable(Translation, Pairs(RRs(Example1Input)), oracle, Example1Listing[j])
    ensures var cs := Creations(Example1Input, TestZone, oracle);
            && cs[0].result == Success(Example1Input[0])
            && StoredBy(cs) == [cs[0].stored.value]
            && ConvertToLibdns(cs[0].stored.value) == Success(Example1Input[0])
  {
    Example1Table();
    Example1Condemned();
    Example1Leaves();
    Example1Readable();
    Example1Creates(oracle);
  }

  /** What Example 1's zone reads back as after a successful Set, given
      that the purge kept the apex TXT and the input was stored as st. */
  lemma Example1After(oracle: Oracle, st: DomainRecord, zone': Zone)
    requires oracle.listOk
    requires ConvertToLibdns(st) == Success(Example1Input[0])
    requires zone' == [Example1Listing[2]] + [st]
    ensures ListDomainRecords(zone', oracle) == Success([TXT("@", 300 * Second, "root-text"), Example1Input[0]])
  {
    Example1Readable();
    assert zone' == [Example1Listing[2], st];
    ListingReadsAs(zone', oracle, [TXT("@", 300 * Second, "root-text"), Example1Input[0]]);
  }

  /** Example 1 run through SetRecords and then GetRecords, as the test
      does: Set succeeds and returns the one input record; the zone then
      holds two records, which read back as the apex TXT and the new A. */
  method RunSetExample1(oracle: Oracle, domain: int)
    returns (records: seq<Record>, after: Result<seq<Record>, Error>)
    requires Obliging(oracle)
    ensures records == Example1Input
    ensures after == Success([TXT("@", 300 * Second, "root-text"), Example1Input[0]])
  {
    SetExample1(oracle);
    var zone', err;
    zone', records, err := SetRecords(Success([domain]), Example1Listing, TestZone, Example1Input, oracle);
    assert err.None?;
    var cs := Creations(Example1Input, TestZone, oracle);
    RecordsAre(records, cs, Example1Input);
    Example1After(oracle, cs[0].stored.value, zone');
    after := GetRecords(Success([domain]), zone', oracle);
  }

  /** libdns Example 2: two alpha and two beta AAAA records. */
  const Example2Listing: Zone := [
    Stored(1, TypeAAAA, "alpha", "2001:db8::1", 3600),
    Stored(2, TypeAAAA, "alpha", "2001:db8::2", 3600),
    Stored(3, TypeAAAA, "beta", "2001:db8::3", 3600),
    Stored(4, TypeAAAA, "beta", "2001:db8::4", 3600)]

  const Example2Input: seq<Record> := [
    Address("alpha", 3600 * Second, Addr("2001:db8::1")),
    Address("alpha", 3600 * Second, Addr("2001:db8::2")),
    Address("alpha", 3600 * Second, Addr("2001:db8::5"))]

  lemma Example2Table()
    ensures Pairs(RRs(Example2Input)) == map["alpha" := {TypeAAAA}]
  {
    var views := RRs(Example2Input);
    assert views[0].name == "alpha" && views[0].rtype == TypeAAAA;
    assert views[1].name == "alpha" && views[1].rtype == TypeAAAA;
    assert views[2].name == "alpha" && views[2].rtype == TypeAAAA;
    assert views[..2][..1] == views[..1];
    assert Pairs(views[..1]) == map["alpha" := {TypeAAAA}];
    assert Pairs(views[..2]) == map["alpha" := {TypeAAAA}];
  }

  lemma Example2Marks()
    ensures forall j :: 0 <= j < 4 ==> (Condemned(Translation, map["alpha" := {TypeAAAA}], Example2Listing[j]) <==> j < 2)
  {
    var t := map["alpha" := {TypeAAAA}];
    forall j | 0 <= j < 4
      ensures Condemned(Translation, t, Example2Listing[j]) <==> j < 2
    {
      assert IsIPLiteral(Example2Listing[j].target);
      var v := ConvertToLibdns(Example2Listing[j]).value.AsRR();
      assert v.rtype == TypeAAAA && v.name == Example2Listing[j].name;
    }
  }

  lemma Example2Condemned()
    ensures CondemnedIds(Translation, map["alpha" := {TypeAAAA}], Example2Listing) == {1, 2}
  {
    var t := map["alpha" := {TypeAAAA}];
    Example2Marks();
    assert Example2Listing[..2][..1] == Example2Listing[..1];
    assert Example2Listing[..3][..2] == Example2Listing[..2];
    assert Example2Listing[..4][..3] == Example2Listing[..3];
    assert CondemnedIds(Translation, t, Example2Listing[..1]) == {1};
    assert CondemnedIds(Translation, t, Example2Listing[..2]) == {1, 2};
    assert CondemnedIds(Translation, t, Example2Listing[..3]) == {1, 2};
    assert Example2Listing[..4] == Example2Listing;
  }

  lemma Example2Leaves()
    ensures Without(Example2Listing, {1, 2}) == [Example2Listing[2], Example2Listing[3]]
  {
    assert Example2Listing[..3][..2] == Example2Listing[..2];
    assert Example2Listing[..2][..1] == Example2Listing[..1];
    assert Without(Example2Listing[..1], {1, 2}) == [];
    assert Without(Example2Listing[..2], {1, 2}) == [];
    assert Without(Example2Listing[..3], {1, 2}) == [Example2Listing[2]];
    assert Example2Listing[..4] == Example2Listing;
  }

  /** Every record of the Example 2 zone converts; the beta records read
      back as the test created them. */
  lemma Example2Readable()
    ensures forall j :: 0 <= j < |Example2Listing| ==> ConvertToLibdns(Example2Listing[j]).Success?
    ensures ConvertToLibdns(Example2Listing[2]) == Success(Address("beta", 3600 * Second, Addr("2001:db8::3")))
    ensures ConvertToLibdns(Example2Listing[3]) == Success(Address("beta", 3600 * Second, Addr("2001:db8::4")))
  {
    Example2Addresses();
  }

  lemma Example2Addresses()
    ensures IsIPLiteral("2001:db8::1") && IsIPLiteral("2001:db8::2")
    ensures IsIPLiteral("2001:db8::3") && IsIPLiteral("2001:db8::4")
    ensures IsIPLiteral("2001:db8::5")
  {
  }

  /** A name without dots is already relative to the test zone. */
  lemma AlphaIsRelative()
    ensures RelativeName("alpha", TestZone) == "alpha"
  {
    assert TrimSuffix("alpha", ".") == "alpha";
    assert TrimSuffix("alpha", "." + TestZone) == "alpha";
  }

  lemma Example2Restorable(k: nat)
    requires k < |Example2Input|
    ensures Restorable(Example2Input[k], TestZone)
  {
    AlphaIsRelative();
    Example2Addresses();
  }

  /** Against a provider that stores what it is sent, each Example 2 input
      is created, stored, and read back as itself. */
  lemma Example2Creates(oracle: Oracle)
    requires Faithful(oracle)
    ensures forall k :: 0 <= k < |Example2Input| ==>
              && Creations(Example2Input, TestZone, oracle)[k].result == Success(Example2Input[k])
              && Creations(Example2Input, TestZone, oracle)[k].stored.Some?
              && ConvertToLibdns(Creations(Example2Input, TestZone, oracle)[k].stored.value) == Success(Example2Input[k])
  {
    forall k | 0 <= k < |Example2Input|
      ensures Creations(Example2Input, TestZone, oracle)[k].result == Success(Example2Input[k])
      ensures Creations(Example2Input, TestZone, oracle)[k].stored.Some?
      ensures ConvertToLibdns(Creations(Example2Input, TestZone, oracle)[k].stored.value) == Success(Example2Input[k])
    {
      Example2Restorable(k);
      FaithfulRestores(Example2Input, TestZone, oracle, k);
    }
  }

  /** The three creations store three records, in input order. */
  lemma Example2Stored(cs: seq<Creation>)
    requires |cs| == 3 && cs[0].stored.Some? && cs[1].stored.Some? && cs[2].stored.Some?
    ensures StoredBy(cs) == [cs[0].stored.value, cs[1].stored.value, cs[2].stored.value]
  {
    CreationStep(cs, 0);
    CreationStep(cs, 1);
    CreationStep(cs, 2);
    assert cs[..0] == [] && cs[..3] == cs;
  }

  /** provider_integration_test.go:470-535 (libdns Example 2): setting three
      alpha AAAA records condemns the two existing alpha records and keeps
      both beta records; against an obliging provider every listed record
      passes the purge and each input is created, stored, and read back as
      itself. */
  lemma SetExample2(oracle: Oracle)
    requires Obliging(oracle)
    ensures Without(Example2Listing, CondemnedIds(Translation, Pairs(RRs(Example2Input)), Example2Listing))
         == [Example2Listing[2], Example2Listing[3]]
    ensures forall j :: 0 <= j < |Example2Listing| ==>
              Purgeable(Translation, Pairs(RRs(Example2Input)), oracle, Example2Listing[j])
    ensures forall k :: 0 <= k < |Example2Input| ==>
              && Creations(Example2Input, TestZone, oracle)[k].result == Success(Example2Input[k])
              && ConvertToLibdns(Creations(Example2Input, TestZone, oracle)[k].stored.value) == Success(Example2Input[k])
    ensures var cs := Creations(Example2Input, TestZone, oracle);
            StoredBy(cs) == [cs[0].stored.value, cs[1].stored.value, cs[2].stored.value]
  {
    Example2Table();
    Example2Condemned();
    Example2Leaves();
    Example2Readable();
    Example2Creates(oracle);
    Example2Stored(Creations(Example2Input, TestZone, oracle));
  }

  /** What Example 2's zone reads back as after a successful Set, given
      that the purge kept both beta records and the three inputs es were
      stored as s0, s1 and s2. */
  lemma Example2After(oracle: Oracle, s0: DomainRecord, s1: DomainRecord, s2: DomainRecord,
                      es: seq<Record>, zone': Zone)
    requires oracle.listOk && |es| == 3
    requires ConvertToLibdns(s0) == Success(es[0])
    requires ConvertToLibdns(s1) == Success(es[1])
    requires ConvertToLibdns(s2) == Success(es[2])
    requires zone' == [Example2Listing[2], Example2Listing[3]] + [s0, s1, s2]
    ensures ListDomainRecords(zone', oracle)
         == Success([Address("beta", 3600 * Second, Addr("2001:db8::3")),
                     Address("beta", 3600 * Second, Addr("2001:db8::4"))] + es)
  {
    Example2Readable();
    FiveRead(oracle, zone', Example2Listing[2], Example2Listing[3], s0, s1, s2,
             Address("beta", 3600 * Second, Addr("2001:db8::3")),
             Address("beta", 3600 * Second, Addr("2001:db8::4")), es[0], es[1], es[2]);
    TwoThenThree(Address("beta", 3600 * Second, Addr("2001:db8::3")),
                 Address("beta", 3600 * Second, Addr("2001:db8::4")), es);
  }

  lemma TwoThenThree<T>(a: T, b: T, es: seq<T>)
    requires |es| == 3
    ensures [a, b, es[0], es[1], es[2]] == [a, b] + es
  {
  }

  /** A working listing of five records, each converting to the matching
      record, reads back as those five in order. */
  lemma FiveRead(oracle: Oracle, zone': Zone, d0: DomainRecord, d1: DomainRecord, d2: DomainRecord,
                 d3: DomainRecord, d4: DomainRecord, r0: Record, r1: Record, r2: Record, r3: Record, r4: Record)
    requires oracle.listOk && zone' == [d0, d1] + [d2, d3, d4]
    requires ConvertToLibdns(d0) == Success(r0) && ConvertToLibdns(d1) == Success(r1)
    requires ConvertToLibdns(d2) == Success(r2) && ConvertToLibdns(d3) == Success(r3)
    requires ConvertToLibdns(d4) == Success(r4)
    ensures ListDomainRecords(zone', oracle) == Success([r0, r1, r2, r3, r4])
  {
    assert zone' == [d0, d1, d2, d3, d4];
    ListingReadsAs(zone', oracle, [r0, r1, r2, r3, r4]);
  }

  /** Example 2 run through SetRecords and then GetRecords, as the test
      does: Set succeeds and returns the three input records; the zone then
      holds five records, which read back as the two beta records and the
      three inputs. */
  method RunSetExample2(oracle: Oracle, domain: int)
    returns (records: seq<Record>, after: Result<seq<Record>, Error>)
    requires Obliging(oracle)
    ensures records == Example2Input
    ensures after == Success([Address("beta", 3600 * Second, Addr("2001:db8::3")),
                              Address("beta", 3600 * Second, Addr("2001:db8::4"))] + Example2Input)
  {
    SetExample2(oracle);
    var zone', err;
    zone', records, err := SetRecords(Success([domain]), Example2Listing, TestZone, Example2Input, oracle);
    assert err.None?;
    var cs := Creations(Example2Input, TestZone, oracle);
    RecordsAre(records, cs, Example2Input);
    Example2After(oracle, cs[0].stored.value, cs[1].stored.value, cs[2].stored.value,
                  Example2Input, zone');
    after := GetRecords(Success([domain]), zone', oracle);
  }

  /** The table of client.go:98 in action: an input holding an apex A and
      an apex TXT record keys the apex by TXT only, so the existing apex A
      record survives even though the input sets the (apex, A) pair. */
  lemma MixedTypesKeepOldRecords()
    ensures var listing := [Stored(1, TypeA, "", "192.0.2.1", 300)];
            var input := [Address("@", 300 * Second, Addr("192.0.2.9")), TXT("@", 300 * Second, "v=spf1")];
            && InInput(RRs(input), "@", TypeA)
            && !UniformTypes(RRs(input))
            && Without(listing, CondemnedIds(Translation, Pairs(RRs(input)), listing)) == listing
  {
    var listing := [Stored(1, TypeA, "", "192.0.2.1", 300)];
    var input := [Address("@", 300 * Second, Addr("192.0.2.9")), TXT("@", 300 * Second, "v=spf1")];
    var views := RRs(input);
    assert views[0].name == "@" && views[0].rtype == TypeA;
    var t := Pairs(views);
    assert t == map["@" := {TypeTXT}];
    assert CondemnedIds(Translation, t, listing) == {};
    WithoutNothing(listing);
  }
}
