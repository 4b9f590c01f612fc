/** The helpers of client.go the operations are built from: zone
    resolution, listing with conversion, and creating one record. */
module Client {
  import opened Wrappers
  import opened Errors
  import opened Libdns
  import opened Linode
  import opened Convert
  import opened Collaborators

  /** getDomainIDByZone, given what the filtered domain listing returned:
      exactly one matching domain resolves to its ID. */
  function GetDomainIdByZone(found: Result<seq<int>, Error>): (r: Result<int, Error>)
    ensures r.Success? <==> found.Success? && |found.value| == 1
    ensures r.Success? ==> r.value == found.value[0]
    ensures found.Failure? ==> r == Failure(DomainLookupFailed)
    ensures found.Success? && |found.value| == 0 ==> r == Failure(DomainNotFound)
    ensures found.Success? && |found.value| > 1 ==> r == Failure(DomainAmbiguous(|found.value|))
  {
    match found
    case Failure(_) => Failure(DomainLookupFailed)
    case Success(domains) =>
      if |domains| == 0 then Failure(DomainNotFound)
      else if |domains| > 1 then Failure(DomainAmbiguous(|domains|))
      else Success(domains[0])
  }

  /** Converts every listed record, stopping at the first that fails. */
  function ConvertAll(listing: Zone): (r: Result<seq<Record>, Error>)
    ensures r.Success? <==> forall j :: 0 <= j < |listing| ==> ConvertToLibdns(listing[j]).Success?
    ensures r.Success? ==> |r.value| == |listing|
    ensures r.Success? ==> forall j :: 0 <= j < |listing| ==> ConvertToLibdns(listing[j]) == Success(r.value[j])
    ensures r.Failure? ==> exists j :: 0 <= j < |listing| && ConvertToLibdns(listing[j]) == Failure(r.error)
                                       && forall i :: 0 <= i < j ==> ConvertToLibdns(listing[i]).Success?
  {
    if |listing| == 0 then Success([])
    else
      match ConvertToLibdns(listing[0])
      case Failure(e) => Failure(e)
      case Success(first) =>
        match ConvertAll(listing[1..])
        case Failure(e) =>
          assert forall j :: 1 <= j < |listing| ==> listing[1..][j - 1] == listing[j];
          Failure(e)
        case Success(rest) => Success([first] + rest)
  }

  /** listDomainRecords: all-or-nothing; one generic record per stored
      record, in listing order. */
  function ListDomainRecords(zone: Zone, oracle: Oracle): (r: Result<seq<Record>, Error>)
    ensures r.Success? <==> oracle.listOk && forall j :: 0 <= j < |zone| ==> ConvertToLibdns(zone[j]).Success?
    ensures r.Success? ==> |r.value| == |zone|
                           && forall j :: 0 <= j < |zone| ==> ConvertToLibdns(zone[j]) == Success(r.value[j])
    ensures !oracle.listOk ==> r == Failure(ListFailed)
    ensures oracle.listOk && r.Failure? ==>
              exists j :: 0 <= j < |zone| && ConvertToLibdns(zone[j]).Failure?
                          && r.error == ConvertFailed(ConvertToLibdns(zone[j]).error)
  {
    if !oracle.listOk then Failure(ListFailed)
    else
      match ConvertAll(zone)
      case Failure(e) => Failure(ConvertFailed(e))
      case Success(records) => Success(records)
  }

  /** A listing whose every record converts reads back as exactly those
      conversions. */
  lemma ListingReadsAs(zone: Zone, oracle: Oracle, expected: seq<Record>)
    requires oracle.listOk && |expected| == |zone|
    requires forall j :: 0 <= j < |zone| ==> ConvertToLibdns(zone[j]) == Success(expected[j])
    ensures ListDomainRecords(zone, oracle) == Success(expected)
  {
    var r := ListDomainRecords(zone, oracle);
    assert r.Success?;
    assert forall j :: 0 <= j < |zone| ==> r.value[j] == expected[j];
    assert r.value == expected;
  }

  /** The outcome of createDomainRecord: what the provider now stores (if the
      create call was made and succeeded) and what the helper returns. */
  datatype Creation = Creation(stored: Option<DomainRecord>, result: Result<Record, Error>)

  /** createDomainRecord for the k-th input. A record can be stored yet
      reported as a failure, when the provider's echo does not convert. */
  function CreateDomainRecord(rec: Record, k: nat, zoneName: string, oracle: Oracle): (c: Creation)
    ensures c.stored.Some? <==> ConvertToDomainRecord(rec, zoneName).Success?
                                && oracle.create(k, ConvertToDomainRecord(rec, zoneName).value).Some?
    ensures c.stored.Some? ==> c.stored == oracle.create(k, ConvertToDomainRecord(rec, zoneName).value)
    ensures c.result.Success? <==> c.stored.Some? && ConvertToLibdns(c.stored.value).Success?
    ensures c.stored.Some? ==> c.result == ConvertToLibdns(c.stored.value)
    ensures rec.ServiceBinding? ==> c == Creation(None, Failure(UnsupportedType))
  {
    match ConvertToDomainRecord(rec, zoneName)
    case Failure(e) => Creation(None, Failure(e))
    case Success(opts) =>
      match oracle.create(k, opts)
      case None => Creation(None, Failure(CreateFailed))
      case Some(added) => Creation(Some(added), ConvertToLibdns(added))
  }

  /** createDomainRecord on each input in turn, the k-th input using the
      provider's k-th create outcome. */
  function Creations(input: seq<Record>, zoneName: string, oracle: Oracle): (r: seq<Creation>)
    ensures |r| == |input|
    ensures forall k :: 0 <= k < |input| ==> r[k] == CreateDomainRecord(input[k], k, zoneName, oracle)
  {
    seq(|input|, k requires 0 <= k < |input| => CreateDomainRecord(input[k], k, zoneName, oracle))
  }

  /** The records a run of creations leaves stored, in creation order. */
  function StoredBy(cs: seq<Creation>): (r: Zone)
    ensures |r| <= |cs|
  {
    if |cs| == 0 then []
    else
      var last := cs[|cs| - 1];
      StoredBy(cs[..|cs| - 1]) + (if last.stored.Some? then [last.stored.value] else [])
  }

  /** The records a run of creations reports, failures left out: at most one
      per creation. */
  function Reported(cs: seq<Creation>): (r: seq<Record>)
    ensures |r| <= |cs|
  {
    if |cs| == 0 then []
    else
      var last := cs[|cs| - 1];
      Reported(cs[..|cs| - 1]) + (if last.result.Success? then [last.result.value] else [])
  }

  /** When no creation fails, every creation's record is reported, in order. */
  lemma {:induction false} ReportedAll(cs: seq<Creation>)
    requires forall k :: 0 <= k < |cs| ==> cs[k].result.Success?
    ensures |Reported(cs)| == |cs|
    ensures forall k :: 0 <= k < |cs| ==> Reported(cs)[k] == cs[k].result.value
  {
    if |cs| > 0 {
      var init := cs[..|cs| - 1];
      assert forall k :: 0 <= k < |init| ==> init[k] == cs[k];
      ReportedAll(init);
    }
  }

  /** One more creation appends what it stored and what it returned. */
  lemma CreationStep(cs: seq<Creation>, k: nat)
    requires k < |cs|
    ensures StoredBy(cs[..k + 1]) == StoredBy(cs[..k]) + (if cs[k].stored.Some? then [cs[k].stored.value] else [])
    ensures Reported(cs[..k + 1]) == Reported(cs[..k]) + (if cs[k].result.Success? then [cs[k].result.value] else [])
  {
    assert cs[..k + 1][..k] == cs[..k];
  }

  /** A record is reported exactly when some creation returned it. */
  lemma {:induction false} ReportedAre(cs: seq<Creation>)
    ensures forall x :: x in Reported(cs) <==> exists k :: 0 <= k < |cs| && cs[k].result == Success(x)
  {
    if |cs| > 0 {
      var init := cs[..|cs| - 1];
      ReportedAre(init);
      assert forall k :: 0 <= k < |init| ==> init[k] == cs[k];
    }
  }

  /** A record is stored exactly when some creation stored it. */
  lemma {:induction false} StoredAre(cs: seq<Creation>)
    ensures forall d :: d in StoredBy(cs) <==> exists k :: 0 <= k < |cs| && cs[k].stored == Some(d)
  {
    if |cs| > 0 {
      var init := cs[..|cs| - 1];
      StoredAre(init);
      assert forall k :: 0 <= k < |init| ==> init[k] == cs[k];
    }
  }

  /** Every reported record was stored, so a run never reports more records
      than it stored; it may report fewer. */
  lemma {:induction false} ReportedAreStored(cs: seq<Creation>)
    requires forall k :: 0 <= k < |cs| ==> (cs[k].result.Success? ==> cs[k].stored.Some?)
    ensures |Reported(cs)| <= |StoredBy(cs)|
  {
    if |cs| > 0 {
      ReportedAreStored(cs[..|cs| - 1]);
    }
  }
}
