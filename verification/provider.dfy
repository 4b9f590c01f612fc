/** The provider's record operations (provider.go:61-137): each resolves the
    zone to exactly one domain first, then runs one helper of client.go and
    applies its error policy. The domain listing used for resolution is a
    parameter: the IDs of the domains whose name is the zone's, or a failure. */
module Provider {
  import opened Wrappers
  import opened Errors
  import opened Libdns
  import opened Linode
  import opened Convert
  import opened Collaborators
  import opened Client
  import opened Delete
  import opened Reconcile

  /** Resolution found exactly one domain. */
  predicate Resolves(found: Result<seq<int>, Error>) {
    found.Success? && |found.value| == 1
  }

  /** GetRecords: all-or-nothing; a resolution or listing failure, or any
      listed record that does not convert, fails the whole call. */
  function GetRecords(found: Result<seq<int>, Error>, zone: Zone, oracle: Oracle): (r: Result<seq<Record>, Error>)
    ensures r.Success? <==>
              Resolves(found) && oracle.listOk && forall j :: 0 <= j < |zone| ==> ConvertToLibdns(zone[j]).Success?
    ensures r.Success? ==> |r.value| == |zone|
                           && forall j :: 0 <= j < |zone| ==> ConvertToLibdns(zone[j]) == Success(r.value[j])
    ensures !Resolves(found) ==> r == Failure(GetDomainIdByZone(found).error)
  {
    match GetDomainIdByZone(found)
    case Failure(e) => Failure(e)
    case Success(_) => ListDomainRecords(zone, oracle)
  }

  /** AppendRecords: once the zone resolves it never fails; each input is
      created in turn, and one whose createDomainRecord fails (an
      unsupported kind, a failed create call, or a provider echo that does
      not convert) is skipped. */
  method AppendRecords(found: Result<seq<int>, Error>, zone: Zone, zoneName: string, input: seq<Record>, oracle: Oracle)
    returns (zone': Zone, added: seq<Record>, err: Option<Error>)
    ensures err.None? <==> Resolves(found)
    ensures !Resolves(found) ==> zone' == zone && added == [] && err == Some(GetDomainIdByZone(found).error)
    ensures Resolves(found) ==> zone' == zone + StoredBy(Creations(input, zoneName, oracle))
    ensures Resolves(found) ==> added == Reported(Creations(input, zoneName, oracle))
    ensures |added| <= |input|
  {
    var resolved := GetDomainIdByZone(found);
    if resolved.Failure? {
      return zone, [], Some(resolved.error);
    }
    zone', added := CreateEach(zone, Creations(input, zoneName, oracle));
    err := None;
  }

  /** The create loop of AppendRecords. cs holds, for each input in order,
      what its createDomainRecord call stores and returns (the provider's
      outcomes fix these); every call is made, what it stored stays stored,
      and a failed call is skipped. */
  method CreateEach(zone: Zone, cs: seq<Creation>) returns (zone': Zone, added: seq<Record>)
    ensures zone' == zone + StoredBy(cs)
    ensures added == Reported(cs)
  {
    zone' := zone;
    added := [];
    var k := 0;
    while k < |cs|
      invariant k <= |cs|
      invariant zone' == zone + StoredBy(cs[..k])
      invariant added == Reported(cs[..k])
    {
      var c := cs[k];
      CreationStep(cs, k);
      if c.stored.Some? {
        zone' := zone' + [c.stored.value];
      }
      if c.result.Success? {
        added := added + [c.result.value];
      }
      k := k + 1;
    }
    assert cs[..k] == cs;
  }

  /** SetRecords: a resolution failure changes nothing; any failure of the
      reconciler returns no records, whatever it had collected, and leaves
      its deletions and creations in place: the zone is what the purge and
      create phases left when they stopped. */
  method SetRecords(found: Result<seq<int>, Error>, zone: Zone, zoneName: string, input: seq<Record>, oracle: Oracle)
    returns (zone': Zone, records: seq<Record>, err: Option<Error>)
    ensures !Resolves(found) ==> zone' == zone && records == [] && err == Some(GetDomainIdByZone(found).error)
    ensures err.Some? ==> records == []
    ensures err.None? <==>
              && Resolves(found)
              && oracle.listOk
              && (forall j :: 0 <= j < |zone| ==> Purgeable(Translation, Pairs(RRs(input)), oracle, zone[j]))
              && (forall k :: 0 <= k < |input| ==> Creations(input, zoneName, oracle)[k].result.Success?)
    ensures err.None? ==>
              && zone' == Without(zone, CondemnedIds(Translation, Pairs(RRs(input)), zone))
                          + StoredBy(Creations(input, zoneName, oracle))
              && |records| == |input|
              && forall k :: 0 <= k < |input| ==> Success(records[k]) == Creations(input, zoneName, oracle)[k].result
    ensures Resolves(found) && !oracle.listOk ==> zone' == zone && err == Some(ListFailed)
    ensures Resolves(found) && oracle.listOk ==>
              && zone' == PhasesZone(Translation, Pairs(RRs(input)), oracle, zone, Creations(input, zoneName, oracle))
              && err == PhasesError(Translation, Pairs(RRs(input)), oracle, zone, Creations(input, zoneName, oracle))
  {
    var resolved := GetDomainIdByZone(found);
    if resolved.Failure? {
      return zone, [], Some(resolved.error);
    }
    zone', records, err := CreateOrUpdateDomainRecords(zone, zoneName, input, oracle);
    if err.Some? {
      records := [];
    }
  }

  /** DeleteRecords: a resolution failure changes nothing; otherwise the
      error is the deletion loop's, and the deletions it made before halting,
      DonePositions, stay done even though a failure returns no records. */
  method DeleteRecords(found: Result<seq<int>, Error>, zone: Zone, queries: seq<Record>, oracle: Oracle)
    returns (zone': Zone, deleted: seq<Record>, err: Option<Error>)
    ensures !Resolves(found) ==> zone' == zone && deleted == [] && err == Some(GetDomainIdByZone(found).error)
    ensures err.Some? ==> deleted == []
    ensures err.None? <==> Resolves(found) && DeleteSucceeds(Translation, zone, RRs(queries), oracle)
    ensures err.None? ==>
              var order := DeletionOrder(Translation, RRs(queries), zone);
              ValidPositions(Translation, zone, order)
              && deleted == Views(Translation, zone, order)
              && zone' == Without(zone, IdsAt(zone, order))
    ensures Resolves(found) ==>
              && err == DeleteError(Translation, RRs(queries), zone, oracle)
              && zone' == Without(zone, IdsAt(zone, DonePositions(Translation, RRs(queries), zone, oracle)))
  {
    var resolved := GetDomainIdByZone(found);
    if resolved.Failure? {
      return zone, [], Some(resolved.error);
    }
    zone', deleted, err := DeleteDomainRecords(zone, queries, oracle);
    if err.Some? {
      deleted := [];
    }
  }

  /** How many inputs are ServiceBinding records. */
  function ServiceBindings(input: seq<Record>): (n: nat)
    ensures n <= |input|
  {
    if |input| == 0 then 0
    else ServiceBindings(input[..|input| - 1]) + (if input[|input| - 1].ServiceBinding? then 1 else 0)
  }

  /** The provider's stored copy of a record's create options converts back. */
  predicate EchoConverts(rec: Record, zoneName: string) {
    rec.ServiceBinding? || ConvertToLibdns(EchoOf(ConvertToDomainRecord(rec, zoneName).value, 0)).Success?
  }

  /** Every typed record converts back from its stored copy, provided an
      address record holds a parsable address; only bare RRs may not. */
  lemma EchoConvertsFor(rec: Record, zoneName: string)
    requires !rec.Raw?
    requires rec.Address? ==> IsIPLiteral(rec.ip.text)
    ensures EchoConverts(rec, zoneName)
  {
  }

  /** The provider-assigned ID plays no part in the translation. */
  lemma IdIrrelevant(o: CreateOptions, id: int, id': int)
    ensures ConvertToLibdns(EchoOf(o, id)) == ConvertToLibdns(EchoOf(o, id'))
  {
  }

  /** With a provider that stores what it is sent, a creation succeeds
      exactly for the inputs other than ServiceBinding whose stored copy
      converts back. */
  lemma FaithfulCreation(input: seq<Record>, zoneName: string, oracle: Oracle, k: nat)
    requires Faithful(oracle) && k < |input|
    ensures Creations(input, zoneName, oracle)[k].result.Success? <==>
              !input[k].ServiceBinding? && EchoConverts(input[k], zoneName)
  {
    if !input[k].ServiceBinding? {
      var o := ConvertToDomainRecord(input[k], zoneName).value;
      var echoed := oracle.create(k, o);
      assert echoed.Some? && echoed.value == EchoOf(o, echoed.value.id);
      IdIrrelevant(o, echoed.value.id, 0);
    }
  }

  /** With a provider that stores what it is sent, a restorable input is
      stored, and both its stored copy and the creation's result read back
      as the input itself. */
  lemma FaithfulRestores(input: seq<Record>, zoneName: string, oracle: Oracle, k: nat)
    requires Faithful(oracle) && k < |input| && Restorable(input[k], zoneName)
    ensures Creations(input, zoneName, oracle)[k].stored.Some?
    ensures ConvertToLibdns(Creations(input, zoneName, oracle)[k].stored.value) == Success(input[k])
    ensures Creations(input, zoneName, oracle)[k].result == Success(input[k])
  {
    RoundTrip(input[k], zoneName, 0);
    var o := ConvertToDomainRecord(input[k], zoneName).value;
    RoundTrip(input[k], zoneName, oracle.create(k, o).value.id);
  }

  /** Creating a prefix of the inputs makes the same creations. */
  lemma CreationsPrefix(input: seq<Record>, zoneName: string, oracle: Oracle, n: nat)
    requires n <= |input|
    ensures Creations(input, zoneName, oracle)[..n] == Creations(input[..n], zoneName, oracle)
  {
  }

  /** What a provider that stores what it is sent hands back for the inputs,
      in input order: nothing for a ServiceBinding record or for a stored
      copy that does not convert back, otherwise that copy converted. */
  function ReadBack(input: seq<Record>, zoneName: string): (r: seq<Record>)
    ensures |r| <= |input| - ServiceBindings(input)
  {
    if |input| == 0 then []
    else
      var last := input[|input| - 1];
      ReadBack(input[..|input| - 1], zoneName)
        + (if last.ServiceBinding? then []
           else match ConvertToLibdns(EchoOf(ConvertToDomainRecord(last, zoneName).value, 0))
                case Success(x) => [x]
                case Failure(_) => [])
  }

  /** Every input other than a ServiceBinding whose stored copy converts
      back is read back. */
  lemma {:induction false} ReadBackAll(input: seq<Record>, zoneName: string)
    requires forall k :: 0 <= k < |input| ==> EchoConverts(input[k], zoneName)
    ensures |ReadBack(input, zoneName)| == |input| - ServiceBindings(input)
  {
    if |input| > 0 {
      var init := input[..|input| - 1];
      assert forall k :: 0 <= k < |init| ==> init[k] == input[k];
      ReadBackAll(init, zoneName);
    }
  }

  /** With a provider that stores what it is sent, AppendRecords reports
      exactly the records read back: every input except the ServiceBinding
      ones and those whose stored copy does not convert back, each as its
      stored copy converts, in input order. */
  lemma {:induction false} AppendDropsOnlyServiceBindings(input: seq<Record>, zoneName: string, oracle: Oracle)
    requires Faithful(oracle)
    ensures Reported(Creations(input, zoneName, oracle)) == ReadBack(input, zoneName)
    ensures (forall k :: 0 <= k < |input| ==> EchoConverts(input[k], zoneName)) ==>
              |Reported(Creations(input, zoneName, oracle))| == |input| - ServiceBindings(input)
  {
    if |input| > 0 {
      var n := |input| - 1;
      var init := input[..n];
      var cs := Creations(input, zoneName, oracle);
      assert forall k :: 0 <= k < |init| ==> init[k] == input[k];
      AppendDropsOnlyServiceBindings(init, zoneName, oracle);
      CreationsPrefix(input, zoneName, oracle, n);
      FaithfulCreation(input, zoneName, oracle, n);
      assert Reported(cs) == Reported(cs[..n]) + (if cs[n].result.Success? then [cs[n].result.value] else []);
      if !input[n].ServiceBinding? {
        var o := ConvertToDomainRecord(input[n], zoneName).value;
        var echoed := oracle.create(n, o);
        IdIrrelevant(o, echoed.value.id, 0);
      }
    }
    if forall k :: 0 <= k < |input| ==> EchoConverts(input[k], zoneName) {
      ReadBackAll(input, zoneName);
    }
  }

  /** No ServiceBinding record is ever among the appended records: what is
      reported comes back through the translation, which never yields one. */
  lemma AppendedNeverServiceBinding(input: seq<Record>, zoneName: string, oracle: Oracle)
    ensures forall x :: x in Reported(Creations(input, zoneName, oracle)) ==> !x.ServiceBinding?
  {
    ReportedAre(Creations(input, zoneName, oracle));
  }
}
