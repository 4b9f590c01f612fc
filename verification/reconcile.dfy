/** Set reconciliation (createOrUpdateDomainRecords, client.go:53-136): build
    a (Name, Type) table from the input, delete every listed record whose
    type is in its name's table entry, then create every input in order.

    The table is modelled as written: each input replaces its name's entry
    (client.go:98), so a name ends up with the type of its last input only.
    The libdns promise that input (Name, Type) pairs replace the existing
    records of those pairs therefore holds only when inputs sharing a name
    share a type; MixedTypesKeepOldRecords shows it failing otherwise. */
module Reconcile {
  import opened Wrappers
  import opened Errors
  import opened Libdns
  import opened Linode
  import opened Collaborators
  import opened Client
  import opened Delete

  /** For each name, the types whose existing records are replaced. */
  type Table = map<string, set<string>>

  /** The table the input views build: every view sets its name's entry
      afresh to the set of its own type alone. */
  function Pairs(views: seq<RR>): (t: Table)
    ensures forall name :: name in t <==> exists p :: 0 <= p < |views| && views[p].name == name
    ensures forall name :: name in t ==> |t[name]| == 1
  {
    if |views| == 0 then map[]
    else
      var init := views[..|views| - 1];
      var last := views[|views| - 1];
      assert forall p :: 0 <= p < |init| ==> init[p] == views[p];
      Pairs(init)[last.name := {last.rtype}]
  }

  /** The entry of a name holds exactly the type of the last view with that name. */
  lemma {:induction false} LastTypeWins(views: seq<RR>, p: nat)
    requires p < |views|
    requires forall later :: p < later < |views| ==> views[later].name != views[p].name
    ensures Pairs(views)[views[p].name] == {views[p].rtype}
  {
    if p < |views| - 1 {
      var init := views[..|views| - 1];
      assert init[p] == views[p];
      LastTypeWins(init, p);
    }
  }

  /** A view whose (Name, Type) pair the table replaces. */
  predicate Doomed(t: Table, rr: RR) {
    rr.name in t && rr.rtype in t[rr.name]
  }

  /** Input views that share a name share a type. */
  predicate UniformTypes(views: seq<RR>) {
    forall a, b :: 0 <= a < |views| && 0 <= b < |views| && views[a].name == views[b].name ==>
      views[a].rtype == views[b].rtype
  }

  /** Some input view has exactly this (Name, Type) pair. */
  predicate InInput(views: seq<RR>, name: string, rtype: string) {
    exists p :: 0 <= p < |views| && views[p].name == name && views[p].rtype == rtype
  }

  /** Pairs absent from the input are never replaced. */
  lemma {:induction false} DoomedOnlyFromInput(views: seq<RR>, rr: RR)
    ensures Doomed(Pairs(views), rr) ==> InInput(views, rr.name, rr.rtype)
  {
    if |views| > 0 {
      var init := views[..|views| - 1];
      var last := views[|views| - 1];
      DoomedOnlyFromInput(init, rr);
      if Doomed(Pairs(views), rr) {
        if rr.name == last.name {
          assert views[|views| - 1].rtype == rr.rtype;
        } else {
          assert Doomed(Pairs(init), rr);
          var p :| 0 <= p < |init| && init[p].name == rr.name && init[p].rtype == rr.rtype;
          assert views[p] == init[p];
        }
      }
    }
  }

  /** When inputs sharing a name share a type, a pair is replaced exactly
      when it occurs in the input. */
  lemma {:induction false} UniformDoomed(views: seq<RR>, rr: RR)
    requires UniformTypes(views)
    ensures Doomed(Pairs(views), rr) <==> InInput(views, rr.name, rr.rtype)
  {
    DoomedOnlyFromInput(views, rr);
    if |views| > 0 && InInput(views, rr.name, rr.rtype) {
      var init := views[..|views| - 1];
      var last := views[|views| - 1];
      var p :| 0 <= p < |views| && views[p].name == rr.name && views[p].rtype == rr.rtype;
      if rr.name == last.name {
        assert views[p].rtype == last.rtype;
      } else {
        assert p < |init| && init[p] == views[p];
        assert UniformTypes(init) by {
          forall a, b | 0 <= a < |init| && 0 <= b < |init| && init[a].name == init[b].name
            ensures init[a].rtype == init[b].rtype
          {
            assert init[a] == views[a] && init[b] == views[b];
          }
        }
        UniformDoomed(init, rr);
      }
    }
  }

  /** A listed record the reconciler deletes: it converts and its view's
      pair is in the table. */
  predicate Condemned<R>(s: Scanner<R>, t: Table, d: DomainRecord) {
    s.convert(d).Success? && Doomed(t, s.view(s.convert(d).value))
  }

  /** The IDs of the condemned records of a listing. */
  function CondemnedIds<R>(s: Scanner<R>, t: Table, listing: Zone): set<int> {
    if |listing| == 0 then {}
    else
      var last := listing[|listing| - 1];
      CondemnedIds(s, t, listing[..|listing| - 1]) + (if Condemned(s, t, last) then {last.id} else {})
  }

  /** An ID is condemned exactly when some condemned listed record carries it. */
  lemma {:induction false} CondemnedIdsAre<R>(s: Scanner<R>, t: Table, listing: Zone)
    ensures forall id :: id in CondemnedIds(s, t, listing) <==>
              exists j :: 0 <= j < |listing| && listing[j].id == id && Condemned(s, t, listing[j])
  {
    if |listing| > 0 {
      var init := listing[..|listing| - 1];
      CondemnedIdsAre(s, t, init);
      assert forall j :: 0 <= j < |init| ==> init[j] == listing[j];
    }
  }

  /** The listed record at j passes the purge: it converts, and it can be
      deleted when condemned. */
  predicate Purgeable<R>(s: Scanner<R>, t: Table, oracle: Oracle, d: DomainRecord) {
    s.convert(d).Success? && (Condemned(s, t, d) ==> oracle.deleteOk(d.id))
  }

  /** Where the purge stops: the first listed record that is not purgeable,
      or the end of the listing. */
  function PurgeStop<R>(s: Scanner<R>, t: Table, oracle: Oracle, listing: Zone): (m: nat)
    ensures m <= |listing|
    ensures forall j :: 0 <= j < m ==> Purgeable(s, t, oracle, listing[j])
    ensures m < |listing| ==> !Purgeable(s, t, oracle, listing[m])
  {
    if |listing| == 0 || !Purgeable(s, t, oracle, listing[0]) then 0
    else
      assert forall j :: 1 <= j < |listing| ==> listing[1..][j - 1] == listing[j];
      1 + PurgeStop(s, t, oracle, listing[1..])
  }

  /** Only one position fits the description of the purge's stop. */
  lemma PurgeStopIs<R>(s: Scanner<R>, t: Table, oracle: Oracle, listing: Zone, m: nat)
    requires m <= |listing|
    requires forall j :: 0 <= j < m ==> Purgeable(s, t, oracle, listing[j])
    requires m < |listing| ==> !Purgeable(s, t, oracle, listing[m])
    ensures m == PurgeStop(s, t, oracle, listing)
  {
  }

  /** The purge phase: every listed record is converted in listing order and
      deleted when condemned. Any conversion failure (PTR records included)
      or failed delete stops it at m, the position of the record it was
      examining; deletions before m stay done. */
  method Purge<R>(s: Scanner<R>, t: Table, listing: Zone, oracle: Oracle)
    returns (zone': Zone, err: Option<Error>, m: nat)
    ensures m <= |listing|
    ensures zone' == Without(listing, CondemnedIds(s, t, listing[..m]))
    ensures forall j :: 0 <= j < m ==> Purgeable(s, t, oracle, listing[j])
    ensures err.None? <==> m == |listing|
    ensures err.Some? ==> m < |listing| && !Purgeable(s, t, oracle, listing[m])
    ensures err.Some? && s.convert(listing[m]).Failure? ==> err == Some(ConvertFailed(s.convert(listing[m]).error))
    ensures err.Some? && s.convert(listing[m]).Success? ==> err == Some(DeleteFailed(listing[m].id))
  {
    zone' := listing;
    WithoutNothing(listing);
    var j := 0;
    while j < |listing|
      invariant j <= |listing|
      invariant zone' == Without(listing, CondemnedIds(s, t, listing[..j]))
      invariant forall i :: 0 <= i < j ==> Purgeable(s, t, oracle, listing[i])
    {
      var next, e := ExamineRecord(s, t, listing, j, zone', oracle);
      if e.Some? {
        return zone', e, j;
      }
      zone', j := next, j + 1;
    }
    assert listing[..j] == listing;
    m := j;
    err := None;
  }

  /** The purge's examination of the listed record at j: it converts the
      record and deletes it when condemned. It fails exactly when the record
      is not purgeable, leaving the zone as it was; otherwise the zone is the
      listing without the condemned IDs up to and including j. */
  method ExamineRecord<R>(s: Scanner<R>, t: Table, listing: Zone, j: nat, zone': Zone, oracle: Oracle)
    returns (next: Zone, err: Option<Error>)
    requires j < |listing|
    requires zone' == Without(listing, CondemnedIds(s, t, listing[..j]))
    ensures err.None? <==> Purgeable(s, t, oracle, listing[j])
    ensures err.None? ==> next == Without(listing, CondemnedIds(s, t, listing[..j + 1]))
    ensures err.Some? ==> err == Some(StopError(s, listing[j]))
  {
    var d := listing[j];
    var converted := s.convert(d);
    if converted.Failure? {
      return zone', Some(ConvertFailed(converted.error));
    }
    var doomed := Doomed(t, s.view(converted.value));
    if doomed && !oracle.deleteOk(d.id) {
      return zone', Some(DeleteFailed(d.id));
    }
    PurgeStep(s, t, listing, j, zone', doomed);
    next := if doomed then Without(zone', {d.id}) else zone';
    err := None;
  }

  /** One more listed record examined: deleting it exactly when condemned
      keeps the zone equal to the listing without the condemned IDs so far. */
  lemma PurgeStep<R>(s: Scanner<R>, t: Table, listing: Zone, j: nat, zone': Zone, doomed: bool)
    requires j < |listing|
    requires zone' == Without(listing, CondemnedIds(s, t, listing[..j]))
    requires doomed == Condemned(s, t, listing[j])
    ensures (if doomed then Without(zone', {listing[j].id}) else zone')
         == Without(listing, CondemnedIds(s, t, listing[..j + 1]))
  {
    var pre := listing[..j];
    var ext := listing[..j + 1];
    assert ext[..|ext| - 1] == pre && ext[|ext| - 1] == listing[j];
    if Condemned(s, t, listing[j]) {
      assert CondemnedIds(s, t, ext) == CondemnedIds(s, t, pre) + {listing[j].id};
      WithoutTwice(listing, CondemnedIds(s, t, pre), {listing[j].id});
    } else {
      assert CondemnedIds(s, t, ext) == CondemnedIds(s, t, pre);
    }
  }

  /** The create phase. cs holds, for each input in order, what its
      createDomainRecord call stores and returns (the provider's outcomes
      fix these); the phase makes the calls in order and stops at the first
      failure with nothing reported. Whatever the provider stored, the
      failing call's record included, stays stored. */
  method CreateAll(zone: Zone, cs: seq<Creation>)
    returns (zone': Zone, created: seq<Record>, err: Option<Error>, ghost n: nat)
    ensures n <= |cs|
    ensures zone' == zone + StoredBy(cs[..n])
    ensures err.None? <==> forall k :: 0 <= k < |cs| ==> cs[k].result.Success?
    ensures err.None? ==> n == |cs| && created == Reported(cs)
    ensures err.Some? ==> created == [] && 0 < n
                          && (forall k :: 0 <= k < n - 1 ==> cs[k].result.Success?)
                          && cs[n - 1].result.Failure? && err == Some(cs[n - 1].result.error)
  {
    zone' := zone;
    created := [];
    var k := 0;
    while k < |cs|
      invariant k <= |cs|
      invariant zone' == zone + StoredBy(cs[..k])
      invariant created == Reported(cs[..k])
      invariant forall i :: 0 <= i < k ==> cs[i].result.Success?
    {
      var c := cs[k];
      CreationStep(cs, k);
      if c.stored.Some? {
        zone' := zone' + [c.stored.value];
      }
      if c.result.Failure? {
        return zone', [], Some(c.result.error), k + 1;
      }
      created := created + [c.result.value];
      k := k + 1;
    }
    assert cs[..k] == cs;
    n := k;
    err := None;
  }

  /** The position of the first failed creation, or the end. */
  function FirstFailure(cs: seq<Creation>): (f: nat)
    ensures f <= |cs|
    ensures forall k :: 0 <= k < f ==> cs[k].result.Success?
    ensures f < |cs| ==> cs[f].result.Failure?
  {
    if |cs| == 0 || cs[0].result.Failure? then 0
    else
      assert forall k :: 1 <= k < |cs| ==> cs[1..][k - 1] == cs[k];
      1 + FirstFailure(cs[1..])
  }

  /** Only one position fits the description of the first failed creation. */
  lemma FirstFailureIs(cs: seq<Creation>, f: nat)
    requires f <= |cs|
    requires forall k :: 0 <= k < f ==> cs[k].result.Success?
    requires f < |cs| ==> cs[f].result.Failure?
    ensures f == FirstFailure(cs)
  {
  }

  /** How many create calls the create phase makes: up to and including the
      first failing one, or all of them. */
  function Attempted(cs: seq<Creation>): (n: nat)
    ensures n <= |cs|
  {
    var f := FirstFailure(cs);
    if f < |cs| then f + 1 else f
  }

  /** The zone the purge and create phases leave behind: a purge stopped
      early leaves the listing without the condemned records before its stop
      and creates nothing; a completed purge is followed by the create calls
      up to and including the first failing one. */
  function PhasesZone<R>(s: Scanner<R>, t: Table, oracle: Oracle, zone: Zone, cs: seq<Creation>): Zone {
    var m := PurgeStop(s, t, oracle, zone);
    if m < |zone| then Without(zone, CondemnedIds(s, t, zone[..m]))
    else Without(zone, CondemnedIds(s, t, zone)) + StoredBy(cs[..Attempted(cs)])
  }

  /** The error the two phases report: that of the record the purge stopped
      at, else that of the first failed creation, else none. */
  function PhasesError<R>(s: Scanner<R>, t: Table, oracle: Oracle, zone: Zone, cs: seq<Creation>): Option<Error> {
    var m := PurgeStop(s, t, oracle, zone);
    var f := FirstFailure(cs);
    if m < |zone| then Some(StopError(s, zone[m]))
    else if f < |cs| then Some(cs[f].result.error)
    else None
  }

  /** The (Name, Type) table loop of createOrUpdateDomainRecords. */
  method BuildPairs(input: seq<Record>) returns (pairs: Table)
    ensures pairs == Pairs(RRs(input))
  {
    pairs := map[];
    ghost var views := RRs(input);
    var i := 0;
    while i < |input|
      invariant i <= |input|
      invariant pairs == Pairs(views[..i])
    {
      var rr := input[i].AsRR();
      assert views[..i + 1][..i] == views[..i];
      pairs := pairs[rr.name := {rr.rtype}];
      i := i + 1;
    }
    assert views[..i] == views;
  }

  /** The two phases after a successful listing: purge, then, if the purge
      completed, create. cs holds the creation outcomes, one per input. */
  method PurgeThenCreate<R>(s: Scanner<R>, t: Table, zone: Zone, cs: seq<Creation>, oracle: Oracle)
    returns (zone': Zone, setRecords: seq<Record>, err: Option<Error>)
    ensures err.Some? ==> setRecords == []
    ensures err.None? <==>
              && (forall j :: 0 <= j < |zone| ==> Purgeable(s, t, oracle, zone[j]))
              && (forall k :: 0 <= k < |cs| ==> cs[k].result.Success?)
    ensures err.None? ==>
              && zone' == Without(zone, CondemnedIds(s, t, zone)) + StoredBy(cs)
              && |setRecords| == |cs|
              && forall k :: 0 <= k < |cs| ==> Success(setRecords[k]) == cs[k].result
    ensures zone' == PhasesZone(s, t, oracle, zone, cs)
    ensures err == PhasesError(s, t, oracle, zone, cs)
  {
    var m: nat;
    zone', err, m := Purge(s, t, zone, oracle);
    PurgeStopIs(s, t, oracle, zone, m);
    if err.Some? {
      return zone', [], err;
    }
    assert zone[..m] == zone;
    ghost var n: nat;
    zone', setRecords, err, n := CreateAll(zone', cs);
    if err.None? {
      FirstFailureIs(cs, |cs|);
      assert cs[..n] == cs;
      ReportedAll(cs);
    } else {
      FirstFailureIs(cs, n - 1);
    }
  }

  /** createOrUpdateDomainRecords. A failed listing changes nothing; a
      failure while purging or creating returns no records and undoes
      nothing. On success the zone is the listing without the condemned
      records, followed by what the provider stored for each input, and the
      result holds one created record per input, in input order. */
  method CreateOrUpdateDomainRecords(zone: Zone, zoneName: string, input: seq<Record>, oracle: Oracle)
    returns (zone': Zone, setRecords: seq<Record>, err: Option<Error>)
    ensures !oracle.listOk ==> zone' == zone && setRecords == [] && err == Some(ListFailed)
    ensures err.Some? ==> setRecords == []
    ensures err.None? <==>
              && oracle.listOk
              && (forall j :: 0 <= j < |zone| ==> Purgeable(Translation, Pairs(RRs(input)), oracle, zone[j]))
              && (forall k :: 0 <= k < |input| ==> Creations(input, zoneName, oracle)[k].result.Success?)
    ensures err.None? ==>
              && zone' == Without(zone, CondemnedIds(Translation, Pairs(RRs(input)), zone))
                          + StoredBy(Creations(input, zoneName, oracle))
              && |setRecords| == |input|
              && forall k :: 0 <= k < |input| ==> Success(setRecords[k]) == Creations(input, zoneName, oracle)[k].result
    ensures oracle.listOk ==>
              && zone' == PhasesZone(Translation, Pairs(RRs(input)), oracle, zone, Creations(input, zoneName, oracle))
              && err == PhasesError(Translation, Pairs(RRs(input)), oracle, zone, Creations(input, zoneName, oracle))
  {
    var pairs := BuildPairs(input);
    if !oracle.listOk {
      return zone, [], Some(ListFailed);
    }
    zone', setRecords, err := PurgeThenCreate(Translation, pairs, zone, Creations(input, zoneName, oracle), oracle);
  }

  /** Deletion by ID removes a listed record exactly when it is condemned,
      provided IDs are unique. */
  lemma PurgedIffCondemned<R>(s: Scanner<R>, t: Table, listing: Zone, j: nat)
    requires UniqueIds(listing) && j < |listing|
    ensures listing[j] !in Without(listing, CondemnedIds(s, t, listing)) <==> Condemned(s, t, listing[j])
  {
    WithoutKeeps(listing, CondemnedIds(s, t, listing));
    CondemnedIdsAre(s, t, listing);
    if listing[j].id in CondemnedIds(s, t, listing) {
      var i :| 0 <= i < |listing| && listing[i].id == listing[j].id && Condemned(s, t, listing[i]);
      assert i == j;
    }
  }
}
