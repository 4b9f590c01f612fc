/** Wildcard-aware deletion (client.go:156-213): every query deletes each
    listed record whose view matches it, each listed record at most once per
    call, query by query and in listing order within a query.

    The scan is written once over a Scanner, the pair of functions it applies
    to listed records (conversion, then the flattened view); the provider's
    scanner is Translation, convertToLibdns followed by RR(). */
module Delete {
  import opened Wrappers
  import opened Errors
  import opened Libdns
  import opened Linode
  import opened Convert
  import opened Collaborators

  /** The matcher: the name must be equal; type, TTL and data are wildcards
      when the query leaves them at their zero value. */
  predicate WildMatch(query: RR, candidate: RR) {
    && query.name == candidate.name
    && (query.rtype == "" || query.rtype == candidate.rtype)
    && (query.ttl == 0 || query.ttl == candidate.ttl)
    && (query.data == "" || query.data == candidate.data)
  }

  /** The candidate with the query's zero fields filled in from it. */
  function FillFrom(query: RR, candidate: RR): RR {
    RR(query.name,
       if query.rtype == "" then candidate.rtype else query.rtype,
       if query.ttl == 0 then candidate.ttl else query.ttl,
       if query.data == "" then candidate.data else query.data)
  }

  /** A candidate matches exactly when it equals the query completed by its
      own values in the fields the query leaves at zero; so a query with no
      zero field matches only an identical view. */
  lemma WildMatchIsFilledEquality(query: RR, candidate: RR)
    ensures WildMatch(query, candidate) <==> candidate == FillFrom(query, candidate)
    ensures query.rtype != "" && query.ttl != 0 && query.data != "" ==>
              (WildMatch(query, candidate) <==> candidate == query)
  {
  }

  /** What a scan applies to a listed record: a conversion, and the view of a
      converted record it compares with the query's view. */
  datatype Scanner<!R> = Scanner(convert: DomainRecord -> Result<R, Error>, view: R -> RR)

  /** The provider's scanner: convertToLibdns, then RR(). */
  const Translation: Scanner<Record> := Scanner(ConvertToLibdns, (r: Record) => r.AsRR())

  /** A listed record is hit by a query view when it converts and its view matches. */
  predicate Hits<R>(s: Scanner<R>, query: RR, d: DomainRecord) {
    s.convert(d).Success? && WildMatch(query, s.view(s.convert(d).value))
  }

  /** A query giving only a name hits every convertible record of that name,
      whatever its type, TTL and data. */
  lemma NameOnlyQuery(name: string, d: DomainRecord)
    ensures Hits(Translation, RR(name, "", 0, ""), d) <==>
              ConvertToLibdns(d).Success? && ConvertToLibdns(d).value.AsRR().name == name
  {
  }

  /** Listed records a scan gets past: convertible ones, and PTR records,
      which it skips. */
  predicate Passable<R>(s: Scanner<R>, d: DomainRecord) {
    s.convert(d).Success? || d.rtype == TypePTR
  }

  function OwnerFrom<R>(s: Scanner<R>, queries: seq<RR>, d: DomainRecord, i: nat): (o: nat)
    requires i <= |queries|
    ensures i <= o <= |queries|
    ensures forall p :: i <= p < o ==> !Hits(s, queries[p], d)
    ensures o < |queries| ==> Hits(s, queries[o], d)
    decreases |queries| - i
  {
    if i == |queries| then i
    else if Hits(s, queries[i], d) then i
    else OwnerFrom(s, queries, d, i + 1)
  }

  /** The first query that hits d, or |queries| when none does. */
  function Owner<R>(s: Scanner<R>, queries: seq<RR>, d: DomainRecord): (o: nat)
    ensures o <= |queries|
    ensures forall p :: 0 <= p < o ==> !Hits(s, queries[p], d)
    ensures o < |queries| ==> Hits(s, queries[o], d)
  {
    OwnerFrom(s, queries, d, 0)
  }

  /** The first hitting query of every listed record. */
  function Owners<R>(s: Scanner<R>, queries: seq<RR>, listing: Zone): (r: seq<nat>)
    ensures |r| == |listing|
  {
    if |listing| == 0 then []
    else Owners(s, queries, listing[..|listing| - 1]) + [Owner(s, queries, listing[|listing| - 1])]
  }

  lemma {:induction false} OwnersAt<R>(s: Scanner<R>, queries: seq<RR>, listing: Zone, j: nat)
    requires j < |listing|
    ensures Owners(s, queries, listing)[j] == Owner(s, queries, listing[j])
  {
    if j < |listing| - 1 {
      OwnersAt(s, queries, listing[..|listing| - 1], j);
    }
  }

  /** Positions below m whose first hitting query is q, in listing order. */
  function HitPositions(owners: seq<nat>, q: nat, m: nat): (r: seq<nat>)
    requires m <= |owners|
  {
    if m == 0 then []
    else HitPositions(owners, q, m - 1) + (if owners[m - 1] == q then [m - 1] else [])
  }

  /** The positions the first n queries take, query by query and, within one
      query, in listing order. */
  function OrderOf(owners: seq<nat>, n: nat): (r: seq<nat>)
  {
    if n == 0 then []
    else OrderOf(owners, n - 1) + HitPositions(owners, n - 1, |owners|)
  }

  /** Every position taken for query q below m is below m and owned by q. */
  lemma {:induction false} HitBounds(owners: seq<nat>, q: nat, m: nat)
    requires m <= |owners|
    ensures forall k :: 0 <= k < |HitPositions(owners, q, m)| ==>
              HitPositions(owners, q, m)[k] < m && owners[HitPositions(owners, q, m)[k]] == q
  {
    if m > 0 {
      HitBounds(owners, q, m - 1);
      var prev := HitPositions(owners, q, m - 1);
      var r := HitPositions(owners, q, m);
      forall k | 0 <= k < |r|
        ensures r[k] < m && owners[r[k]] == q
      {
        if k < |prev| {
          assert r[k] == prev[k];
        }
      }
    }
  }

  /** Every position the first n queries take is a listing position owned
      by one of them. */
  lemma {:induction false} OrderBounds(owners: seq<nat>, n: nat)
    ensures forall k :: 0 <= k < |OrderOf(owners, n)| ==>
              OrderOf(owners, n)[k] < |owners| && owners[OrderOf(owners, n)[k]] < n
  {
    if n > 0 {
      OrderBounds(owners, n - 1);
      HitBounds(owners, n - 1, |owners|);
      var prev := OrderOf(owners, n - 1);
      var hits := HitPositions(owners, n - 1, |owners|);
      var r := OrderOf(owners, n);
      forall k | 0 <= k < |r|
        ensures r[k] < |owners| && owners[r[k]] < n
      {
        if k < |prev| {
          assert r[k] == prev[k];
        } else {
          assert r[k] == hits[k - |prev|];
        }
      }
    }
  }

  /** The listing positions a delete call removes, in the order it removes them. */
  function DeletionOrder<R>(s: Scanner<R>, queries: seq<RR>, listing: Zone): (r: seq<nat>)
    ensures forall k :: 0 <= k < |r| ==> r[k] < |listing| && Owners(s, queries, listing)[r[k]] < |queries|
  {
    OrderBounds(Owners(s, queries, listing), |queries|);
    OrderOf(Owners(s, queries, listing), |queries|)
  }

  /** Positions of records that converted. */
  predicate ValidPositions<R>(s: Scanner<R>, listing: Zone, positions: seq<nat>) {
    forall k :: 0 <= k < |positions| ==> positions[k] < |listing| && s.convert(listing[positions[k]]).Success?
  }

  lemma OrderIsValid<R>(s: Scanner<R>, queries: seq<RR>, listing: Zone)
    ensures ValidPositions(s, listing, DeletionOrder(s, queries, listing))
  {
    var r := DeletionOrder(s, queries, listing);
    forall k | 0 <= k < |r|
      ensures s.convert(listing[r[k]]).Success?
    {
      OwnersAt(s, queries, listing, r[k]);
    }
  }

  /** The converted records at the given positions, in that order. */
  function Views<R>(s: Scanner<R>, listing: Zone, positions: seq<nat>): (r: seq<R>)
    requires ValidPositions(s, listing, positions)
    ensures |r| == |positions|
  {
    if |positions| == 0 then []
    else
      var init := positions[..|positions| - 1];
      assert ValidPositions(s, listing, init);
      Views(s, listing, init) + [s.convert(listing[positions[|positions| - 1]]).value]
  }

  /** The IDs of the records at the given positions. */
  function IdsAt(listing: Zone, positions: seq<nat>): set<int>
    requires forall k :: 0 <= k < |positions| ==> positions[k] < |listing|
  {
    if |positions| == 0 then {}
    else IdsAt(listing, positions[..|positions| - 1]) + {listing[positions[|positions| - 1]].id}
  }

  /** When a whole delete call succeeds: the listing works, every query has a
      name, the scans meet only passable records, and every record some query
      hits can be deleted. */
  predicate DeleteSucceeds<R>(s: Scanner<R>, zone: Zone, queries: seq<RR>, oracle: Oracle) {
    && oracle.listOk
    && (forall p :: 0 <= p < |queries| ==> |queries[p].name| > 0)
    && (|queries| > 0 ==> forall j :: 0 <= j < |zone| ==> Passable(s, zone[j]))
    && (forall j :: 0 <= j < |zone| && Owners(s, queries, zone)[j] < |queries| ==> oracle.deleteOk(zone[j].id))
  }

  /** The deletion loop over the query views. On success the deleted records
      are those at DeletionOrder and the zone has lost exactly their IDs.
      Otherwise the call halts where DeleteError says, with the deletions of
      DonePositions, a prefix of DeletionOrder, done and reported, except
      that an empty query name returns no records. */
  method DeleteLoop<R>(s: Scanner<R>, zone: Zone, queries: seq<RR>, oracle: Oracle)
    returns (zone': Zone, deleted: seq<R>, err: Option<Error>)
    ensures !oracle.listOk ==> zone' == zone && deleted == [] && err == Some(ListFailed)
    ensures err.None? <==> DeleteSucceeds(s, zone, queries, oracle)
    ensures err.None? ==>
              var order := DeletionOrder(s, queries, zone);
              ValidPositions(s, zone, order)
              && deleted == Views(s, zone, order)
              && zone' == Without(zone, IdsAt(zone, order))
    ensures err == DeleteError(s, queries, zone, oracle)
    ensures var done := DonePositions(s, queries, zone, oracle);
            && zone' == Without(zone, IdsAt(zone, done))
            && deleted == (if err == Some(NameRequired) then [] else Views(s, zone, done))
  {
    WithoutNothing(zone);
    if !oracle.listOk {
      return zone, [], Some(ListFailed);
    }
    var listing := zone;
    var gone := seq(|listing|, _ => false);
    zone' := zone;
    deleted := [];
    ghost var order: seq<nat> := [];
    Start(s, queries, listing, oracle, gone);
    var q := 0;
    while q < |queries|
      invariant q <= |queries|
      invariant Progress(s, queries, listing, oracle, q, gone, order, deleted, zone')
    {
      gone, deleted, zone', err, order := QueryStep(s, queries, listing, oracle, q, gone, order, deleted, zone');
      if err.Some? {
        return;
      }
      q := q + 1;
    }
    Finished(s, queries, listing, oracle, gone, order, deleted, zone');
    err := None;
  }

  lemma Start<R>(s: Scanner<R>, queries: seq<RR>, listing: Zone, oracle: Oracle, gone: seq<bool>)
    requires oracle.listOk
    requires |gone| == |listing| && forall i :: 0 <= i < |gone| ==> !gone[i]
    ensures Progress(s, queries, listing, oracle, 0, gone, [], [], listing)
  {
    WithoutNothing(listing);
  }

  /** The state of the deletion loop once the first q queries have run: the
      records they took are gone, in DeletionOrder's order, and everything
      DeleteSucceeds demands of those queries held. */
  ghost predicate Progress<R>(s: Scanner<R>, queries: seq<RR>, listing: Zone, oracle: Oracle, q: nat,
                              gone: seq<bool>, order: seq<nat>, deleted: seq<R>, zone': Zone)
  {
    && oracle.listOk
    && q <= |queries|
    && |gone| == |listing|
    && (forall i :: 0 <= i < |listing| ==> (gone[i] <==> Owners(s, queries, listing)[i] < q))
    && order == OrderOf(Owners(s, queries, listing), q)
    && ValidPositions(s, listing, order)
    && deleted == Views(s, listing, order)
    && zone' == Without(listing, IdsAt(listing, order))
    && (forall p :: 0 <= p < q ==> |queries[p].name| > 0)
    && (q > 0 ==> forall i :: 0 <= i < |listing| ==> Passable(s, listing[i]))
    && (forall i :: 0 <= i < |listing| && Owners(s, queries, listing)[i] < q ==> oracle.deleteOk(listing[i].id))
  }

  /** How the deletion loop stops early with error e: the call does not
      succeed, e is the error of its halt, the deletions made are
      DonePositions, and the deleted records are reported unless the error is
      a missing name. */
  ghost predicate Stopped<R>(s: Scanner<R>, queries: seq<RR>, listing: Zone, oracle: Oracle, e: Error,
                             order: seq<nat>, deleted: seq<R>, zone': Zone)
  {
    && !DeleteSucceeds(s, listing, queries, oracle)
    && DeleteError(s, queries, listing, oracle) == Some(e)
    && order == DonePositions(s, queries, listing, oracle)
    && zone' == Without(listing, IdsAt(listing, order))
    && deleted == (if e == NameRequired then [] else Views(s, listing, order))
  }

  /** No query the loop has completed halts the call. */
  lemma NoHaltBefore<R>(s: Scanner<R>, queries: seq<RR>, listing: Zone, oracle: Oracle, q: nat,
                        gone: seq<bool>, order: seq<nat>, deleted: seq<R>, zone': Zone)
    requires Progress(s, queries, listing, oracle, q, gone, order, deleted, zone')
    ensures forall p :: 0 <= p < q ==> !Halts(s, queries, listing, oracle, p)
  {
    var owners := Owners(s, queries, listing);
    forall p | 0 <= p < q
      ensures !Halts(s, queries, listing, oracle, p)
    {
      ScanStopIs(s, listing, oracle, owners, p, |listing|);
    }
  }

  /** A query that halts right after the completed ones is the halting query. */
  lemma HaltAt<R>(s: Scanner<R>, queries: seq<RR>, listing: Zone, oracle: Oracle, q: nat,
                  gone: seq<bool>, order: seq<nat>, deleted: seq<R>, zone': Zone)
    requires q < |queries| && Halts(s, queries, listing, oracle, q)
    requires Progress(s, queries, listing, oracle, q, gone, order, deleted, zone')
    ensures HaltQuery(s, queries, listing, oracle) == q
  {
    NoHaltBefore(s, queries, listing, oracle, q, gone, order, deleted, zone');
    HaltQueryIs(s, queries, listing, oracle, q);
  }

  lemma Finished<R>(s: Scanner<R>, queries: seq<RR>, listing: Zone, oracle: Oracle,
                    gone: seq<bool>, order: seq<nat>, deleted: seq<R>, zone': Zone)
    requires oracle.listOk
    requires Progress(s, queries, listing, oracle, |queries|, gone, order, deleted, zone')
    ensures DeleteSucceeds(s, listing, queries, oracle)
    ensures var order' := DeletionOrder(s, queries, listing);
            ValidPositions(s, listing, order')
            && deleted == Views(s, listing, order')
            && zone' == Without(listing, IdsAt(listing, order'))
    ensures DeleteError(s, queries, listing, oracle) == None
    ensures DonePositions(s, queries, listing, oracle) == DeletionOrder(s, queries, listing)
  {
    NoHaltBefore(s, queries, listing, oracle, |queries|, gone, order, deleted, zone');
    HaltQueryIs(s, queries, listing, oracle, |queries|);
  }

  /** Query q of the deletion loop: an empty name stops the loop; otherwise
      the query scans the listing. */
  method QueryStep<R>(s: Scanner<R>, queries: seq<RR>, listing: Zone, oracle: Oracle, q: nat,
                      gone: seq<bool>, ghost order: seq<nat>, deleted: seq<R>, zone': Zone)
    returns (gone': seq<bool>, deleted': seq<R>, zone'': Zone, err: Option<Error>, ghost order': seq<nat>)
    requires q < |queries|
    requires Progress(s, queries, listing, oracle, q, gone, order, deleted, zone')
    ensures err.None? ==> Progress(s, queries, listing, oracle, q + 1, gone', order', deleted', zone'')
    ensures err.Some? ==> Stopped(s, queries, listing, oracle, err.value, order', deleted', zone'')
    ensures err == Some(NameRequired) <==> queries[q].name == ""
    ensures queries[q].name == "" ==> deleted' == [] && zone'' == zone' && gone' == gone
  {
    ghost var owners := Owners(s, queries, listing);
    if queries[q].name == "" {
      NameStops(s, queries, listing, oracle, q, gone, order, deleted, zone');
      return gone, [], zone', Some(NameRequired), order;
    }
    ScannerOwns(s, queries, listing, q);
    var removed: seq<R>;
    ghost var hit: seq<nat>, m: nat;
    zone'', removed, gone', err, hit, m := ScanQuery(s, listing, zone', queries[q], oracle, gone, owners, q);
    deleted' := deleted + removed;
    order' := order + hit;
    if err.None? {
      Advance(s, queries, listing, oracle, q, gone, order, deleted, zone', gone', removed, hit, zone'');
    } else {
      Abort(s, queries, listing, oracle, q, gone, order, deleted, zone', gone', removed, hit, zone'', m, err.value);
    }
  }

  /** An empty query name stops the call before the query scans anything. */
  lemma NameStops<R>(s: Scanner<R>, queries: seq<RR>, listing: Zone, oracle: Oracle, q: nat,
                     gone: seq<bool>, order: seq<nat>, deleted: seq<R>, zone': Zone)
    requires q < |queries| && queries[q].name == ""
    requires Progress(s, queries, listing, oracle, q, gone, order, deleted, zone')
    ensures Stopped(s, queries, listing, oracle, NameRequired, order, [], zone')
  {
    HaltAt(s, queries, listing, oracle, q, gone, order, deleted, zone');
  }

  /** A query whose scan completes takes exactly the records it owns. */
  lemma Advance<R>(s: Scanner<R>, queries: seq<RR>, listing: Zone, oracle: Oracle, q: nat,
                   gone: seq<bool>, order: seq<nat>, deleted: seq<R>, zone': Zone,
                   gone': seq<bool>, removed: seq<R>, hit: seq<nat>, zone'': Zone)
    requires q < |queries| && |queries[q].name| > 0
    requires Progress(s, queries, listing, oracle, q, gone, order, deleted, zone')
    requires Scanned(s, listing, oracle, Owners(s, queries, listing), q, |listing|, zone', gone', removed, hit, zone'')
    ensures Progress(s, queries, listing, oracle, q + 1, gone', order + hit, deleted + removed, zone'')
  {
    var owners := Owners(s, queries, listing);
    JoinPositions(s, listing, order, hit);
    WithoutTwice(listing, IdsAt(listing, order), IdsAt(listing, hit));
    assert OrderOf(owners, q + 1) == order + hit;
    assert forall i :: 0 <= i < |listing| ==> (gone'[i] <==> owners[i] < q + 1);
    assert forall i :: 0 <= i < |listing| ==> Passable(s, listing[i]) by {
      forall i | 0 <= i < |listing|
        ensures Passable(s, listing[i])
      {
        if owners[i] >= q {
          assert Passable(s, listing[i]);
        }
      }
    }
  }

  /** A scan stopped at a blocking record leaves a prefix of the deletion
      order done, and the call cannot succeed. */
  lemma Abort<R>(s: Scanner<R>, queries: seq<RR>, listing: Zone, oracle: Oracle, q: nat,
                 gone: seq<bool>, order: seq<nat>, deleted: seq<R>, zone': Zone,
                 gone': seq<bool>, removed: seq<R>, hit: seq<nat>, zone'': Zone, m: nat, e: Error)
    requires q < |queries| && |queries[q].name| > 0
    requires Progress(s, queries, listing, oracle, q, gone, order, deleted, zone')
    requires m < |listing| && e == StopError(s, listing[m])
    requires Scanned(s, listing, oracle, Owners(s, queries, listing), q, m, zone', gone', removed, hit, zone'')
    requires Blocked(s, listing, oracle, Owners(s, queries, listing), q, m)
    ensures Stopped(s, queries, listing, oracle, e, order + hit, deleted + removed, zone'')
  {
    var owners := Owners(s, queries, listing);
    JoinPositions(s, listing, order, hit);
    WithoutTwice(listing, IdsAt(listing, order), IdsAt(listing, hit));
    ScanStopIs(s, listing, oracle, owners, q, m);
    HaltAt(s, queries, listing, oracle, q, gone, order, deleted, zone');
  }

  /** The state of query q's scan once it has passed the first j listed
      records: it has taken, in listing order, the records below j that q
      owns, deleted their IDs from the zone it started with, and marked them
      gone; everything it passed was passable or already gone, and every
      record it took could be deleted. */
  ghost predicate Scanned<R>(s: Scanner<R>, listing: Zone, oracle: Oracle, owners: seq<nat>, q: nat, j: nat,
                             zone: Zone, gone: seq<bool>, removed: seq<R>, hit: seq<nat>, zone': Zone)
  {
    && j <= |listing| == |owners| == |gone|
    && (forall i :: 0 <= i < |listing| ==> (gone[i] <==> owners[i] < q || (owners[i] == q && i < j)))
    && hit == HitPositions(owners, q, j)
    && ValidPositions(s, listing, hit)
    && removed == Views(s, listing, hit)
    && zone' == Without(zone, IdsAt(listing, hit))
    && (forall i :: 0 <= i < j && owners[i] >= q ==> Passable(s, listing[i]))
    && (forall i :: 0 <= i < j && owners[i] == q ==> oracle.deleteOk(listing[i].id))
  }

  /** Record m stops query q's scan: no earlier query took it, and it either
      does not convert (and is no PTR record) or is q's own and cannot be
      deleted. */
  predicate Blocked<R>(s: Scanner<R>, listing: Zone, oracle: Oracle, owners: seq<nat>, q: nat, m: nat)
    requires m < |listing| == |owners|
  {
    owners[m] >= q && (!Passable(s, listing[m]) || (owners[m] == q && !oracle.deleteOk(listing[m].id)))
  }

  /** The error of a scan stopped at d: its conversion failure, or else the
      failed delete of its ID. */
  function StopError<R>(s: Scanner<R>, d: DomainRecord): (e: Error)
    ensures e.ConvertFailed? <==> s.convert(d).Failure?
    ensures e.DeleteFailed? <==> s.convert(d).Success?
  {
    match s.convert(d)
    case Failure(e) => ConvertFailed(e)
    case Success(_) => DeleteFailed(d.id)
  }

  function ScanStopFrom<R>(s: Scanner<R>, listing: Zone, oracle: Oracle, owners: seq<nat>, q: nat, j: nat): (m: nat)
    requires j <= |listing| == |owners|
    ensures j <= m <= |listing|
    ensures forall i :: j <= i < m ==> !Blocked(s, listing, oracle, owners, q, i)
    ensures m < |listing| ==> Blocked(s, listing, oracle, owners, q, m)
    decreases |listing| - j
  {
    if j == |listing| || Blocked(s, listing, oracle, owners, q, j) then j
    else ScanStopFrom(s, listing, oracle, owners, q, j + 1)
  }

  /** Where query q's scan stops: the first record that blocks it, or the
      end of the listing. */
  function ScanStop<R>(s: Scanner<R>, listing: Zone, oracle: Oracle, owners: seq<nat>, q: nat): (m: nat)
    requires |listing| == |owners|
    ensures m <= |listing|
    ensures forall i :: 0 <= i < m ==> !Blocked(s, listing, oracle, owners, q, i)
    ensures m < |listing| ==> Blocked(s, listing, oracle, owners, q, m)
  {
    ScanStopFrom(s, listing, oracle, owners, q, 0)
  }

  /** Only one position fits the description of a scan's stop. */
  lemma ScanStopIs<R>(s: Scanner<R>, listing: Zone, oracle: Oracle, owners: seq<nat>, q: nat, m: nat)
    requires m <= |listing| == |owners|
    requires forall i :: 0 <= i < m ==> !Blocked(s, listing, oracle, owners, q, i)
    requires m < |listing| ==> Blocked(s, listing, oracle, owners, q, m)
    ensures m == ScanStop(s, listing, oracle, owners, q)
  {
  }

  /** Query q halts the call: its name is empty, or its scan is blocked. */
  predicate Halts<R>(s: Scanner<R>, queries: seq<RR>, listing: Zone, oracle: Oracle, q: nat)
    requires q < |queries|
  {
    queries[q].name == "" || ScanStop(s, listing, oracle, Owners(s, queries, listing), q) < |listing|
  }

  function HaltFrom<R>(s: Scanner<R>, queries: seq<RR>, listing: Zone, oracle: Oracle, q: nat): (h: nat)
    requires q <= |queries|
    ensures q <= h <= |queries|
    ensures forall p :: q <= p < h ==> !Halts(s, queries, listing, oracle, p)
    ensures h < |queries| ==> Halts(s, queries, listing, oracle, h)
    decreases |queries| - q
  {
    if q == |queries| || Halts(s, queries, listing, oracle, q) then q
    else HaltFrom(s, queries, listing, oracle, q + 1)
  }

  /** The query at which a delete call halts, or |queries| when none does. */
  function HaltQuery<R>(s: Scanner<R>, queries: seq<RR>, listing: Zone, oracle: Oracle): (h: nat)
    ensures h <= |queries|
    ensures forall p :: 0 <= p < h ==> !Halts(s, queries, listing, oracle, p)
    ensures h < |queries| ==> Halts(s, queries, listing, oracle, h)
  {
    HaltFrom(s, queries, listing, oracle, 0)
  }

  /** Only one query fits the description of the halt. */
  lemma HaltQueryIs<R>(s: Scanner<R>, queries: seq<RR>, listing: Zone, oracle: Oracle, h: nat)
    requires h <= |queries|
    requires forall p :: 0 <= p < h ==> !Halts(s, queries, listing, oracle, p)
    requires h < |queries| ==> Halts(s, queries, listing, oracle, h)
    ensures h == HaltQuery(s, queries, listing, oracle)
  {
  }

  /** The listing positions a delete call has removed when it returns: none
      when the listing fails; otherwise the positions of every query before
      the halting one, followed, unless the halting query has no name, by
      those its scan took before the blocking record. This is a prefix of
      DeletionOrder, and all of it when nothing halts. */
  function DonePositions<R>(s: Scanner<R>, queries: seq<RR>, listing: Zone, oracle: Oracle): (r: seq<nat>)
    ensures r <= DeletionOrder(s, queries, listing)
    ensures ValidPositions(s, listing, r)
    ensures oracle.listOk && HaltQuery(s, queries, listing, oracle) == |queries| ==> r == DeletionOrder(s, queries, listing)
  {
    var owners := Owners(s, queries, listing);
    var h := HaltQuery(s, queries, listing, oracle);
    OrderIsValid(s, queries, listing);
    if !oracle.listOk then []
    else if h == |queries| || queries[h].name == "" then
      OrderPrefix(owners, h, |queries|);
      ValidPrefix(s, listing, OrderOf(owners, h), DeletionOrder(s, queries, listing));
      OrderOf(owners, h)
    else
      var m := ScanStop(s, listing, oracle, owners, h);
      ScanPrefix(owners, h, m, |queries|);
      ValidPrefix(s, listing, OrderOf(owners, h) + HitPositions(owners, h, m), DeletionOrder(s, queries, listing));
      OrderOf(owners, h) + HitPositions(owners, h, m)
  }

  /** The halt agrees with the success condition: once the listing works, a
      call halts at no query exactly when it succeeds. */
  lemma NoHaltIffSucceeds<R>(s: Scanner<R>, queries: seq<RR>, listing: Zone, oracle: Oracle)
    requires oracle.listOk
    ensures DeleteError(s, queries, listing, oracle).None? <==> DeleteSucceeds(s, listing, queries, oracle)
  {
    var owners := Owners(s, queries, listing);
    if DeleteSucceeds(s, listing, queries, oracle) {
      forall p | 0 <= p < |queries|
        ensures !Halts(s, queries, listing, oracle, p)
      {
        ScanStopIs(s, listing, oracle, owners, p, |listing|);
      }
      HaltQueryIs(s, queries, listing, oracle, |queries|);
    }
    if HaltQuery(s, queries, listing, oracle) == |queries| {
      forall p | 0 <= p < |queries|
        ensures |queries[p].name| > 0
      {
        assert !Halts(s, queries, listing, oracle, p);
      }
      if |queries| > 0 {
        forall j | 0 <= j < |listing|
          ensures Passable(s, listing[j])
        {
          assert !Blocked(s, listing, oracle, owners, 0, j);
        }
      }
      forall j | 0 <= j < |listing| && owners[j] < |queries|
        ensures oracle.deleteOk(listing[j].id)
      {
        var p := owners[j];
        assert !Halts(s, queries, listing, oracle, p);
        assert ScanStop(s, listing, oracle, owners, p) == |listing|;
        assert !Blocked(s, listing, oracle, owners, p, j);
      }
    }
  }

  /** A prefix of positions of converted records holds only such positions. */
  lemma ValidPrefix<R>(s: Scanner<R>, listing: Zone, a: seq<nat>, b: seq<nat>)
    requires a <= b && ValidPositions(s, listing, b)
    ensures ValidPositions(s, listing, a)
  {
    forall k | 0 <= k < |a|
      ensures a[k] < |listing| && s.convert(listing[a[k]]).Success?
    {
      assert a[k] == b[k];
    }
  }

  /** The error a delete call returns: the listing's failure; else none when
      no query halts; else the missing name of the halting query, or the
      error of the record that blocks its scan. */
  function DeleteError<R>(s: Scanner<R>, queries: seq<RR>, listing: Zone, oracle: Oracle): Option<Error> {
    var h := HaltQuery(s, queries, listing, oracle);
    if !oracle.listOk then Some(ListFailed)
    else if h == |queries| then None
    else if queries[h].name == "" then Some(NameRequired)
    else Some(StopError(s, listing[ScanStop(s, listing, oracle, Owners(s, queries, listing), h)]))
  }

  /** One query's scan of the listing: it deletes, in listing order, each
      record no earlier query took that the query hits. A record that does
      not convert stops the scan with its error, unless it is a PTR record,
      which is passed over; a failed delete stops the scan too. The scan
      stops at m, which is the end of the listing exactly when it succeeds. */
  method ScanQuery<R>(s: Scanner<R>, listing: Zone, zone: Zone, rr: RR, oracle: Oracle, gone: seq<bool>,
                      ghost owners: seq<nat>, ghost q: nat)
    returns (zone': Zone, removed: seq<R>, gone': seq<bool>, err: Option<Error>,
             ghost hit: seq<nat>, ghost m: nat)
    requires |gone| == |listing| == |owners|
    requires forall i :: 0 <= i < |listing| ==> (gone[i] <==> owners[i] < q)
    requires forall i :: 0 <= i < |listing| && owners[i] >= q ==> (owners[i] == q <==> Hits(s, rr, listing[i]))
    ensures m <= |listing| && Scanned(s, listing, oracle, owners, q, m, zone, gone', removed, hit, zone')
    ensures err.None? <==> m == |listing|
    ensures err.Some? ==> err.value.ConvertFailed? || err.value.DeleteFailed?
    ensures err.Some? ==> Blocked(s, listing, oracle, owners, q, m)
    ensures err.Some? ==> m < |listing| && err == Some(StopError(s, listing[m]))
    ensures err.None? ==> forall i :: 0 <= i < |listing| ==> (gone'[i] <==> owners[i] <= q)
  {
    zone' := zone;
    removed := [];
    gone' := gone;
    hit := [];
    WithoutNothing(zone);
    var j := 0;
    while j < |listing|
      invariant j <= |listing|
      invariant Scanned(s, listing, oracle, owners, q, j, zone, gone', removed, hit, zone')
    {
      zone', removed, gone', err, hit := ScanRecord(s, listing, zone, rr, oracle, owners, q, j, zone', removed, gone', hit);
      if err.Some? {
        return zone', removed, gone', err, hit, j;
      }
      j := j + 1;
    }
    m := j;
    err := None;
  }

  /** Query q's scan at listed record j: skip it when gone, when it is a PTR
      record that does not convert, or when the query does not match it;
      stop on any other conversion failure or a failed delete; otherwise
      delete it. A stopped step changes nothing. */
  method ScanRecord<R>(s: Scanner<R>, listing: Zone, zone: Zone, rr: RR, oracle: Oracle,
                       ghost owners: seq<nat>, ghost q: nat, j: nat,
                       zone': Zone, removed: seq<R>, gone: seq<bool>, ghost hit: seq<nat>)
    returns (zone'': Zone, removed': seq<R>, gone': seq<bool>, err: Option<Error>, ghost hit': seq<nat>)
    requires j < |listing|
    requires Scanned(s, listing, oracle, owners, q, j, zone, gone, removed, hit, zone')
    requires owners[j] >= q ==> (owners[j] == q <==> Hits(s, rr, listing[j]))
    ensures err.None? ==> Scanned(s, listing, oracle, owners, q, j + 1, zone, gone', removed', hit', zone'')
    ensures err.Some? ==> zone'' == zone' && removed' == removed && gone' == gone && hit' == hit
    ensures err.Some? ==> (err.value.ConvertFailed? || err.value.DeleteFailed?) && Blocked(s, listing, oracle, owners, q, j)
    ensures err.Some? ==> err == Some(StopError(s, listing[j]))
  {
    if gone[j] {
      SkipRecord(s, listing, oracle, owners, q, j, zone, gone, removed, hit, zone');
      return zone', removed, gone, None, hit;
    }
    var converted := s.convert(listing[j]);
    if converted.Failure? {
      if listing[j].rtype != TypePTR {
        return zone', removed, gone, Some(ConvertFailed(converted.error)), hit;
      }
      SkipRecord(s, listing, oracle, owners, q, j, zone, gone, removed, hit, zone');
      return zone', removed, gone, None, hit;
    }
    if !WildMatch(rr, s.view(converted.value)) {
      SkipRecord(s, listing, oracle, owners, q, j, zone, gone, removed, hit, zone');
      return zone', removed, gone, None, hit;
    }
    var id := listing[j].id;
    if !oracle.deleteOk(id) {
      return zone', removed, gone, Some(DeleteFailed(id)), hit;
    }
    TakeRecord(s, listing, oracle, owners, q, j, zone, gone, removed, hit, zone');
    zone'' := Without(zone', {id});
    removed' := removed + [converted.value];
    gone' := gone[j := true];
    err := None;
    hit' := hit + [j];
  }

  /** Passing over a record the query does not own keeps the scan state. */
  lemma SkipRecord<R>(s: Scanner<R>, listing: Zone, oracle: Oracle, owners: seq<nat>, q: nat, j: nat,
                      zone: Zone, gone: seq<bool>, removed: seq<R>, hit: seq<nat>, zone': Zone)
    requires j < |listing|
    requires Scanned(s, listing, oracle, owners, q, j, zone, gone, removed, hit, zone')
    requires owners[j] != q && (owners[j] >= q ==> Passable(s, listing[j]))
    ensures Scanned(s, listing, oracle, owners, q, j + 1, zone, gone, removed, hit, zone')
  {
  }

  /** Deleting a record the query owns extends the scan state by it. */
  lemma TakeRecord<R>(s: Scanner<R>, listing: Zone, oracle: Oracle, owners: seq<nat>, q: nat, j: nat,
                      zone: Zone, gone: seq<bool>, removed: seq<R>, hit: seq<nat>, zone': Zone)
    requires j < |listing|
    requires Scanned(s, listing, oracle, owners, q, j, zone, gone, removed, hit, zone')
    requires owners[j] == q && s.convert(listing[j]).Success? && oracle.deleteOk(listing[j].id)
    ensures Scanned(s, listing, oracle, owners, q, j + 1, zone, gone[j := true],
                    removed + [s.convert(listing[j]).value], hit + [j], Without(zone', {listing[j].id}))
  {
    var gone' := gone[j := true];
    WithoutTwice(zone, IdsAt(listing, hit), {listing[j].id});
    AppendPosition(s, listing, hit, j);
    assert HitPositions(owners, q, j + 1) == hit + [j];
    forall i | 0 <= i < |listing|
      ensures gone'[i] <==> owners[i] < q || (owners[i] == q && i < j + 1)
    {
      if i != j {
        assert gone'[i] == gone[i];
      }
    }
    forall i | 0 <= i < j + 1 && owners[i] >= q
      ensures Passable(s, listing[i]) && (owners[i] == q ==> oracle.deleteOk(listing[i].id))
    {
    }
  }

  /** deleteDomainRecords: the deletion loop with the provider's scanner,
      each query compared through its RR() view. */
  method DeleteDomainRecords(zone: Zone, queries: seq<Record>, oracle: Oracle)
    returns (zone': Zone, deleted: seq<Record>, err: Option<Error>)
    ensures !oracle.listOk ==> zone' == zone && deleted == [] && err == Some(ListFailed)
    ensures err.None? <==> DeleteSucceeds(Translation, zone, RRs(queries), oracle)
    ensures err.None? ==>
              var order := DeletionOrder(Translation, RRs(queries), zone);
              ValidPositions(Translation, zone, order)
              && deleted == Views(Translation, zone, order)
              && zone' == Without(zone, IdsAt(zone, order))
    ensures err == DeleteError(Translation, RRs(queries), zone, oracle)
    ensures var done := DonePositions(Translation, RRs(queries), zone, oracle);
            && zone' == Without(zone, IdsAt(zone, done))
            && deleted == (if err == Some(NameRequired) then [] else Views(Translation, zone, done))
  {
    zone', deleted, err := DeleteLoop(Translation, zone, RRs(queries), oracle);
  }

  /** The owners as query q starts its scan: of the records no earlier query
      took, q takes exactly those it hits. */
  lemma ScannerOwns<R>(s: Scanner<R>, queries: seq<RR>, listing: Zone, q: nat)
    requires q < |queries|
    ensures forall i :: 0 <= i < |listing| && Owners(s, queries, listing)[i] >= q ==>
              (Owners(s, queries, listing)[i] == q <==> Hits(s, queries[q], listing[i]))
  {
    forall i | 0 <= i < |listing| && Owners(s, queries, listing)[i] >= q
      ensures Owners(s, queries, listing)[i] == q <==> Hits(s, queries[q], listing[i])
    {
      OwnersAt(s, queries, listing, i);
    }
  }

  lemma AppendPosition<R>(s: Scanner<R>, listing: Zone, positions: seq<nat>, j: nat)
    requires ValidPositions(s, listing, positions)
    requires j < |listing| && s.convert(listing[j]).Success?
    ensures ValidPositions(s, listing, positions + [j])
    ensures Views(s, listing, positions + [j]) == Views(s, listing, positions) + [s.convert(listing[j]).value]
    ensures IdsAt(listing, positions + [j]) == IdsAt(listing, positions) + {listing[j].id}
  {
    assert (positions + [j])[..|positions|] == positions;
  }

  /** Views and IDs of a concatenation of position lists. */
  lemma {:induction false} JoinPositions<R>(s: Scanner<R>, listing: Zone, a: seq<nat>, b: seq<nat>)
    requires ValidPositions(s, listing, a) && ValidPositions(s, listing, b)
    ensures ValidPositions(s, listing, a + b)
    ensures Views(s, listing, a + b) == Views(s, listing, a) + Views(s, listing, b)
    ensures IdsAt(listing, a + b) == IdsAt(listing, a) + IdsAt(listing, b)
  {
    if |b| == 0 {
      assert a + b == a;
    } else {
      var init := b[..|b| - 1];
      assert ValidPositions(s, listing, init);
      JoinPositions(s, listing, a, init);
      assert (a + b)[..|a + b| - 1] == a + init;
    }
  }

  /** The positions taken once query q has scanned up to j are a prefix of
      the positions the first n queries take. */
  lemma ScanPrefix(owners: seq<nat>, q: nat, j: nat, n: nat)
    requires q < n && j <= |owners|
    ensures OrderOf(owners, q) + HitPositions(owners, q, j) <= OrderOf(owners, n)
  {
    HitPrefix(owners, q, j, |owners|);
    OrderPrefix(owners, q + 1, n);
  }

  lemma {:induction false} HitPrefix(owners: seq<nat>, q: nat, j: nat, m: nat)
    requires j <= m <= |owners|
    ensures HitPositions(owners, q, j) <= HitPositions(owners, q, m)
    decreases m - j
  {
    if j < m {
      HitPrefix(owners, q, j, m - 1);
    }
  }

  lemma {:induction false} OrderPrefix(owners: seq<nat>, n: nat, m: nat)
    requires n <= m
    ensures OrderOf(owners, n) <= OrderOf(owners, m)
    decreases m - n
  {
    if n < m {
      OrderPrefix(owners, n, m - 1);
      PrefixExtends(OrderOf(owners, n), OrderOf(owners, m - 1), HitPositions(owners, m - 1, |owners|), OrderOf(owners, m));
    }
  }

  lemma PrefixExtends<T>(a: seq<T>, b: seq<T>, c: seq<T>, d: seq<T>)
    requires a <= b && d == b + c
    ensures a <= d
  {
    assert d[..|a|] == b[..|a|];
  }

  lemma {:induction false} HitMembership(owners: seq<nat>, q: nat, m: nat, j: nat)
    requires m <= |owners|
    ensures j in HitPositions(owners, q, m) <==> j < m && owners[j] == q
  {
    if m > 0 {
      HitMembership(owners, q, m - 1, j);
      var a := HitPositions(owners, q, m - 1);
      var b: seq<nat> := if owners[m - 1] == q then [m - 1] else [];
      assert HitPositions(owners, q, m) == a + b;
      assert j in a + b <==> j in a || j in b;
    }
  }

  lemma {:induction false} OrderMembership(owners: seq<nat>, n: nat, j: nat)
    ensures j in OrderOf(owners, n) <==> j < |owners| && owners[j] < n
  {
    if n > 0 {
      OrderMembership(owners, n - 1, j);
      HitMembership(owners, n - 1, |owners|, j);
      var a := OrderOf(owners, n - 1);
      var b := HitPositions(owners, n - 1, |owners|);
      assert OrderOf(owners, n) == a + b;
      assert j in a + b <==> j in a || j in b;
      if j < |owners| {
        assert owners[j] < n <==> owners[j] < n - 1 || owners[j] == n - 1;
      }
    } else {
      assert OrderOf(owners, n) == [];
    }
  }

  /** A listed record is deleted by the whole call exactly when some query
      hits it: equal names, and each of type, TTL and data either left at
      zero by that query or equal. */
  lemma DeletedIffSomeQueryHits(queries: seq<Record>, listing: Zone, j: nat)
    requires j < |listing|
    ensures j in DeletionOrder(Translation, RRs(queries), listing) <==>
              && ConvertToLibdns(listing[j]).Success?
              && exists p :: 0 <= p < |queries| && WildMatch(queries[p].AsRR(), ConvertToLibdns(listing[j]).value.AsRR())
  {
    var views := RRs(queries);
    OrderMembership(Owners(Translation, views, listing), |views|, j);
    OwnersAt(Translation, views, listing, j);
    if exists p :: 0 <= p < |queries| && Hits(Translation, views[p], listing[j]) {
      var p :| 0 <= p < |queries| && Hits(Translation, views[p], listing[j]);
      assert Owner(Translation, views, listing[j]) <= p;
    }
  }

  predicate Increasing(s: seq<nat>) {
    forall a, b :: 0 <= a < b < |s| ==> s[a] < s[b]
  }

  /** Sorted by first hitting query, then by position. */
  predicate SortedByOwner(owners: seq<nat>, s: seq<nat>) {
    forall a, b :: 0 <= a < b < |s| ==>
      && s[a] < |owners| && s[b] < |owners|
      && (owners[s[a]] < owners[s[b]] || (owners[s[a]] == owners[s[b]] && s[a] < s[b]))
  }

  lemma {:induction false} HitsIncrease(owners: seq<nat>, q: nat, m: nat)
    requires m <= |owners|
    ensures Increasing(HitPositions(owners, q, m))
  {
    if m > 0 {
      HitsIncrease(owners, q, m - 1);
      HitBounds(owners, q, m - 1);
      var prev := HitPositions(owners, q, m - 1);
      var r := HitPositions(owners, q, m);
      if owners[m - 1] == q {
        assert r == prev + [m - 1];
        forall a, b | 0 <= a < b < |r|
          ensures r[a] < r[b]
        {
          if b < |prev| {
            assert r[a] == prev[a] && r[b] == prev[b];
          } else {
            assert r[a] == prev[a] && r[b] == m - 1;
          }
        }
      } else {
        assert r == prev;
      }
    }
  }

  lemma {:induction false} OrderSorted(owners: seq<nat>, n: nat)
    ensures SortedByOwner(owners, OrderOf(owners, n))
  {
    if n > 0 {
      OrderSorted(owners, n - 1);
      OrderBounds(owners, n - 1);
      HitBounds(owners, n - 1, |owners|);
      HitsIncrease(owners, n - 1, |owners|);
      SortedJoin(owners, OrderOf(owners, n - 1), HitPositions(owners, n - 1, |owners|), n - 1);
    }
  }

  /** Positions of earlier queries followed by increasing positions of query
      q stay sorted by owner, then position. */
  lemma SortedJoin(owners: seq<nat>, prev: seq<nat>, hits: seq<nat>, q: nat)
    requires forall k :: 0 <= k < |prev| ==> prev[k] < |owners| && owners[prev[k]] < q
    requires forall k :: 0 <= k < |hits| ==> hits[k] < |owners| && owners[hits[k]] == q
    requires SortedByOwner(owners, prev) && Increasing(hits)
    ensures SortedByOwner(owners, prev + hits)
  {
    var r := prev + hits;
    forall a, b | 0 <= a < b < |r|
      ensures owners[r[a]] < owners[r[b]] || (owners[r[a]] == owners[r[b]] && r[a] < r[b])
    {
      if b < |prev| {
        assert r[a] == prev[a] && r[b] == prev[b];
      } else if a < |prev| {
        assert r[a] == prev[a] && r[b] == hits[b - |prev|];
      } else {
        assert r[a] == hits[a - |prev|] && r[b] == hits[b - |prev|];
      }
    }
  }

  /** The deletion order runs query by query (by first hitting query), and
      by listing position within one query; so no position occurs twice and
      no listed record is deleted twice in one call. */
  lemma OrderedByQueryThenListing<R>(s: Scanner<R>, queries: seq<RR>, listing: Zone)
    ensures SortedByOwner(Owners(s, queries, listing), DeletionOrder(s, queries, listing))
    ensures var r := DeletionOrder(s, queries, listing);
            forall a, b :: 0 <= a < b < |r| ==> r[a] != r[b]
  {
    OrderSorted(Owners(s, queries, listing), |queries|);
  }
}
