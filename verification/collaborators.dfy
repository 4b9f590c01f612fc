/** The provider seen from the core: the records of the resolved domain, and
    an oracle deciding how each collaborator call (list, delete, create)
    turns out. Transport, authentication and pagination are behind it. */
module Collaborators {
  import opened Wrappers
  import opened Linode

  /** The records of one domain, in the order the provider lists them. */
  type Zone = seq<DomainRecord>

  /** The zone after deleting by ID every record whose ID is in ids. */
  function Without(z: Zone, ids: set<int>): (r: Zone)
    ensures |r| <= |z|
  {
    if |z| == 0 then []
    else Without(z[..|z| - 1], ids) + (if z[|z| - 1].id in ids then [] else [z[|z| - 1]])
  }

  /** Exactly the records whose ID is not deleted survive, in zone order. */
  lemma {:induction false} WithoutKeeps(z: Zone, ids: set<int>)
    ensures forall d :: d in Without(z, ids) <==> d in z && d.id !in ids
  {
    if |z| > 0 {
      WithoutKeeps(z[..|z| - 1], ids);
      assert z == z[..|z| - 1] + [z[|z| - 1]];
    }
  }

  /** Deleting in two rounds is deleting the union at once. */
  lemma {:induction false} WithoutTwice(z: Zone, a: set<int>, b: set<int>)
    ensures Without(Without(z, a), b) == Without(z, a + b)
  {
    if |z| > 0 {
      var init := z[..|z| - 1];
      var last := z[|z| - 1];
      WithoutTwice(init, a, b);
      var w := Without(init, a);
      var rest: Zone := if last.id in a + b then [] else [last];
      assert Without(z, a + b) == Without(init, a + b) + rest;
      if last.id in a {
        assert Without(z, a) == w;
      } else {
        var wx := w + [last];
        assert Without(z, a) == wx;
        assert wx[..|wx| - 1] == w && wx[|wx| - 1] == last;
        assert Without(wx, b) == Without(w, b) + rest;
      }
    }
  }

  /** Deleting no ID leaves the zone as it is. */
  lemma {:induction false} WithoutNothing(z: Zone)
    ensures Without(z, {}) == z
  {
    if |z| > 0 {
      WithoutNothing(z[..|z| - 1]);
      assert z[..|z| - 1] + [z[|z| - 1]] == z;
    }
  }

  /** Provider-assigned IDs are unique within a domain. */
  predicate UniqueIds(z: Zone) {
    forall i, j :: 0 <= i < j < |z| ==> z[i].id != z[j].id
  }

  /** How the collaborator calls of one operation turn out: whether the one
      listing succeeds, whether deleting a given record ID succeeds, and what
      the create call for the k-th input returns (None for a failure). */
  datatype Oracle = Oracle(
    listOk: bool,
    deleteOk: int -> bool,
    create: (nat, CreateOptions) -> Option<DomainRecord>)

  /** A provider that stores every create request as given, under some ID. */
  ghost predicate Faithful(oracle: Oracle) {
    forall k: nat, o: CreateOptions ::
      oracle.create(k, o).Some? && oracle.create(k, o).value == EchoOf(o, oracle.create(k, o).value.id)
  }
}
