/** The identifier source that stands in for `uuidv4`: a counter threaded
    through the run, so that every identifier it hands out is new. */
module Ids {

  type Uuid = nat

  /** The next identifier the source will hand out. */
  datatype IdSource = IdSource(next: nat)

  /** One call of `uuidv4`: an identifier no earlier call returned and no
      later call on the returned source can return. */
  function Fresh(src: IdSource): (r: (Uuid, IdSource))
    ensures src.next <= r.0 < r.1.next
    ensures r.1.next == src.next + 1
  {
    (src.next, IdSource(src.next + 1))
  }

  /** No identifier occurs twice. */
  predicate Distinct(ids: seq<Uuid>) {
    forall j, k :: 0 <= j < k < |ids| ==> ids[j] != ids[k]
  }

  /** Every identifier was drawn between the source states `lo` and `hi`. */
  predicate Within(ids: seq<Uuid>, lo: nat, hi: nat) {
    forall k :: 0 <= k < |ids| ==> lo <= ids[k] < hi
  }

  /** Identifiers drawn from disjoint stretches of the counter never clash,
      whichever stretch was drawn first. */
  lemma DistinctJoin(a: seq<Uuid>, b: seq<Uuid>, la: nat, ha: nat, lb: nat, hb: nat)
    requires Distinct(a) && Within(a, la, ha)
    requires Distinct(b) && Within(b, lb, hb)
    requires ha <= lb || hb <= la
    ensures Distinct(a + b)
  {
    forall j, k | 0 <= j < k < |a + b| ensures (a + b)[j] != (a + b)[k] {
      if k >= |a| && j < |a| {
        assert (a + b)[j] == a[j] && (a + b)[k] == b[k - |a|];
      }
    }
  }

  lemma WithinJoin(a: seq<Uuid>, b: seq<Uuid>, lo: nat, hi: nat)
    requires Within(a, lo, hi) && Within(b, lo, hi)
    ensures Within(a + b, lo, hi)
  {
    forall k | 0 <= k < |a + b| ensures lo <= (a + b)[k] < hi {
      if k >= |a| { assert (a + b)[k] == b[k - |a|]; }
    }
  }
}
