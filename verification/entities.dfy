/** The product record shared by the catalog, the detail page, the admin panel and the server. */
module Entities {
  import opened Seqs

  /**
   * A catalog product. `drawingUrl` is `""` when there is no technical
   * drawing (the server always writes the field, `""` when none was
   * uploaded; a missing field reads the same way in every check the client
   * makes). `finishType` is free text on the wire; the site's forms offer
   * Injeção, Cromagem, Pintura and Metalização.
   */
  datatype Product = Product(
    id: int,
    name: string,
    code: string,
    imageUrl: string,
    drawingUrl: string,
    description: string,
    specs: seq<string>,
    material: string,
    finishType: string)

  /** All ids differ. */
  predicate DistinctIds(ps: seq<Product>) {
    forall i, j :: 0 <= i < j < |ps| ==> ps[i].id != ps[j].id
  }

  /** `ps.filter(p => p.id !== id)`: every entry with that id removed, the others kept in order. */
  function RemoveId(ps: seq<Product>, id: int): (r: seq<Product>)
    ensures IsSubsequence(r, ps)
    ensures forall i :: 0 <= i < |r| ==> r[i] in ps && r[i].id != id
    ensures forall i :: 0 <= i < |ps| && ps[i].id != id ==> ps[i] in r
    ensures |r| == |ps| <==> forall i :: 0 <= i < |ps| ==> ps[i].id != id
    ensures |r| == |ps| ==> r == ps
    ensures forall p :: multiset(r)[p] == if p.id != id then multiset(ps)[p] else 0
  {
    FilterMultiset(ps, (p: Product) => p.id != id);
    Filter(ps, (p: Product) => p.id != id)
  }

  /** An order-preserving sublist of a list with distinct ids has distinct ids. */
  lemma {:induction false} SubsequenceKeepsIdsDistinct(a: seq<Product>, b: seq<Product>)
    requires IsSubsequence(a, b) && DistinctIds(b)
    ensures DistinctIds(a)
    decreases |b|
  {
    if a != [] {
      if a[0] == b[0] && IsSubsequence(a[1..], b[1..]) {
        SubsequenceKeepsIdsDistinct(a[1..], b[1..]);
        forall j | 0 < j < |a|
          ensures a[0].id != a[j].id
        {
          assert a[1..][j - 1] == a[j];
          SubsequenceMember(a[1..], b[1..], j - 1);
          var m :| 0 <= m < |b[1..]| && b[1..][m] == a[j];
          assert b[m + 1] == a[j];
        }
      } else {
        SubsequenceKeepsIdsDistinct(a, b[1..]);
      }
    }
  }

  /** Each element of a subsequence of `b[1..]` sits at a positive index of `b`. */
  lemma {:induction false} SubsequenceMember(a: seq<Product>, tail: seq<Product>, k: nat)
    requires IsSubsequence(a, tail) && k < |a|
    ensures exists m :: 0 <= m < |tail| && tail[m] == a[k]
    decreases |tail|
  {
    assert tail != [];
    if a[0] == tail[0] && IsSubsequence(a[1..], tail[1..]) {
      if k > 0 {
        SubsequenceMember(a[1..], tail[1..], k - 1);
        var m :| 0 <= m < |tail[1..]| && tail[1..][m] == a[1..][k - 1];
        assert tail[m + 1] == a[k];
      }
    } else {
      SubsequenceMember(a, tail[1..], k);
      var m :| 0 <= m < |tail[1..]| && tail[1..][m] == a[k];
      assert tail[m + 1] == a[k];
    }
  }
}
