/**
 * `__compare` and `compare`: the BOM/PnP cross-check and its result
 * object.  The result holds four lists, each sorted naturally by designator:
 * BOM parts missing in the PnP, PnP parts missing in the BOM, parts whose
 * comments differ, and PnP parts placed too close to each other.
 */
module CrossCheck {
  import opened Base
  import opened OrderedDict
  import opened Sorting
  import opened TextGrid
  import opened CrossCheckExtract
  import opened CrossCheckCoords
  import opened CrossCheckDistances

  /** `(part_designator, part_comment)` */
  datatype Missing = Missing(designator: string, comment: string)

  /** `(part_designator, bom_comment, pnp_comment, pnp_footprint)` */
  datatype Mismatch = Mismatch(designator: string, bomComment: string, pnpComment: string, pnpFootprint: string)

  /** `CrossCheckResult`: the four lists a cross-check fills. */
  class CrossCheckResult {
    var bomPartsMissingInPnp: seq<Missing>
    var pnpPartsMissingInBom: seq<Missing>
    var partsCommentMismatch: seq<Mismatch>
    var partsCoordConflicts: seq<Conflict>

    /** A new result has four empty lists. */
    constructor ()
      ensures bomPartsMissingInPnp == [] && pnpPartsMissingInBom == []
      ensures partsCommentMismatch == [] && partsCoordConflicts == []
    {
      bomPartsMissingInPnp := [];
      pnpPartsMissingInBom := [];
      partsCommentMismatch := [];
      partsCoordConflicts := [];
    }
  }

  /** `comment or "?"`: an empty BOM comment is shown as a question mark. */
  function OrUnknown(comment: string): (r: string)
    ensures r != ""
    ensures comment != "" ==> r == comment
    ensures comment == "" ==> r == "?"
  {
    if comment == "" then "?" else comment
  }

  /* ---------------- BOM parts missing in the PnP ---------------- */

  /** The BOM loop over the first `k` designators. */
  function BomOnlyUpTo(bom: PartIndex, pnp: PartIndex, k: int): seq<Missing>
    requires Valid(bom) && 0 <= k <= |bom.keys|
  {
    if k == 0 then []
    else
      var d := bom.keys[k - 1];
      BomOnlyUpTo(bom, pnp, k - 1)
        + (if d != "" && d !in pnp.entries then [Missing(d, OrUnknown(bom.entries[d].comment))] else [])
  }

  /** `bom_parst_missing_in_pnp` before sorting. */
  function BomOnly(bom: PartIndex, pnp: PartIndex): seq<Missing>
    requires Valid(bom)
  {
    BomOnlyUpTo(bom, pnp, |bom.keys|)
  }

  lemma {:induction false} BomOnlyUpToMembers(bom: PartIndex, pnp: PartIndex, k: int, e: Missing)
    requires Valid(bom) && 0 <= k <= |bom.keys|
    ensures e in BomOnlyUpTo(bom, pnp, k) <==>
      && e.designator in bom.keys[..k]
      && e.designator != "" && e.designator !in pnp.entries
      && e.comment == OrUnknown(bom.entries[e.designator].comment)
  {
    if k > 0 {
      BomOnlyUpToMembers(bom, pnp, k - 1, e);
      assert bom.keys[..k] == bom.keys[..k - 1] + [bom.keys[k - 1]];
    }
  }

  /**
   * A BOM part is listed as missing in the PnP exactly when its designator is
   * not empty and not in the PnP; its comment, or "?" when it has none, comes
   * with it.
   */
  lemma BomOnlyMembers(bom: PartIndex, pnp: PartIndex, e: Missing)
    requires Valid(bom)
    ensures e in BomOnly(bom, pnp) <==>
      && e.designator in bom.entries
      && e.designator != "" && e.designator !in pnp.entries
      && e.comment == OrUnknown(bom.entries[e.designator].comment)
  {
    BomOnlyUpToMembers(bom, pnp, |bom.keys|, e);
    assert bom.keys[..|bom.keys|] == bom.keys;
  }

  /** The first loop of `__compare` and the natural sort after it. */
  method CollectBomOnly(result: CrossCheckResult, bom: PartIndex, pnp: PartIndex, natLe: (string, string) -> bool)
    requires Valid(bom)
    requires result.bomPartsMissingInPnp == []
    modifies result
    ensures result.bomPartsMissingInPnp == SortBy(BomOnly(bom, pnp), ByDesignator(natLe))
    ensures result.pnpPartsMissingInBom == old(result.pnpPartsMissingInBom)
    ensures result.partsCommentMismatch == old(result.partsCommentMismatch)
    ensures result.partsCoordConflicts == old(result.partsCoordConflicts)
  {
    for k := 0 to |bom.keys|
      invariant result.bomPartsMissingInPnp == BomOnlyUpTo(bom, pnp, k)
      invariant result.pnpPartsMissingInBom == old(result.pnpPartsMissingInBom)
      invariant result.partsCommentMismatch == old(result.partsCommentMismatch)
      invariant result.partsCoordConflicts == old(result.partsCoordConflicts)
    {
      var designator := bom.keys[k];
      if designator != "" && designator !in pnp.entries {
        result.bomPartsMissingInPnp := result.bomPartsMissingInPnp
          + [Missing(designator, OrUnknown(bom.entries[designator].comment))];
      }
    }
    result.bomPartsMissingInPnp := SortBy(result.bomPartsMissingInPnp, ByDesignator(natLe));
  }

  /* ---------------- PnP parts missing in the BOM ---------------- */

  /** The PnP loop over the first `k` designators. */
  function PnpOnlyUpTo(bom: PartIndex, pnp: PartIndex, k: int): seq<Missing>
    requires Valid(pnp) && 0 <= k <= |pnp.keys|
  {
    if k == 0 then []
    else
      var d := pnp.keys[k - 1];
      PnpOnlyUpTo(bom, pnp, k - 1)
        + (if d != "" && d !in bom.entries then [Missing(d, pnp.entries[d].comment)] else [])
  }

  /** `pnp_parst_missing_in_bom` before sorting. */
  function PnpOnly(bom: PartIndex, pnp: PartIndex): seq<Missing>
    requires Valid(pnp)
  {
    PnpOnlyUpTo(bom, pnp, |pnp.keys|)
  }

  lemma {:induction false} PnpOnlyUpToMembers(bom: PartIndex, pnp: PartIndex, k: int, e: Missing)
    requires Valid(pnp) && 0 <= k <= |pnp.keys|
    ensures e in PnpOnlyUpTo(bom, pnp, k) <==>
      && e.designator in pnp.keys[..k]
      && e.designator != "" && e.designator !in bom.entries
      && e.comment == pnp.entries[e.designator].comment
  {
    if k > 0 {
      PnpOnlyUpToMembers(bom, pnp, k - 1, e);
      assert pnp.keys[..k] == pnp.keys[..k - 1] + [pnp.keys[k - 1]];
    }
  }

  /**
   * A PnP part is listed as missing in the BOM exactly when its designator is
   * not empty and not in the BOM; its comment comes with it as it is.
   */
  lemma PnpOnlyMembers(bom: PartIndex, pnp: PartIndex, e: Missing)
    requires Valid(pnp)
    ensures e in PnpOnly(bom, pnp) <==>
      && e.designator in pnp.entries
      && e.designator != "" && e.designator !in bom.entries
      && e.comment == pnp.entries[e.designator].comment
  {
    PnpOnlyUpToMembers(bom, pnp, |pnp.keys|, e);
    assert pnp.keys[..|pnp.keys|] == pnp.keys;
  }

  /** The second loop of `__compare` and the natural sort after it. */
  method CollectPnpOnly(result: CrossCheckResult, bom: PartIndex, pnp: PartIndex, natLe: (string, string) -> bool)
    requires Valid(pnp)
    requires result.pnpPartsMissingInBom == []
    modifies result
    ensures result.pnpPartsMissingInBom == SortBy(PnpOnly(bom, pnp), ByDesignator(natLe))
    ensures result.bomPartsMissingInPnp == old(result.bomPartsMissingInPnp)
    ensures result.partsCommentMismatch == old(result.partsCommentMismatch)
    ensures result.partsCoordConflicts == old(result.partsCoordConflicts)
  {
    for k := 0 to |pnp.keys|
      invariant result.pnpPartsMissingInBom == PnpOnlyUpTo(bom, pnp, k)
      invariant result.bomPartsMissingInPnp == old(result.bomPartsMissingInPnp)
      invariant result.partsCommentMismatch == old(result.partsCommentMismatch)
      invariant result.partsCoordConflicts == old(result.partsCoordConflicts)
    {
      var designator := pnp.keys[k];
      if designator != "" && designator !in bom.entries {
        result.pnpPartsMissingInBom := result.pnpPartsMissingInBom
          + [Missing(designator, pnp.entries[designator].comment)];
      }
    }
    result.pnpPartsMissingInBom := SortBy(result.pnpPartsMissingInBom, ByDesignator(natLe));
  }

  /* ---------------- comment mismatches ---------------- */

  /** The mismatch loop over the first `k` BOM designators. */
  function MismatchesUpTo(bom: PartIndex, pnp: PartIndex, k: int): seq<Mismatch>
    requires Valid(bom) && 0 <= k <= |bom.keys|
  {
    if k == 0 then []
    else
      var d := bom.keys[k - 1];
      MismatchesUpTo(bom, pnp, k - 1)
        + (if d in pnp.entries && bom.entries[d].comment != pnp.entries[d].comment
           then [Mismatch(d, bom.entries[d].comment, pnp.entries[d].comment, pnp.entries[d].footprint)]
           else [])
  }

  /** `parts_comment_mismatch` before sorting. */
  function Mismatches(bom: PartIndex, pnp: PartIndex): seq<Mismatch>
    requires Valid(bom)
  {
    MismatchesUpTo(bom, pnp, |bom.keys|)
  }

  lemma {:induction false} MismatchesUpToMembers(bom: PartIndex, pnp: PartIndex, k: int, e: Mismatch)
    requires Valid(bom) && 0 <= k <= |bom.keys|
    ensures e in MismatchesUpTo(bom, pnp, k) <==>
      && e.designator in bom.keys[..k] && e.designator in pnp.entries
      && e.bomComment == bom.entries[e.designator].comment
      && e.pnpComment == pnp.entries[e.designator].comment
      && e.bomComment != e.pnpComment
      && e.pnpFootprint == pnp.entries[e.designator].footprint
  {
    if k > 0 {
      MismatchesUpToMembers(bom, pnp, k - 1, e);
      assert bom.keys[..k] == bom.keys[..k - 1] + [bom.keys[k - 1]];
    }
  }

  /**
   * A part is listed as a comment mismatch exactly when it is in both files
   * and the comments differ; it carries both comments and the PnP footprint.
   * Unlike the two lists above, an empty designator is not skipped.
   */
  lemma MismatchesMembers(bom: PartIndex, pnp: PartIndex, e: Mismatch)
    requires Valid(bom)
    ensures e in Mismatches(bom, pnp) <==>
      && e.designator in bom.entries && e.designator in pnp.entries
      && e.bomComment == bom.entries[e.designator].comment
      && e.pnpComment == pnp.entries[e.designator].comment
      && e.bomComment != e.pnpComment
      && e.pnpFootprint == pnp.entries[e.designator].footprint
  {
    MismatchesUpToMembers(bom, pnp, |bom.keys|, e);
    assert bom.keys[..|bom.keys|] == bom.keys;
  }

  /** The third loop of `__compare` and the natural sort after it. */
  method CollectMismatches(result: CrossCheckResult, bom: PartIndex, pnp: PartIndex, natLe: (string, string) -> bool)
    requires Valid(bom)
    requires result.partsCommentMismatch == []
    modifies result
    ensures result.partsCommentMismatch == SortBy(Mismatches(bom, pnp), ByMismatchDesignator(natLe))
    ensures result.bomPartsMissingInPnp == old(result.bomPartsMissingInPnp)
    ensures result.pnpPartsMissingInBom == old(result.pnpPartsMissingInBom)
    ensures result.partsCoordConflicts == old(result.partsCoordConflicts)
  {
    for k := 0 to |bom.keys|
      invariant result.partsCommentMismatch == MismatchesUpTo(bom, pnp, k)
      invariant result.bomPartsMissingInPnp == old(result.bomPartsMissingInPnp)
      invariant result.pnpPartsMissingInBom == old(result.pnpPartsMissingInBom)
      invariant result.partsCoordConflicts == old(result.partsCoordConflicts)
    {
      var designator := bom.keys[k];
      if designator in pnp.entries {
        var b, p := bom.entries[designator], pnp.entries[designator];
        if b.comment != p.comment {
          result.partsCommentMismatch := result.partsCommentMismatch
            + [Mismatch(designator, b.comment, p.comment, p.footprint)];
        }
      }
    }
    result.partsCommentMismatch := SortBy(result.partsCommentMismatch, ByMismatchDesignator(natLe));
  }

  /* ---------------- the cross-check ---------------- */

  /** `natsort.natsorted` on each list: by designator, under the natural order `natLe`. */
  function ByDesignator(natLe: (string, string) -> bool): (Missing, Missing) -> bool {
    ByKey((m: Missing) => m.designator, natLe)
  }

  function ByMismatchDesignator(natLe: (string, string) -> bool): (Mismatch, Mismatch) -> bool {
    ByKey((m: Mismatch) => m.designator, natLe)
  }

  function ByFirstDesignator(natLe: (string, string) -> bool): (Conflict, Conflict) -> bool {
    ByKey((c: Conflict) => c.first, natLe)
  }

  /** The coordinate check at the end of `__compare` and the natural sort after it. */
  method CollectConflicts(result: CrossCheckResult, pnp: PartIndex, minDistance: real, mils: bool,
                          parse: string -> Option<real>, natLe: (string, string) -> bool)
    requires Valid(pnp)
    modifies result
    ensures result.partsCoordConflicts ==
      SortBy(Conflicts(pnp, minDistance, PartPoint(mils, parse)), ByFirstDesignator(natLe))
    ensures result.bomPartsMissingInPnp == old(result.bomPartsMissingInPnp)
    ensures result.pnpPartsMissingInBom == old(result.pnpPartsMissingInBom)
    ensures result.partsCommentMismatch == old(result.partsCommentMismatch)
  {
    var conflicts := CheckDistances(pnp, minDistance, PartPoint(mils, parse));
    result.partsCoordConflicts := SortBy(conflicts, ByFirstDesignator(natLe));
  }

  /**
   * `__compare`: a new result whose lists hold the sorted outcome of the
   * three loops and of `__check_distances`.
   */
  method CompareParts(bom: PartIndex, pnp: PartIndex, minDistance: real, mils: bool,
                      parse: string -> Option<real>, natLe: (string, string) -> bool)
    returns (result: CrossCheckResult)
    requires Valid(bom) && Valid(pnp)
    ensures fresh(result)
    ensures result.bomPartsMissingInPnp == SortBy(BomOnly(bom, pnp), ByDesignator(natLe))
    ensures result.pnpPartsMissingInBom == SortBy(PnpOnly(bom, pnp), ByDesignator(natLe))
    ensures result.partsCommentMismatch == SortBy(Mismatches(bom, pnp), ByMismatchDesignator(natLe))
    ensures result.partsCoordConflicts ==
      SortBy(Conflicts(pnp, minDistance, PartPoint(mils, parse)), ByFirstDesignator(natLe))
  {
    result := new CrossCheckResult();
    CollectBomOnly(result, bom, pnp, natLe);
    CollectPnpOnly(result, bom, pnp, natLe);
    CollectMismatches(result, bom, pnp, natLe);
    CollectConflicts(result, pnp, minDistance, mils, parse, natLe);
  }

  /** The grid is missing when there is no configured grid or it holds no text grid. */
  predicate Missing?(g: Option<ConfiguredGrid>) {
    g.None? || g.value.textGrid.None?
  }

  /**
   * `compare`: checks that both grids are there (BOM first), extracts both
   * indexes (BOM first), and cross-checks them.
   */
  method Compare(bom: Option<ConfiguredGrid>, pnp: Option<ConfiguredGrid>, minDistance: real, mils: bool,
                 parse: string -> Option<real>, natLe: (string, string) -> bool)
    returns (r: Result<CrossCheckResult>)
    ensures Missing?(bom) ==> r == Failure(ValueError("BOM data is missing"))
    ensures !Missing?(bom) && Missing?(pnp) ==> r == Failure(ValueError("PnP data is missing"))
    ensures !Missing?(bom) && !Missing?(pnp) ==>
      var b, p := ExtractGrid(bom.value, Bom), ExtractGrid(pnp.value, Pnp);
      && (b.Failure? ==> r == Failure(b.error))
      && (b.Success? && p.Failure? ==> r == Failure(p.error))
      && (b.Success? && p.Success? ==>
            && Valid(b.value) && Valid(p.value)
            && r.Success? && fresh(r.value)
            && r.value.bomPartsMissingInPnp == SortBy(BomOnly(b.value, p.value), ByDesignator(natLe))
            && r.value.pnpPartsMissingInBom == SortBy(PnpOnly(b.value, p.value), ByDesignator(natLe))
            && r.value.partsCommentMismatch == SortBy(Mismatches(b.value, p.value), ByMismatchDesignator(natLe))
            && r.value.partsCoordConflicts ==
                 SortBy(Conflicts(p.value, minDistance, PartPoint(mils, parse)), ByFirstDesignator(natLe)))
  {
    if Missing?(bom) {
      return Failure(ValueError("BOM data is missing"));
    }
    if Missing?(pnp) {
      return Failure(ValueError("PnP data is missing"));
    }
    var bomParts := Extract(bom.value, Bom);
    if bomParts.Failure? {
      return Failure(bomParts.error);
    }
    var pnpParts := Extract(pnp.value, Pnp);
    if pnpParts.Failure? {
      return Failure(pnpParts.error);
    }
    ExtractGridValid(bom.value, Bom);
    ExtractGridValid(pnp.value, Pnp);
    var result := CompareParts(bomParts.value, pnpParts.value, minDistance, mils, parse, natLe);
    return Success(result);
  }

  /* ---------------- what the sorted lists hold ---------------- */

  /**
   * After sorting, the BOM-only list holds exactly the parts the membership
   * lemma describes; under a total preorder it is ordered by designator, and
   * parts whose designators `natLe` ties stay in index order.
   */
  lemma SortedBomOnly(bom: PartIndex, pnp: PartIndex, natLe: (string, string) -> bool, e: Missing)
    requires Valid(bom)
    ensures var s := SortBy(BomOnly(bom, pnp), ByDesignator(natLe));
      e in s <==> e.designator in bom.entries && e.designator != "" && e.designator !in pnp.entries
                  && e.comment == OrUnknown(bom.entries[e.designator].comment)
    ensures TotalPreorder(natLe) ==> Sorted(SortBy(BomOnly(bom, pnp), ByDesignator(natLe)), ByDesignator(natLe))
    ensures TotalPreorder(natLe) ==>
      Ties(SortBy(BomOnly(bom, pnp), ByDesignator(natLe)), e, ByDesignator(natLe)) == Ties(BomOnly(bom, pnp), e, ByDesignator(natLe))
  {
    BomOnlyMembers(bom, pnp, e);
    SortByMembers(BomOnly(bom, pnp), ByDesignator(natLe), e);
    if TotalPreorder(natLe) {
      ByKeyTotal((m: Missing) => m.designator, natLe);
      SortBySorted(BomOnly(bom, pnp), ByDesignator(natLe));
      SortByStable(BomOnly(bom, pnp), e, ByDesignator(natLe));
    }
  }

  /**
   * After sorting, the PnP-only list holds exactly the parts the membership
   * lemma describes; under a total preorder it is ordered by designator, and
   * parts whose designators `natLe` ties stay in index order.
   */
  lemma SortedPnpOnly(bom: PartIndex, pnp: PartIndex, natLe: (string, string) -> bool, e: Missing)
    requires Valid(pnp)
    ensures var s := SortBy(PnpOnly(bom, pnp), ByDesignator(natLe));
      e in s <==> e.designator in pnp.entries && e.designator != "" && e.designator !in bom.entries
                  && e.comment == pnp.entries[e.designator].comment
    ensures TotalPreorder(natLe) ==> Sorted(SortBy(PnpOnly(bom, pnp), ByDesignator(natLe)), ByDesignator(natLe))
    ensures TotalPreorder(natLe) ==>
      Ties(SortBy(PnpOnly(bom, pnp), ByDesignator(natLe)), e, ByDesignator(natLe)) == Ties(PnpOnly(bom, pnp), e, ByDesignator(natLe))
  {
    PnpOnlyMembers(bom, pnp, e);
    SortByMembers(PnpOnly(bom, pnp), ByDesignator(natLe), e);
    if TotalPreorder(natLe) {
      ByKeyTotal((m: Missing) => m.designator, natLe);
      SortBySorted(PnpOnly(bom, pnp), ByDesignator(natLe));
      SortByStable(PnpOnly(bom, pnp), e, ByDesignator(natLe));
    }
  }

  /**
   * After sorting, the mismatch list holds exactly the parts the membership
   * lemma describes; under a total preorder it is ordered by designator, and
   * parts whose designators `natLe` ties stay in index order.
   */
  lemma SortedMismatches(bom: PartIndex, pnp: PartIndex, natLe: (string, string) -> bool, e: Mismatch)
    requires Valid(bom)
    ensures var s := SortBy(Mismatches(bom, pnp), ByMismatchDesignator(natLe));
      e in s <==> && e.designator in bom.entries && e.designator in pnp.entries
                  && e.bomComment == bom.entries[e.designator].comment
                  && e.pnpComment == pnp.entries[e.designator].comment
                  && e.bomComment != e.pnpComment
                  && e.pnpFootprint == pnp.entries[e.designator].footprint
    ensures TotalPreorder(natLe) ==>
      Sorted(SortBy(Mismatches(bom, pnp), ByMismatchDesignator(natLe)), ByMismatchDesignator(natLe))
    ensures TotalPreorder(natLe) ==>
      Ties(SortBy(Mismatches(bom, pnp), ByMismatchDesignator(natLe)), e, ByMismatchDesignator(natLe))
        == Ties(Mismatches(bom, pnp), e, ByMismatchDesignator(natLe))
  {
    MismatchesMembers(bom, pnp, e);
    SortByMembers(Mismatches(bom, pnp), ByMismatchDesignator(natLe), e);
    if TotalPreorder(natLe) {
      ByKeyTotal((m: Mismatch) => m.designator, natLe);
      SortBySorted(Mismatches(bom, pnp), ByMismatchDesignator(natLe));
      SortByStable(Mismatches(bom, pnp), e, ByMismatchDesignator(natLe));
    }
  }

  /**
   * After sorting, the conflict list holds exactly the too-close pairs, each
   * pair once; under a total preorder it is ordered by first designator, and
   * conflicts sharing a first designator stay in the order they were found.
   */
  lemma SortedConflicts(pnp: PartIndex, minDistance: real, pointOf: Part -> Point,
                        natLe: (string, string) -> bool, c: Conflict)
    requires Valid(pnp)
    ensures var s := SortBy(Conflicts(pnp, minDistance, pointOf), ByFirstDesignator(natLe));
      && (c in s <==> exists m, n :: 0 <= m < n < |pnp.keys| && SameLayer(pnp, m, n)
                          && Closer(PairDistSq(pnp, m, n, pointOf), minDistance)
                          && c == Conflict(pnp.keys[m], pnp.keys[n], PairDistSq(pnp, m, n, pointOf)))
      && |s| == |Conflicts(pnp, minDistance, pointOf)|
      && (TotalPreorder(natLe) ==>
            && Sorted(s, ByFirstDesignator(natLe))
            && Ties(s, c, ByFirstDesignator(natLe)) == Ties(Conflicts(pnp, minDistance, pointOf), c, ByFirstDesignator(natLe)))
  {
    var found := Conflicts(pnp, minDistance, pointOf);
    ConflictsMembers(pnp, minDistance, pointOf, c);
    SortByMembers(found, ByFirstDesignator(natLe), c);
    if TotalPreorder(natLe) {
      ByKeyTotal((c: Conflict) => c.first, natLe);
      SortBySorted(found, ByFirstDesignator(natLe));
      SortByStable(found, c, ByFirstDesignator(natLe));
    }
  }

  /* ---------------- the three lists split the designators ---------------- */

  ghost predicate InBomOnly(bom: PartIndex, pnp: PartIndex, d: string)
    requires Valid(bom)
  {
    exists e :: e in BomOnly(bom, pnp) && e.designator == d
  }

  ghost predicate InPnpOnly(bom: PartIndex, pnp: PartIndex, d: string)
    requires Valid(pnp)
  {
    exists e :: e in PnpOnly(bom, pnp) && e.designator == d
  }

  ghost predicate InMismatches(bom: PartIndex, pnp: PartIndex, d: string)
    requires Valid(bom)
  {
    exists e :: e in Mismatches(bom, pnp) && e.designator == d
  }

  /**
   * Each designator lands in the lists by where it occurs: BOM-only when it
   * is only in the BOM, PnP-only when it is only in the PnP, a mismatch when
   * it is in both with different comments. So no designator is in two lists,
   * and every non-empty designator of either file is in one of the lists or
   * in both files.
   */
  lemma DesignatorsPartitioned(bom: PartIndex, pnp: PartIndex, d: string)
    requires Valid(bom) && Valid(pnp)
    ensures InBomOnly(bom, pnp, d) <==> d != "" && d in bom.entries && d !in pnp.entries
    ensures InPnpOnly(bom, pnp, d) <==> d != "" && d in pnp.entries && d !in bom.entries
    ensures InMismatches(bom, pnp, d) <==>
              d in bom.entries && d in pnp.entries && bom.entries[d].comment != pnp.entries[d].comment
    ensures !(InBomOnly(bom, pnp, d) && InPnpOnly(bom, pnp, d))
    ensures !(InMismatches(bom, pnp, d) && (InBomOnly(bom, pnp, d) || InPnpOnly(bom, pnp, d)))
    ensures d != "" && (d in bom.entries || d in pnp.entries) ==>
              InBomOnly(bom, pnp, d) || InPnpOnly(bom, pnp, d) || (d in bom.entries && d in pnp.entries)
  {
    if d in bom.entries {
      BomOnlyMembers(bom, pnp, Missing(d, OrUnknown(bom.entries[d].comment)));
      if d in pnp.entries {
        var b, p := bom.entries[d], pnp.entries[d];
        MismatchesMembers(bom, pnp, Mismatch(d, b.comment, p.comment, p.footprint));
      }
    }
    if d in pnp.entries {
      PnpOnlyMembers(bom, pnp, Missing(d, pnp.entries[d].comment));
    }
    if InBomOnly(bom, pnp, d) {
      var e :| e in BomOnly(bom, pnp) && e.designator == d;
      BomOnlyMembers(bom, pnp, e);
    }
    if InPnpOnly(bom, pnp, d) {
      var e :| e in PnpOnly(bom, pnp) && e.designator == d;
      PnpOnlyMembers(bom, pnp, e);
    }
    if InMismatches(bom, pnp, d) {
      var e :| e in Mismatches(bom, pnp) && e.designator == d;
      MismatchesMembers(bom, pnp, e);
    }
  }
}
