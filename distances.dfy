/**
 * `__check_distances`: every pair of PnP parts on the same layer whose
 * centres are closer than the minimum distance, each pair reported once, the
 * part met first in the index first.
 *
 * Python compares `math.sqrt(d2) < min_distance`; the model compares the
 * squared distance (`Closer`) and reports it squared, which `CloserIsRoot`
 * shows to be the same test.  The conversion of a part's coordinate cells is
 * the parameter `pointOf`; the engine passes `PartPoint(mils, parse)`, that
 * is `__txt_to_mm` with the unit flag.
 */
module CrossCheckDistances {
  import opened Base
  import opened OrderedDict
  import opened CrossCheckExtract
  import opened CrossCheckCoords

  /** `(part1_designator, part2_designator, distance)`, the distance squared. */
  datatype Conflict = Conflict(first: string, second: string, distSq: real)

  /** `__txt_to_mm((part[1], part[2]), coord_unit_mils)`: the centre of a part in millimetres. */
  function PartPoint(mils: bool, parse: string -> Option<real>): Part -> Point {
    (p: Part) => TxtToMm(p.coordX, p.coordY, mils, parse)
  }

  function DistSq(a: Point, b: Point): (d: real)
    ensures d >= 0.0
  {
    (a.x - b.x) * (a.x - b.x) + (a.y - b.y) * (a.y - b.y)
  }

  /** `math.sqrt(distSq) < minDistance`, without the square root. */
  predicate Closer(distSq: real, minDistance: real) {
    0.0 < minDistance && distSq < minDistance * minDistance
  }

  /** For the non-negative root `r` of `distSq`, `Closer` is `r < minDistance`. */
  lemma CloserIsRoot(distSq: real, r: real, minDistance: real)
    requires r >= 0.0 && r * r == distSq
    ensures Closer(distSq, minDistance) <==> r < minDistance
  {
    var m := minDistance;
    assert m * m - r * r == (m - r) * (m + r);
    if r < m {
      MulSign(m - r, m + r);
    } else if 0.0 < m {
      MulSign(r - m, m + r);
    }
  }

  lemma MulSign(a: real, b: real)
    requires a >= 0.0 && b > 0.0
    ensures a * b >= 0.0 && (a > 0.0 ==> a * b > 0.0)
  {
  }

  /** The parts at positions `m` and `n` of the index lie on the same layer. */
  predicate SameLayer(pnp: PartIndex, m: int, n: int)
    requires Valid(pnp) && 0 <= m < |pnp.keys| && 0 <= n < |pnp.keys|
  {
    pnp.entries[pnp.keys[m]].layer == pnp.entries[pnp.keys[n]].layer
  }

  /** The squared distance between the centres of the parts at positions `m` and `n`. */
  function PairDistSq(pnp: PartIndex, m: int, n: int, pointOf: Part -> Point): real
    requires Valid(pnp) && 0 <= m < |pnp.keys| && 0 <= n < |pnp.keys|
  {
    DistSq(pointOf(pnp.entries[pnp.keys[m]]), pointOf(pnp.entries[pnp.keys[n]]))
  }

  /** The pair (m, n) is a conflict: m comes first, both on one layer, and too close. */
  predicate IsConflict(pnp: PartIndex, m: int, n: int, minDistance: real, pointOf: Part -> Point)
    requires Valid(pnp) && 0 <= m < |pnp.keys| && 0 <= n < |pnp.keys|
  {
    m < n && SameLayer(pnp, m, n) && Closer(PairDistSq(pnp, m, n, pointOf), minDistance)
  }

  /** What the inner iteration with outer part `m` and inner part `n` reports. */
  function ConflictAt(pnp: PartIndex, m: int, n: int, minDistance: real, pointOf: Part -> Point)
    : seq<Conflict>
    requires Valid(pnp) && 0 <= m < |pnp.keys| && 0 <= n < |pnp.keys|
  {
    if IsConflict(pnp, m, n, minDistance, pointOf) then [ConflictOf(pnp, m, n, pointOf)] else []
  }

  /** The entry reported for the pair at positions (m, n). */
  function ConflictOf(pnp: PartIndex, m: int, n: int, pointOf: Part -> Point): Conflict
    requires Valid(pnp) && 0 <= m < |pnp.keys| && 0 <= n < |pnp.keys|
  {
    Conflict(pnp.keys[m], pnp.keys[n], PairDistSq(pnp, m, n, pointOf))
  }

  /** The conflicts reported with outer part `m` over the inner parts `0 .. j-1`. */
  function RowConflicts(pnp: PartIndex, m: int, j: int, minDistance: real, pointOf: Part -> Point)
    : seq<Conflict>
    requires Valid(pnp) && 0 <= m < |pnp.keys| && 0 <= j <= |pnp.keys|
  {
    if j == 0 then []
    else RowConflicts(pnp, m, j - 1, minDistance, pointOf) + ConflictAt(pnp, m, j - 1, minDistance, pointOf)
  }

  /** The conflicts reported with outer parts `0 .. i-1`. */
  function ConflictsBefore(pnp: PartIndex, i: int, minDistance: real, pointOf: Part -> Point)
    : seq<Conflict>
    requires Valid(pnp) && 0 <= i <= |pnp.keys|
  {
    if i == 0 then []
    else ConflictsBefore(pnp, i - 1, minDistance, pointOf) + RowConflicts(pnp, i - 1, |pnp.keys|, minDistance, pointOf)
  }

  /** The list `__check_distances` returns. */
  function Conflicts(pnp: PartIndex, minDistance: real, pointOf: Part -> Point): seq<Conflict>
    requires Valid(pnp)
  {
    ConflictsBefore(pnp, |pnp.keys|, minDistance, pointOf)
  }

  /* ---------------- the loop ---------------- */

  /** `parts_checked[a]` lists `b` exactly when the pair (a, b) has been measured. */
  ghost predicate CheckedPairs(pnp: PartIndex, checked: map<string, seq<string>>, i: int, j: int)
    requires Valid(pnp)
  {
    forall m, n :: 0 <= m < |pnp.keys| && 0 <= n < |pnp.keys| ==>
      ((pnp.keys[m] in checked && pnp.keys[n] in checked[pnp.keys[m]]) <==>
       (m < n && SameLayer(pnp, m, n) && (m < i || (m == i && n < j))))
  }

  /** Every cached point is the point of its part. */
  ghost predicate Decoded(pnp: PartIndex, decoded: map<string, Point>, pointOf: Part -> Point) {
    forall k :: k in decoded ==> k in pnp.entries && decoded[k] == pointOf(pnp.entries[k])
  }

  /** The `decoded_coords` lookup: the cached point, or the converted one, now cached. */
  method DecodePoint(pnp: PartIndex, decoded: map<string, Point>, key: string, pointOf: Part -> Point)
    returns (p: Point, decoded': map<string, Point>)
    requires key in pnp.entries && Decoded(pnp, decoded, pointOf)
    ensures p == pointOf(pnp.entries[key])
    ensures Decoded(pnp, decoded', pointOf) && key in decoded'
  {
    if key in decoded {
      p := decoded[key];
      decoded' := decoded;
    } else {
      p := pointOf(pnp.entries[key]);
      decoded' := decoded[key := p];
    }
  }

  /** `__check_distances(pnp_parts, min_distance, coord_unit_mils)`, converting with `pointOf`. */
  method CheckDistances(pnp: PartIndex, minDistance: real, pointOf: Part -> Point)
    returns (output: seq<Conflict>)
    requires Valid(pnp)
    ensures output == Conflicts(pnp, minDistance, pointOf)
  {
    var keys := pnp.keys;
    var decoded: map<string, Point> := map[];
    var checked: map<string, seq<string>> := map[];
    output := [];
    for i := 0 to |keys|
      invariant output == ConflictsBefore(pnp, i, minDistance, pointOf)
      invariant Decoded(pnp, decoded, pointOf)
      invariant CheckedPairs(pnp, checked, i, 0)
    {
      output, decoded, checked := CheckRow(pnp, i, minDistance, pointOf, output, decoded, checked);
    }
  }

  /** The inner loop of `__check_distances`: part `i` against every part. */
  method CheckRow(pnp: PartIndex, i: int, minDistance: real, pointOf: Part -> Point,
                  output: seq<Conflict>, decoded: map<string, Point>, checked: map<string, seq<string>>)
    returns (output': seq<Conflict>, decoded': map<string, Point>, checked': map<string, seq<string>>)
    requires Valid(pnp) && 0 <= i < |pnp.keys|
    requires Decoded(pnp, decoded, pointOf) && CheckedPairs(pnp, checked, i, 0)
    ensures output' == output + RowConflicts(pnp, i, |pnp.keys|, minDistance, pointOf)
    ensures Decoded(pnp, decoded', pointOf) && CheckedPairs(pnp, checked', i + 1, 0)
  {
    output', decoded', checked' := output, decoded, checked;
    for j := 0 to |pnp.keys|
      invariant output' == output + RowConflicts(pnp, i, j, minDistance, pointOf)
      invariant Decoded(pnp, decoded', pointOf)
      invariant CheckedPairs(pnp, checked', i, j)
    {
      output', decoded', checked' := CheckPair(pnp, i, j, minDistance, pointOf, output', decoded', checked');
    }
    CheckedPairsNextRow(pnp, checked', i);
  }

  /** One inner iteration of `__check_distances`, for outer part `i` and inner part `j`. */
  method CheckPair(pnp: PartIndex, i: int, j: int, minDistance: real, pointOf: Part -> Point,
                   output: seq<Conflict>, decoded: map<string, Point>, checked: map<string, seq<string>>)
    returns (output': seq<Conflict>, decoded': map<string, Point>, checked': map<string, seq<string>>)
    requires Valid(pnp) && 0 <= i < |pnp.keys| && 0 <= j < |pnp.keys|
    requires Decoded(pnp, decoded, pointOf) && CheckedPairs(pnp, checked, i, j)
    ensures output' == output + ConflictAt(pnp, i, j, minDistance, pointOf)
    ensures Decoded(pnp, decoded', pointOf) && CheckedPairs(pnp, checked', i, j + 1)
  {
    output', decoded', checked' := output, decoded, checked;
    var keyA, keyB := pnp.keys[i], pnp.keys[j];
    assert keyB != keyA <==> i != j;
    if keyB != keyA && pnp.entries[keyA].layer == pnp.entries[keyB].layer {
      CheckedPairsLookup(pnp, checked, i, j);
      var seen := if keyB in checked then checked[keyB] else [];
      if keyA in seen {
        CheckedPairsUnchanged(pnp, checked, i, j);
        return;
      }
      ghost var prev: seq<string> := if keyA in checked then checked[keyA] else [];
      if keyA in checked && |checked[keyA]| > 0 {
        checked' := checked[keyA := checked[keyA] + [keyB]];
      } else {
        assert prev + [keyB] == [keyB];
        checked' := checked[keyA := [keyB]];
      }
      assert checked' == checked[keyA := prev + [keyB]];
      CheckedPairsAdd(pnp, checked, i, j);
      var pointA, pointB;
      pointA, decoded' := DecodePoint(pnp, decoded, keyA, pointOf);
      pointB, decoded' := DecodePoint(pnp, decoded', keyB, pointOf);
      var d := DistSq(pointA, pointB);
      if Closer(d, minDistance) {
        output' := output + [Conflict(keyA, keyB, d)];
      }
    } else {
      CheckedPairsUnchanged(pnp, checked, i, j);
    }
  }

  /** `key_a in parts_checked.get(key_b, [])` holds exactly when `key_b` comes first and shares the layer. */
  lemma CheckedPairsLookup(pnp: PartIndex, checked: map<string, seq<string>>, i: int, j: int)
    requires Valid(pnp) && 0 <= i < |pnp.keys| && 0 <= j < |pnp.keys| && i != j
    requires CheckedPairs(pnp, checked, i, j)
    ensures var seen := if pnp.keys[j] in checked then checked[pnp.keys[j]] else [];
      pnp.keys[i] in seen <==> j < i && SameLayer(pnp, j, i)
  {
  }

  /** A pair that is not measured leaves `parts_checked` as it was. */
  lemma CheckedPairsUnchanged(pnp: PartIndex, checked: map<string, seq<string>>, i: int, j: int)
    requires Valid(pnp) && 0 <= i < |pnp.keys| && 0 <= j < |pnp.keys|
    requires !(i < j && SameLayer(pnp, i, j))
    requires CheckedPairs(pnp, checked, i, j)
    ensures CheckedPairs(pnp, checked, i, j + 1)
  {
  }

  /** After the inner loop, the next outer part starts with all pairs of the earlier ones measured. */
  lemma CheckedPairsNextRow(pnp: PartIndex, checked: map<string, seq<string>>, i: int)
    requires Valid(pnp) && 0 <= i < |pnp.keys|
    requires CheckedPairs(pnp, checked, i, |pnp.keys|)
    ensures CheckedPairs(pnp, checked, i + 1, 0)
  {
  }

  /** Recording the measured pair (i, j), with i before j, under part `i`. */
  lemma CheckedPairsAdd(pnp: PartIndex, checked: map<string, seq<string>>, i: int, j: int)
    requires Valid(pnp) && 0 <= i < j < |pnp.keys| && SameLayer(pnp, i, j)
    requires CheckedPairs(pnp, checked, i, j)
    ensures var keyA := pnp.keys[i];
      var prev := if keyA in checked then checked[keyA] else [];
      CheckedPairs(pnp, checked[keyA := prev + [pnp.keys[j]]], i, j + 1)
  {
    var keyA := pnp.keys[i];
    var prev := if keyA in checked then checked[keyA] else [];
    var c := checked[keyA := prev + [pnp.keys[j]]];
    forall m, n | 0 <= m < |pnp.keys| && 0 <= n < |pnp.keys|
      ensures (pnp.keys[m] in c && pnp.keys[n] in c[pnp.keys[m]]) <==>
              (m < n && SameLayer(pnp, m, n) && (m < i || (m == i && n < j + 1)))
    {
      if m == i {
        assert pnp.keys[n] in c[keyA] <==> pnp.keys[n] in prev || n == j;
      } else {
        assert pnp.keys[m] != keyA;
      }
    }
  }

  /* ---------------- what the list holds ---------------- */

  /** The entries reported with outer part `m`: its too-close partners after it, up to `j`. */
  lemma {:induction false} RowConflictsMembers(pnp: PartIndex, m: int, j: int, minDistance: real, pointOf: Part -> Point, c: Conflict)
    requires Valid(pnp) && 0 <= m < |pnp.keys| && 0 <= j <= |pnp.keys|
    ensures c in RowConflicts(pnp, m, j, minDistance, pointOf) <==>
      exists n :: 0 <= n < j && IsConflict(pnp, m, n, minDistance, pointOf) && c == ConflictOf(pnp, m, n, pointOf)
  {
    if j > 0 {
      RowConflictsMembers(pnp, m, j - 1, minDistance, pointOf, c);
    }
  }

  /** The entries reported with outer parts before `i`. */
  lemma {:induction false} ConflictsBeforeMembers(pnp: PartIndex, i: int, minDistance: real, pointOf: Part -> Point, c: Conflict)
    requires Valid(pnp) && 0 <= i <= |pnp.keys|
    ensures c in ConflictsBefore(pnp, i, minDistance, pointOf) <==>
      exists m, n :: 0 <= m < i && 0 <= n < |pnp.keys| && IsConflict(pnp, m, n, minDistance, pointOf)
                     && c == ConflictOf(pnp, m, n, pointOf)
  {
    if i > 0 {
      ConflictsBeforeMembers(pnp, i - 1, minDistance, pointOf, c);
      RowConflictsMembers(pnp, i - 1, |pnp.keys|, minDistance, pointOf, c);
    }
  }

  /**
   * An entry is in the list exactly when it names two parts of the index,
   * the one met first in the index first, on the same layer and closer than
   * the minimum distance, with their squared distance.
   */
  lemma ConflictsMembers(pnp: PartIndex, minDistance: real, pointOf: Part -> Point, c: Conflict)
    requires Valid(pnp)
    ensures c in Conflicts(pnp, minDistance, pointOf) <==>
      exists m, n :: 0 <= m < n < |pnp.keys| && SameLayer(pnp, m, n)
                     && Closer(PairDistSq(pnp, m, n, pointOf), minDistance)
                     && c == Conflict(pnp.keys[m], pnp.keys[n], PairDistSq(pnp, m, n, pointOf))
  {
    ConflictsBeforeMembers(pnp, |pnp.keys|, minDistance, pointOf, c);
    if c in Conflicts(pnp, minDistance, pointOf) {
      var m, n :| 0 <= m < |pnp.keys| && 0 <= n < |pnp.keys| && IsConflict(pnp, m, n, minDistance, pointOf)
                  && c == ConflictOf(pnp, m, n, pointOf);
      assert 0 <= m < n < |pnp.keys|;
    }
    if exists m, n :: 0 <= m < n < |pnp.keys| && SameLayer(pnp, m, n)
                      && Closer(PairDistSq(pnp, m, n, pointOf), minDistance)
                      && c == Conflict(pnp.keys[m], pnp.keys[n], PairDistSq(pnp, m, n, pointOf)) {
      var m, n :| 0 <= m < n < |pnp.keys| && SameLayer(pnp, m, n)
                  && Closer(PairDistSq(pnp, m, n, pointOf), minDistance)
                  && c == Conflict(pnp.keys[m], pnp.keys[n], PairDistSq(pnp, m, n, pointOf));
      assert IsConflict(pnp, m, n, minDistance, pointOf) && c == ConflictOf(pnp, m, n, pointOf);
    }
  }

  /** Two entries name the same two parts, in either order. */
  predicate SamePair(c: Conflict, d: Conflict) {
    (c.first == d.first && c.second == d.second) || (c.first == d.second && c.second == d.first)
  }

  /** No two entries of `s` name the same two parts. */
  ghost predicate PairsOnce(s: seq<Conflict>) {
    forall p, q :: 0 <= p < q < |s| ==> !SamePair(s[p], s[q])
  }

  lemma PairsOnceConcat(a: seq<Conflict>, b: seq<Conflict>)
    requires PairsOnce(a) && PairsOnce(b)
    requires forall c, d :: c in a && d in b ==> !SamePair(c, d)
    ensures PairsOnce(a + b)
  {
    forall p, q | 0 <= p < q < |a + b| ensures !SamePair((a + b)[p], (a + b)[q]) {
      if q < |a| {
        assert (a + b)[p] == a[p] && (a + b)[q] == a[q];
      } else if p < |a| {
        assert (a + b)[p] in a && (a + b)[q] in b;
      } else {
        assert (a + b)[p] == b[p - |a|] && (a + b)[q] == b[q - |a|];
      }
    }
  }

  /** Within the inner loop of one part, each partner is reported once. */
  lemma {:induction false} RowConflictsOnce(pnp: PartIndex, m: int, j: int, minDistance: real, pointOf: Part -> Point)
    requires Valid(pnp) && 0 <= m < |pnp.keys| && 0 <= j <= |pnp.keys|
    ensures PairsOnce(RowConflicts(pnp, m, j, minDistance, pointOf))
  {
    if j > 0 {
      var prefix := RowConflicts(pnp, m, j - 1, minDistance, pointOf);
      var last := ConflictAt(pnp, m, j - 1, minDistance, pointOf);
      RowConflictsOnce(pnp, m, j - 1, minDistance, pointOf);
      forall c, d | c in prefix && d in last ensures !SamePair(c, d) {
        RowConflictsMembers(pnp, m, j - 1, minDistance, pointOf, c);
        var n :| 0 <= n < j - 1 && IsConflict(pnp, m, n, minDistance, pointOf) && c == ConflictOf(pnp, m, n, pointOf);
        assert pnp.keys[n] != pnp.keys[j - 1] && pnp.keys[n] != pnp.keys[m];
      }
      PairsOnceConcat(prefix, last);
    }
  }

  /** Pairs reported with an earlier outer part never come back with a later one. */
  lemma {:induction false} ConflictsBeforeOnce(pnp: PartIndex, i: int, minDistance: real, pointOf: Part -> Point)
    requires Valid(pnp) && 0 <= i <= |pnp.keys|
    ensures PairsOnce(ConflictsBefore(pnp, i, minDistance, pointOf))
  {
    if i > 0 {
      var before := ConflictsBefore(pnp, i - 1, minDistance, pointOf);
      var row := RowConflicts(pnp, i - 1, |pnp.keys|, minDistance, pointOf);
      ConflictsBeforeOnce(pnp, i - 1, minDistance, pointOf);
      RowConflictsOnce(pnp, i - 1, |pnp.keys|, minDistance, pointOf);
      forall c, d | c in before && d in row ensures !SamePair(c, d) {
        ConflictsBeforeMembers(pnp, i - 1, minDistance, pointOf, c);
        RowConflictsMembers(pnp, i - 1, |pnp.keys|, minDistance, pointOf, d);
        var m, n :| 0 <= m < i - 1 && 0 <= n < |pnp.keys| && IsConflict(pnp, m, n, minDistance, pointOf)
                    && c == ConflictOf(pnp, m, n, pointOf);
        var n' :| 0 <= n' < |pnp.keys| && IsConflict(pnp, i - 1, n', minDistance, pointOf)
                  && d == ConflictOf(pnp, i - 1, n', pointOf);
        assert pnp.keys[m] != pnp.keys[i - 1] && pnp.keys[m] != pnp.keys[n'];
      }
      PairsOnceConcat(before, row);
    }
  }

  /** `__check_distances` reports each pair of parts at most once, never also the other way round. */
  lemma ConflictsOnce(pnp: PartIndex, minDistance: real, pointOf: Part -> Point)
    requires Valid(pnp)
    ensures PairsOnce(Conflicts(pnp, minDistance, pointOf))
  {
    ConflictsBeforeOnce(pnp, |pnp.keys|, minDistance, pointOf);
  }
}
