/**
 * `__txt_to_mm`: a coordinate cell pair as text, such as `15.1mm` or
 * `4312mils`, turned into millimetres.  Everything but digits, `.` and `,`
 * is dropped, the rest goes through Python's `float()`, and a value in mils
 * is scaled by 25.4/1000.  When either conversion raises, the point is
 * (0, 0).
 */
module CrossCheckCoords {
  import opened Base

  /** The characters `[\d\.,]` keeps. */
  predicate IsNumericChar(c: char) {
    '0' <= c <= '9' || c == '.' || c == ','
  }

  /**
   * `re.sub("[^\d\.,]", "", s)`: `s` with every other character removed.
   * What is left is no longer than the input and made of numeric characters only.
   */
  function KeepNumeric(s: string): (r: string)
    ensures |r| <= |s|
    ensures forall i :: 0 <= i < |r| ==> IsNumericChar(r[i])
  {
    if |s| == 0 then ""
    else KeepNumeric(s[..|s| - 1]) + (if IsNumericChar(s[|s| - 1]) then [s[|s| - 1]] else "")
  }

  /** Filtering distributes over concatenation: the kept characters stay in their order. */
  lemma {:induction false} KeepNumericConcat(a: string, b: string)
    ensures KeepNumeric(a + b) == KeepNumeric(a) + KeepNumeric(b)
  {
    if |b| == 0 {
      assert a + b == a;
    } else {
      var b' := b[..|b| - 1];
      KeepNumericConcat(a, b');
      assert (a + b)[..|a + b| - 1] == a + b';
    }
  }

  /** Text made of numeric characters only is left as it is. */
  lemma {:induction false} KeepNumericOnly(s: string)
    requires forall i :: 0 <= i < |s| ==> IsNumericChar(s[i])
    ensures KeepNumeric(s) == s
  {
    if |s| > 0 {
      KeepNumericOnly(s[..|s| - 1]);
    }
  }

  /** Filtering twice is filtering once. */
  lemma KeepNumericIdempotent(s: string)
    ensures KeepNumeric(KeepNumeric(s)) == KeepNumeric(s)
  {
    KeepNumericOnly(KeepNumeric(s));
  }

  /** A character is kept exactly when it is numeric. */
  lemma {:induction false} KeepNumericMembers(s: string, c: char)
    ensures c in KeepNumeric(s) <==> c in s && IsNumericChar(c)
  {
    if |s| > 0 {
      var init := s[..|s| - 1];
      KeepNumericMembers(init, c);
      assert s == init + [s[|s| - 1]];
    }
  }

  /** `MIL_PER_MM = 1000/25.4` */
  const MilPerMm: real := 1000.0 / 25.4

  datatype Point = Point(x: real, y: real)

  /**
   * `__txt_to_mm`.  `parse` is Python's `float()` on the filtered text:
   * `None` where it raises `ValueError`.  The point is (0, 0) when either
   * filtered text fails to convert; otherwise it is the converted pair, which
   * in mils times `MIL_PER_MM` gives back the numbers written.
   */
  function TxtToMm(cx: string, cy: string, mils: bool, parse: string -> Option<real>): (p: Point)
    ensures var x, y := parse(KeepNumeric(cx)), parse(KeepNumeric(cy));
      && (x.None? || y.None? ==> p == Point(0.0, 0.0))
      && (x.Some? && y.Some? && !mils ==> p == Point(x.value, y.value))
      && (x.Some? && y.Some? && mils ==> p.x * MilPerMm == x.value && p.y * MilPerMm == y.value)
  {
    var x, y := parse(KeepNumeric(cx)), parse(KeepNumeric(cy));
    if x.None? || y.None? then Point(0.0, 0.0)
    else if mils then Point(x.value / MilPerMm, y.value / MilPerMm)
    else Point(x.value, y.value)
  }

  /** A point read in mils is the millimetre reading scaled by 25.4/1000; a failed reading stays (0, 0). */
  lemma MilsScale(cx: string, cy: string, parse: string -> Option<real>)
    ensures var mm := TxtToMm(cx, cy, false, parse);
      TxtToMm(cx, cy, true, parse) == Point(mm.x * 25.4 / 1000.0, mm.y * 25.4 / 1000.0)
  {
    var mm := TxtToMm(cx, cy, false, parse);
    var p := TxtToMm(cx, cy, true, parse);
    if parse(KeepNumeric(cx)).Some? && parse(KeepNumeric(cy)).Some? {
      assert p.x == mm.x / MilPerMm;
      assert p.y == mm.y / MilPerMm;
    }
  }

  /** Unit text around the number does not change the reading: `15.1mm` reads as `15.1`. */
  lemma UnitSuffixIgnored(num: string, unit: string, cy: string, mils: bool, parse: string -> Option<real>)
    requires forall i :: 0 <= i < |unit| ==> !IsNumericChar(unit[i])
    ensures TxtToMm(num + unit, cy, mils, parse) == TxtToMm(num, cy, mils, parse)
  {
    KeepNumericConcat(num, unit);
    KeepNumericNone(unit);
    assert KeepNumeric(num) + "" == KeepNumeric(num);
  }

  /** Text without numeric characters filters to nothing. */
  lemma {:induction false} KeepNumericNone(s: string)
    requires forall i :: 0 <= i < |s| ==> !IsNumericChar(s[i])
    ensures KeepNumeric(s) == ""
  {
    if |s| > 0 {
      KeepNumericNone(s[..|s| - 1]);
    }
  }
}
