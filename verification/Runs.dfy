/** Stretches of a stream on which some severity is reported, and their peaks. */
module Runs {
  import opened Actions
  import opened Recording

  predicate Exceeds<T>(severity: T -> Option<Float>, xs: seq<T>, i: int) {
    0 <= i < |xs| && severity(xs[i]).Some?
  }

  /** Every element of [from, to) exceeds. */
  predicate AllExceed<T>(severity: T -> Option<Float>, xs: seq<T>, from: nat, to: nat) {
    forall k :: from <= k < to ==> Exceeds(severity, xs, k)
  }

  /** [from, to) is a stretch of exceeding elements that cannot be extended to the left. */
  predicate OpenRun<T>(severity: T -> Option<Float>, xs: seq<T>, from: nat, to: nat) {
    from < to && AllExceed(severity, xs, from, to) && !Exceeds(severity, xs, from - 1)
  }

  /** `peak` is the greatest severity in [from, to). */
  ghost predicate IsPeak<T>(severity: T -> Option<Float>, xs: seq<T>, from: nat, to: nat, peak: Float)
    requires to <= |xs|
  {
    && (exists k :: from <= k < to && severity(xs[k]) == Some(peak))
    && forall k :: from <= k < to && Exceeds(severity, xs, k) ==> severity(xs[k]).value.Le(peak)
  }

  /** Severities are numbers. */
  ghost predicate Numeric<T(!new)>(severity: T -> Option<Float>) {
    forall x :: severity(x).Some? ==> !severity(x).value.NaN?
  }

  /** The run an element belongs to begins at one place only. */
  lemma OpenRunUnique<T>(severity: T -> Option<Float>, xs: seq<T>, a: nat, b: nat, to: nat)
    requires OpenRun(severity, xs, a, to) && OpenRun(severity, xs, b, to)
    ensures a == b
  {
  }

  lemma RunExtends<T>(severity: T -> Option<Float>, xs: seq<T>, x: T, from: nat, to: nat)
    requires to <= |xs|
    ensures OpenRun(severity, xs + [x], from, to) <==> OpenRun(severity, xs, from, to)
    ensures forall peak :: IsPeak(severity, xs + [x], from, to, peak) <==> IsPeak(severity, xs, from, to, peak)
  {
    forall k | k < to ensures Exceeds(severity, xs + [x], k) == Exceeds(severity, xs, k) {}
    forall peak ensures IsPeak(severity, xs + [x], from, to, peak) <==> IsPeak(severity, xs, from, to, peak) {
      if IsPeak(severity, xs, from, to, peak) {
        var k :| from <= k < to && severity(xs[k]) == Some(peak);
        assert severity((xs + [x])[k]) == Some(peak);
      }
      if IsPeak(severity, xs + [x], from, to, peak) {
        var k :| from <= k < to && severity((xs + [x])[k]) == Some(peak);
        assert severity(xs[k]) == Some(peak);
        forall j | from <= j < to && Exceeds(severity, xs, j) ensures severity(xs[j]).value.Le(peak) {
          assert Exceeds(severity, xs + [x], j);
        }
      }
    }
  }

  lemma PeakGrows<T(!new)>(severity: T -> Option<Float>, xs: seq<T>, x: T, from: nat, peak: Float)
    requires Numeric(severity) && from <= |xs| && IsPeak(severity, xs, from, |xs|, peak) && severity(x).Some?
    ensures IsPeak(severity, xs + [x], from, |xs| + 1, peak.Max(severity(x).value))
  {
    var n, y := |xs|, severity(x).value;
    var all, top := xs + [x], peak.Max(y);
    var k :| from <= k < n && severity(xs[k]) == Some(peak);
    assert severity(all[k]) == Some(peak) && severity(all[n]) == Some(y);
    assert top == peak || top == y;
    forall j | from <= j < n + 1 && Exceeds(severity, all, j) ensures severity(all[j]).value.Le(top) {
      if j < n { assert Exceeds(severity, xs, j); }
    }
  }
}
