/** Timestamps as the ISO-8601 text that the venue and the tables carry, and their order. */
module TimeOrder {
  import opened Wrappers

  /** An ISO-8601 date-time as text, e.g. "2024-03-01T12:00:00Z". */
  type Timestamp = string

  /**
   * `a` is not later than `b`: character-by-character comparison, a proper prefix first.
   * For fixed-width ISO-8601 text this is the chronological order MySQL and pandas use.
   */
  predicate NotAfter(a: Timestamp, b: Timestamp)
    decreases |a|
  {
    if a == [] then true
    else if b == [] then false
    else if a[0] != b[0] then a[0] < b[0]
    else NotAfter(a[1..], b[1..])
  }

  lemma {:induction false} NotAfterReflexive(a: Timestamp)
    ensures NotAfter(a, a)
    decreases |a|
  {
    if a != [] {
      NotAfterReflexive(a[1..]);
    }
  }

  lemma {:induction false} NotAfterTotal(a: Timestamp, b: Timestamp)
    ensures NotAfter(a, b) || NotAfter(b, a)
    decreases |a|
  {
    if a != [] && b != [] && a[0] == b[0] {
      NotAfterTotal(a[1..], b[1..]);
    }
  }

  lemma {:induction false} NotAfterAntisymmetric(a: Timestamp, b: Timestamp)
    requires NotAfter(a, b) && NotAfter(b, a)
    ensures a == b
    decreases |a|
  {
    if a != [] && b != [] {
      NotAfterAntisymmetric(a[1..], b[1..]);
      assert a == [a[0]] + a[1..] && b == [b[0]] + b[1..];
    }
  }

  lemma {:induction false} NotAfterTransitive(a: Timestamp, b: Timestamp, c: Timestamp)
    requires NotAfter(a, b) && NotAfter(b, c)
    ensures NotAfter(a, c)
    decreases |a|
  {
    if a != [] && b != [] && c != [] && a[0] == b[0] && b[0] == c[0] {
      NotAfterTransitive(a[1..], b[1..], c[1..]);
    }
  }

  /** The later of two optional timestamps; an absent one never wins over a present one. */
  function Later(a: Option<Timestamp>, b: Option<Timestamp>): Option<Timestamp> {
    if a.None? then b
    else if b.None? then a
    else if NotAfter(b.value, a.value) then a
    else b
  }

  /**
   * What `SELECT updated_at ... ORDER BY updated_at DESC LIMIT 1` yields over a column:
   * MySQL sorts NULLs last in descending order, so this is the latest present value,
   * and None when the column holds no value at all (or there are no rows).
   */
  function Latest(ts: seq<Option<Timestamp>>): Option<Timestamp>
    decreases |ts|
  {
    if ts == [] then None else Later(Latest(ts[..|ts| - 1]), ts[|ts| - 1])
  }

  /** Latest is the maximum of the present values, and None exactly when there is none. */
  lemma {:induction false} LatestIsMaximum(ts: seq<Option<Timestamp>>)
    ensures Latest(ts).None? <==> forall i :: 0 <= i < |ts| ==> ts[i].None?
    ensures Latest(ts).Some? ==> Latest(ts) in ts
    ensures forall i :: 0 <= i < |ts| && ts[i].Some? ==> Latest(ts).Some? && NotAfter(ts[i].value, Latest(ts).value)
    decreases |ts|
  {
    if ts != [] {
      var init, last := ts[..|ts| - 1], ts[|ts| - 1];
      LatestIsMaximum(init);
      var prev := Latest(init);
      assert forall i :: 0 <= i < |init| ==> init[i] == ts[i];
      if prev.Some? && last.Some? {
        NotAfterTotal(prev.value, last.value);
        NotAfterReflexive(last.value);
        NotAfterReflexive(prev.value);
        forall i | 0 <= i < |ts| && ts[i].Some?
          ensures NotAfter(ts[i].value, Latest(ts).value)
        {
          if i < |init| {
            if !NotAfter(last.value, prev.value) {
              NotAfterTransitive(ts[i].value, prev.value, last.value);
            }
          }
        }
      } else if last.Some? {
        NotAfterReflexive(last.value);
      }
    }
  }
}
