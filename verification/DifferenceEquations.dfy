/** What filter a cascade is: from rest it solves its sections' difference equations, one after the other
    (tools/gen_beam_error_profiles.py). */
module DifferenceEquations {
  import opened Cascade
  import opened Linear
  import opened StateSpaces

  /** The sample at n, zero before the start. */
  function Past(v: Vector, n: int): real {
    if 0 <= n < |v| then v[n] else 0.0
  }

  /** y is x filtered by the section's coefficients, from rest. */
  predicate Filtered(s: Section, x: Vector, y: Vector) {
    |y| == |x| && forall n: nat | n < |x| :: FilteredAt(s, x, y, n)
  }

  predicate FilteredAt(s: Section, x: Vector, y: Vector, n: int) {
    Past(y, n) == s.b0 * Past(x, n) + s.b1 * Past(x, n - 1) + s.b2 * Past(x, n - 2)
                  - s.a1 * Past(y, n - 1) - s.a2 * Past(y, n - 2)
  }

  /** y is x filtered by every section in turn. */
  ghost predicate CascadeFiltered(sos: Sos, x: Vector, y: Vector)
    decreases |sos|, 0
  {
    if sos == [] then y == x else FilteredThrough(sos[..|sos| - 1], sos[|sos| - 1], x, y)
  }

  ghost predicate FilteredThrough(before: Sos, last: Section, x: Vector, y: Vector)
    decreases |before|, 1
  {
    exists between: Vector :: CascadeFiltered(before, x, between) && Filtered(last, between, y)
  }

  /** One section's outputs from given states. */
  function SectionRun(s: Section, s1: real, s2: real, x: Vector): (y: Vector)
    ensures |y| == |x|
    decreases |x|
  {
    if x == [] then []
    else
      var r := SectionStep(s, x[0], s1, s2);
      [r.output] + SectionRun(s, r.next1, r.next2, x[1..])
  }

  /** What the initial states add to the outputs. */
  function FromStates(s1: real, s2: real, n: int): real {
    if n == 0 then s1 else if n == 1 then s2 else 0.0
  }

  lemma {:induction false} RunFilters(s: Section, s1: real, s2: real, x: Vector, n: nat)
    requires n < |x|
    ensures var y := SectionRun(s, s1, s2, x);
      Past(y, n) == s.b0 * Past(x, n) + s.b1 * Past(x, n - 1) + s.b2 * Past(x, n - 2)
                    - s.a1 * Past(y, n - 1) - s.a2 * Past(y, n - 2) + FromStates(s1, s2, n)
    decreases n
  {
    hide SectionRun;
    var r := SectionStep(s, x[0], s1, s2);
    RunHead(s, s1, s2, x);
    if n > 0 {
      var rest := SectionRun(s, r.next1, r.next2, x[1..]);
      RunFilters(s, r.next1, r.next2, x[1..], n - 1);
      Shift(x[0], x[1..], x, n);
      Shift(r.output, rest, SectionRun(s, s1, s2, x), n);
    }
  }

  lemma RunHead(s: Section, s1: real, s2: real, x: Vector)
    requires x != []
    ensures var r := SectionStep(s, x[0], s1, s2);
      SectionRun(s, s1, s2, x) == [r.output] + SectionRun(s, r.next1, r.next2, x[1..])
  {
    hide SectionStep;
  }

  lemma Shift(head: real, tail: Vector, v: Vector, n: nat)
    requires n > 0 && v == [head] + tail
    ensures forall k: int | k > 0 :: Past(v, k) == Past(tail, k - 1)
    ensures Past(v, 0) == head
  {
  }

  lemma SectionIsFilter(s: Section, x: Vector)
    ensures Filtered(s, x, SectionRun(s, 0.0, 0.0, x))
  {
    hide SectionRun;
    forall n: nat | n < |x| ensures FilteredAt(s, x, SectionRun(s, 0.0, 0.0, x), n) {
      RunFilters(s, 0.0, 0.0, x, n);
    }
  }

  /** The difference equation has one solution. */
  lemma {:induction false} FilterIsUnique(s: Section, x: Vector, y: Vector, z: Vector, n: nat)
    requires Filtered(s, x, y) && Filtered(s, x, z) && n <= |x|
    ensures y[..n] == z[..n]
  {
    if n > 0 {
      FilterIsUnique(s, x, y, z, n - 1);
      assert FilteredAt(s, x, y, n - 1) && FilteredAt(s, x, z, n - 1);
      hide Filtered;
      assert forall k: nat | k < n - 1 :: y[k] == y[..n - 1][k] && z[k] == z[..n - 1][k];
      assert Past(y, n - 2) == Past(z, n - 2) && Past(y, n - 3) == Past(z, n - 3);
      assert y[..n] == y[..n - 1] + [y[n - 1]] && z[..n] == z[..n - 1] + [z[n - 1]];
    }
  }

  /** A whole run of a cascade is a run of its last section over a run of the others. */
  lemma {:induction false} CascadeComposes(sos: Sos, state: Vector, x: Vector)
    requires sos != [] && |state| == 2 * |sos|
    ensures var k := |sos| - 1;
      CascadeOutputs(sos, state, x) ==
      SectionRun(sos[k], state[2 * k], state[2 * k + 1], CascadeOutputs(sos[..k], state[..2 * k], x))
    decreases |x|
  {
    hide Step, SectionStep;
    if x != [] {
      var k := |sos| - 1;
      var r := Step(sos, state, x[0]);
      var before := Step(sos[..k], state[..2 * k], x[0]);
      StepLast(sos, state, x[0]);
      assert r.next[..2 * k] == before.next;
      CascadeComposes(sos, r.next, x[1..]);
      var fed := CascadeOutputs(sos[..k], state[..2 * k], x);
      assert fed == [before.output] + CascadeOutputs(sos[..k], before.next, x[1..]);
      assert fed[1..] == CascadeOutputs(sos[..k], before.next, x[1..]);
      RunHead(sos[k], state[2 * k], state[2 * k + 1], fed);
    }
  }

  /** From rest a cascade is its sections' difference equations one after the other, and nothing else is. */
  lemma {:induction false} CascadeIsFilter(sos: Sos, x: Vector, y: Vector)
    ensures CascadeFiltered(sos, x, y) <==> y == CascadeOutputs(sos, Zeros(2 * |sos|), x)
    decreases |sos|
  {
    hide SectionRun, CascadeOutputs, Filtered;
    if sos == [] {
      NoSections(x);
    } else {
      var k := |sos| - 1;
      var fed := CascadeOutputs(sos[..k], Zeros(2 * k), x);
      assert Zeros(2 * |sos|)[..2 * k] == Zeros(2 * k);
      CascadeComposes(sos, Zeros(2 * |sos|), x);
      SectionIsFilter(sos[k], fed);
      CascadeIsFilter(sos[..k], x, fed);
      assert CascadeFiltered(sos, x, y) <==> FilteredThrough(sos[..k], sos[k], x, y);
      if CascadeFiltered(sos, x, y) {
        var between: Vector :| CascadeFiltered(sos[..k], x, between) && Filtered(sos[k], between, y);
        CascadeIsFilter(sos[..k], x, between);
        OnlyFilter(sos[k], fed, y);
      }
    }
  }

  lemma OnlyFilter(s: Section, x: Vector, y: Vector)
    requires Filtered(s, x, y)
    ensures y == SectionRun(s, 0.0, 0.0, x)
  {
    SectionIsFilter(s, x);
    var z := SectionRun(s, 0.0, 0.0, x);
    FilterIsUnique(s, x, y, z, |x|);
    assert y[..|x|] == y && z[..|x|] == z;
  }

  lemma {:induction false} NoSections(x: Vector)
    ensures CascadeOutputs([], [], x) == x && Zeros(0) == []
    decreases |x|
  {
    if x != [] {
      NoSections(x[1..]);
      assert Step([], [], x[0]) == StepResult([], x[0]);
    }
  }
}
