/** Counting admissions whose windows do not overlap. */
module Windows {

  /** An admission and the start of the window (or counter life) it was counted in. */
  datatype Admission = Admission(time: int, window: int)

  /** Admissions in order of time; windows start at least `w` apart, and nothing is admitted to a window
      before it starts or after the next one has started. */
  ghost predicate Windowed(as_: seq<Admission>, w: int) {
    && (forall i :: 0 <= i < |as_| ==> as_[i].window <= as_[i].time)
    && (forall i, j :: 0 <= i < j < |as_| ==> as_[i].time <= as_[j].time && Successive(as_[i], as_[j], w))
  }

  predicate Successive(a: Admission, b: Admission, w: int) {
    a.window == b.window || (a.window + w <= b.window && a.time <= b.window)
  }

  function CountWindow(as_: seq<Admission>, window: int): nat {
    if as_ == [] then 0
    else CountWindow(as_[..|as_|-1], window) + (if as_[|as_|-1].window == window then 1 else 0)
  }

  /** Admissions in the half-open interval [from, to). */
  function CountBetween(as_: seq<Admission>, from: int, to: int): nat {
    if as_ == [] then 0
    else CountBetween(as_[..|as_|-1], from, to) + (if from <= as_[|as_|-1].time < to then 1 else 0)
  }

  lemma {:induction false} CoveredByTwo(as_: seq<Admission>, from: int, to: int, g: int, h: int)
    requires forall i :: 0 <= i < |as_| && from <= as_[i].time < to ==> as_[i].window == g || as_[i].window == h
    ensures CountBetween(as_, from, to) <= CountWindow(as_, g) + CountWindow(as_, h)
  {
    if as_ != [] { CoveredByTwo(as_[..|as_|-1], from, to, g, h); }
  }

  /** An interval of length `w` meets at most two windows. */
  lemma TwoWindows(as_: seq<Admission>, w: int, from: int) returns (g: int, h: int)
    requires w > 0 && Windowed(as_, w)
    ensures forall i :: 0 <= i < |as_| && from <= as_[i].time < from + w ==> as_[i].window == g || as_[i].window == h
  {
    g, h := 0, 0;
    if i :| 0 <= i < |as_| && from <= as_[i].time < from + w {
      g := as_[i].window;
      h := g;
      if j :| 0 <= j < |as_| && from <= as_[j].time < from + w && as_[j].window != g {
        h := as_[j].window;
        forall k | 0 <= k < |as_| && from <= as_[k].time < from + w ensures as_[k].window == g || as_[k].window == h {
          NoThirdWindow(as_, w, from, i, j, k);
        }
      }
    }
  }

  lemma NoThirdWindow(as_: seq<Admission>, w: int, from: int, i: nat, j: nat, k: nat)
    requires w > 0 && Windowed(as_, w) && i < |as_| && j < |as_| && k < |as_|
    requires forall x :: x in {i, j, k} ==> from <= as_[x].time < from + w
    requires as_[i].window != as_[j].window
    ensures as_[k].window == as_[i].window || as_[k].window == as_[j].window
  {
    Ordered(as_, w, i, j);
    Ordered(as_, w, i, k);
    Ordered(as_, w, j, k);
  }

  lemma Ordered(as_: seq<Admission>, w: int, i: nat, j: nat)
    requires Windowed(as_, w) && i < |as_| && j < |as_|
    ensures Successive(as_[i], as_[j], w) || Successive(as_[j], as_[i], w)
  {
  }

  /** With at most `limit` admissions per window there are at most twice as many in any half-open
      interval as long as a window. */
  lemma AtMostTwice(as_: seq<Admission>, w: int, limit: nat, from: int)
    requires w > 0 && Windowed(as_, w)
    requires forall g :: CountWindow(as_, g) <= limit
    ensures CountBetween(as_, from, from + w) <= 2 * limit
  {
    var g, h := TwoWindows(as_, w, from);
    CoveredByTwo(as_, from, from + w, g, h);
  }

  // ---- adding an admission ----

  lemma CountAdd(as_: seq<Admission>, a: Admission, g: int)
    ensures CountWindow(as_ + [a], g) == CountWindow(as_, g) + (if a.window == g then 1 else 0)
  {
    assert (as_ + [a])[..|as_|] == as_;
  }

  lemma {:induction false} CountNone(as_: seq<Admission>, g: int)
    requires forall i :: 0 <= i < |as_| ==> as_[i].window != g
    ensures CountWindow(as_, g) == 0
  {
    if as_ != [] { CountNone(as_[..|as_|-1], g); }
  }

  lemma WindowedAdd(as_: seq<Admission>, a: Admission, w: int)
    requires Windowed(as_, w) && a.window <= a.time
    requires forall i :: 0 <= i < |as_| ==> as_[i].time <= a.time && Successive(as_[i], a, w)
    ensures Windowed(as_ + [a], w)
  {
  }
}
