/** Small pieces every protocol model shares: an optional value and counting over a process table. */
module Common {

  datatype Option<+T> = None | Some(value: T)

  /** The number of entries of `xs` that satisfy `f`. */
  ghost function Count<T>(xs: seq<T>, f: T -> bool): (n: nat)
    ensures n <= |xs|
  {
    if xs == [] then 0
    else Count(xs[..|xs| - 1], f) + (if f(xs[|xs| - 1]) then 1 else 0)
  }

  ghost function One(b: bool): nat { if b then 1 else 0 }

  /** Replacing one entry changes the count by what that entry contributed. */
  lemma {:induction false} CountUpdate<T>(xs: seq<T>, k: nat, x: T, f: T -> bool)
    requires k < |xs|
    ensures Count(xs[k := x], f) + One(f(xs[k])) == Count(xs, f) + One(f(x))
  {
    var last := |xs| - 1;
    if k == last {
      assert xs[k := x][..last] == xs[..last];
    } else {
      assert xs[k := x][..last] == xs[..last][k := x];
      CountUpdate(xs[..last], k, x, f);
    }
  }

  /** A count is zero exactly when nobody qualifies. */
  lemma {:induction false} CountZero<T>(xs: seq<T>, f: T -> bool)
    ensures Count(xs, f) == 0 <==> forall k :: 0 <= k < |xs| ==> !f(xs[k])
  {
    if xs == [] {
    } else {
      var front := xs[..|xs| - 1];
      CountZero(front, f);
      assert forall k :: 0 <= k < |front| ==> front[k] == xs[k];
    }
  }

  /** Two different qualifying entries count for at least two. */
  lemma CountTwo<T>(xs: seq<T>, j: nat, k: nat, f: T -> bool)
    requires j < |xs| && k < |xs| && j != k && f(xs[j]) && f(xs[k])
    ensures Count(xs, f) >= 2
  {
    var last := |xs| - 1;
    var lo, hi := if j < k then j else k, if j < k then k else j;
    if hi == last {
      CountZero(xs[..last], f);
      assert xs[..last][lo] == xs[lo];
    } else {
      CountTwo(xs[..last], lo, hi, f);
    }
  }

  /** If every entry that satisfies h satisfies exactly one of f and g, the counts add up. */
  lemma {:induction false} CountSplit<T>(xs: seq<T>, f: T -> bool, g: T -> bool, h: T -> bool)
    requires forall k :: 0 <= k < |xs| ==> One(f(xs[k])) + One(g(xs[k])) == One(h(xs[k]))
    ensures Count(xs, f) + Count(xs, g) == Count(xs, h)
  {
    if xs == [] {
    } else {
      var front := xs[..|xs| - 1];
      assert forall k :: 0 <= k < |front| ==> front[k] == xs[k];
      CountSplit(front, f, g, h);
    }
  }

  /** Entries that satisfy f and also one of g and h are no more than those that satisfy g or h. */
  lemma {:induction false} CountCovered<T>(xs: seq<T>, f: T -> bool, g: T -> bool, h: T -> bool)
    requires forall k :: 0 <= k < |xs| && f(xs[k]) ==> g(xs[k]) || h(xs[k])
    ensures Count(xs, f) <= Count(xs, g) + Count(xs, h)
  {
    if xs == [] {
    } else {
      var front := xs[..|xs| - 1];
      assert forall k :: 0 <= k < |front| ==> front[k] == xs[k];
      CountCovered(front, f, g, h);
    }
  }

  lemma {:induction false} CountBelow<T>(xs: seq<T>, f: T -> bool, g: T -> bool)
    requires forall k :: 0 <= k < |xs| && f(xs[k]) ==> g(xs[k])
    ensures Count(xs, f) <= Count(xs, g)
  {
    if xs == [] {
    } else {
      var front := xs[..|xs| - 1];
      assert forall k :: 0 <= k < |front| ==> front[k] == xs[k];
      CountBelow(front, f, g);
    }
  }

  /** A count above one has two witnesses. */
  lemma {:induction false} CountAtMostOne<T>(xs: seq<T>, f: T -> bool)
    requires forall j, k :: 0 <= j < k < |xs| ==> !(f(xs[j]) && f(xs[k]))
    ensures Count(xs, f) <= 1
  {
    if xs == [] {
    } else {
      var last := |xs| - 1;
      var front := xs[..last];
      assert forall k :: 0 <= k < |front| ==> front[k] == xs[k];
      if f(xs[last]) { CountZero(front, f); } else { CountAtMostOne(front, f); }
    }
  }

  /** What f gives for the entries of `xs`, added up. */
  ghost function Sum<T>(xs: seq<T>, f: T -> nat): nat {
    if xs == [] then 0 else Sum(xs[..|xs| - 1], f) + f(xs[|xs| - 1])
  }

  lemma {:induction false} SumUpdate<T>(xs: seq<T>, k: nat, x: T, f: T -> nat)
    requires k < |xs|
    ensures Sum(xs[k := x], f) + f(xs[k]) == Sum(xs, f) + f(x)
  {
    var last := |xs| - 1;
    if k == last {
      assert xs[k := x][..last] == xs[..last];
    } else {
      assert xs[k := x][..last] == xs[..last][k := x];
      SumUpdate(xs[..last], k, x, f);
    }
  }

  lemma {:induction false} SumBound<T>(xs: seq<T>, b: nat, f: T -> nat)
    requires forall k :: 0 <= k < |xs| ==> f(xs[k]) <= b
    ensures Sum(xs, f) <= |xs| * b
  {
    if xs == [] {
    } else {
      var front := xs[..|xs| - 1];
      assert forall k :: 0 <= k < |front| ==> front[k] == xs[k];
      SumBound(front, b, f);
      assert |xs| * b == |front| * b + b;
    }
  }

  lemma {:induction false} SumAtLeast<T>(xs: seq<T>, k: nat, f: T -> nat)
    requires k < |xs|
    ensures Sum(xs, f) >= f(xs[k])
  {
    if k == |xs| - 1 {
    } else {
      SumAtLeast(xs[..|xs| - 1], k, f);
    }
  }
}
