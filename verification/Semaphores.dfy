/** System V semaphore sets: what one semop call with a group of operations does. */
module Semaphores {

  /** The fields of a struct sembuf that the programs use; sem_flg is always 0. */
  datatype SemBuf = SemBuf(num: nat, op: int)

  datatype Outcome = Done(sems: seq<nat>) | Blocked

  /** An operation may proceed: 0 waits for the value 0, anything else must not make it negative. */
  predicate Allows(value: int, op: int) {
    if op == 0 then value == 0 else value + op >= 0
  }

  predicate InRange(ops: seq<SemBuf>, n: nat) {
    forall i :: 0 <= i < |ops| ==> ops[i].num < n
  }

  /** The operations take effect in order, and all of them or none: a group that would have to wait
      at any of them has no effect. */
  function SemOp(sems: seq<nat>, ops: seq<SemBuf>): (r: Outcome)
    requires InRange(ops, |sems|)
    ensures r.Done? ==> |r.sems| == |sems|
    decreases |ops|
  {
    if ops == [] then Done(sems)
    else
      var o := ops[0];
      if Allows(sems[o.num], o.op) then SemOp(sems[o.num := sems[o.num] + o.op], ops[1..]) else Blocked
  }

  /** What a group adds to semaphore i altogether. */
  function Sum(ops: seq<SemBuf>, i: nat): int {
    if ops == [] then 0 else (if ops[0].num == i then ops[0].op else 0) + Sum(ops[1..], i)
  }

  /** The j-th operation may proceed on the values that the first j operations leave. */
  ghost predicate AllowedAt(sems: seq<nat>, ops: seq<SemBuf>, j: nat)
    requires InRange(ops, |sems|) && j < |ops|
  {
    Allows(sems[ops[j].num] + Sum(ops[..j], ops[j].num), ops[j].op)
  }

  lemma {:induction false} SumSnoc(ops: seq<SemBuf>, j: nat, i: nat)
    requires j < |ops|
    ensures Sum(ops[..j + 1], i) == Sum(ops[..j], i) + if ops[j].num == i then ops[j].op else 0
  {
    if j > 0 {
      assert ops[..j + 1][1..] == ops[1..][..j] && ops[..j][1..] == ops[1..][..j - 1];
      SumSnoc(ops[1..], j - 1, i);
    } else {
      assert ops[..1][1..] == [] && ops[..0] == [];
    }
  }

  lemma SumSnocAll(ops: seq<SemBuf>, j: nat)
    requires j < |ops|
    ensures forall i: nat :: Sum(ops[..j + 1], i) == Sum(ops[..j], i) + if ops[j].num == i then ops[j].op else 0
  {
    forall i: nat
      ensures Sum(ops[..j + 1], i) == Sum(ops[..j], i) + if ops[j].num == i then ops[j].op else 0
    {
      SumSnoc(ops, j, i);
    }
  }

  /** A group proceeds exactly when each operation may proceed in its turn, and then every semaphore
      has changed by the sum of the group's operations on it. */
  lemma {:induction false} GroupMeaning(sems: seq<nat>, ops: seq<SemBuf>)
    requires InRange(ops, |sems|)
    ensures SemOp(sems, ops).Done? <==> forall j :: 0 <= j < |ops| ==> AllowedAt(sems, ops, j)
    ensures SemOp(sems, ops).Done? ==>
              forall i :: 0 <= i < |sems| ==> SemOp(sems, ops).sems[i] == sems[i] + Sum(ops, i)
    decreases |ops|
  {
    if ops == [] {
    } else {
      var o, rest := ops[0], ops[1..];
      assert Sum(ops[..0], o.num) == 0;
      assert AllowedAt(sems, ops, 0) == Allows(sems[o.num], o.op);
      if Allows(sems[o.num], o.op) {
        var next := sems[o.num := sems[o.num] + o.op];
        GroupMeaning(next, rest);
        forall j | 0 <= j < |rest| ensures AllowedAt(next, rest, j) == AllowedAt(sems, ops, j + 1) {
          assert ops[..j + 1][1..] == rest[..j] && ops[..j + 1][0] == o;
        }
        assert forall j :: 0 < j < |ops| ==> AllowedAt(sems, ops, j) == AllowedAt(next, rest, j - 1);
      }
    }
  }

  /** The first operation of a group, and the rest on what it leaves. */
  lemma GroupStep(sems: seq<nat>, ops: seq<SemBuf>, o: SemBuf, rest: seq<SemBuf>)
    requires InRange(ops, |sems|) && ops != [] && ops[0] == o && ops[1..] == rest
    ensures InRange(rest, |sems|)
    ensures Allows(sems[o.num], o.op) ==> SemOp(sems, ops) == SemOp(sems[o.num := sems[o.num] + o.op], rest)
    ensures !Allows(sems[o.num], o.op) ==> SemOp(sems, ops) == Blocked
  {
  }

  /** The call itself, on the values in place: apply in order; on the first operation that would
      have to wait, take back what was applied. */
  method Call(sems: array<nat>, ops: seq<SemBuf>) returns (ok: bool)
    requires InRange(ops, sems.Length)
    modifies sems
    ensures ok == SemOp(old(sems[..]), ops).Done?
    ensures sems[..] == if ok then SemOp(old(sems[..]), ops).sems else old(sems[..])
  {
    ghost var before := sems[..];
    var i := 0;
    while i < |ops| && Allows(sems[ops[i].num], ops[i].op)
      invariant 0 <= i <= |ops|
      invariant forall n :: 0 <= n < sems.Length ==> sems[n] == before[n] + Sum(ops[..i], n)
      invariant SemOp(before, ops) == SemOp(sems[..], ops[i..])
      invariant forall j :: 0 <= j < i ==> AllowedAt(before, ops, j)
    {
      ghost var now := sems[..];
      SumSnocAll(ops, i);
      sems[ops[i].num] := sems[ops[i].num] + ops[i].op;
      assert ops[i..][1..] == ops[i + 1..];
      assert sems[..] == now[ops[i].num := now[ops[i].num] + ops[i].op];
      i := i + 1;
    }
    ok := i == |ops|;
    if !ok {
      while i > 0
        invariant 0 <= i <= |ops|
        invariant forall n :: 0 <= n < sems.Length ==> sems[n] == before[n] + Sum(ops[..i], n)
        invariant forall j :: 0 <= j < i ==> AllowedAt(before, ops, j)
      {
        i := i - 1;
        SumSnocAll(ops, i);
        PrefixNonNegative(before, ops, i, ops[i].num);
        sems[ops[i].num] := sems[ops[i].num] - ops[i].op;
      }
      assert sems[..] == before;
    }
  }

  /** While operations proceed, values stay non-negative. */
  lemma {:induction false} PrefixNonNegative(sems: seq<nat>, ops: seq<SemBuf>, i: nat, n: nat)
    requires InRange(ops, |sems|) && i <= |ops| && n < |sems|
    requires forall j :: 0 <= j < i ==> AllowedAt(sems, ops, j)
    ensures sems[n] + Sum(ops[..i], n) >= 0
  {
    if i > 0 {
      PrefixNonNegative(sems, ops, i - 1, n);
      SumSnoc(ops, i - 1, n);
      assert AllowedAt(sems, ops, i - 1);
    }
  }
}
