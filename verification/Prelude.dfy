/** Option, Result, and the sum of a map's values. */
module Prelude {

  datatype Option<+T> = None | Some(value: T) {
    function GetOr(default: T): T {
      match this
      case Some(v) => v
      case None => default
    }
  }

  datatype Result<+T, +E> = Ok(value: T) | Err(error: E)

  /** Sum of the values of a map, whatever order they are visited in. */
  ghost function Sum(m: map<string, int>): int
    decreases |m|
  {
    if m == map[] then 0 else
      var k :| k in m;
      m[k] + Sum(m - {k})
  }

  lemma {:induction false} SumRemove(m: map<string, int>, k: string)
    requires k in m
    ensures Sum(m) == m[k] + Sum(m - {k})
    decreases |m|
  {
    var j :| j in m && Sum(m) == m[j] + Sum(m - {j});
    if j != k {
      SumRemove(m - {j}, k);
      SumRemove(m - {k}, j);
      assert m - {j} - {k} == m - {k} - {j};
    }
  }

  lemma SumUpdate(m: map<string, int>, k: string, v: int)
    ensures Sum(m[k := v]) == Sum(m) - (if k in m then m[k] else 0) + v
  {
    SumRemove(m[k := v], k);
    if k in m {
      SumRemove(m, k);
      assert m[k := v] - {k} == m - {k};
    } else {
      assert m[k := v] - {k} == m;
    }
  }

  /** With no negative value, every value is at most the sum. */
  lemma {:induction false} SumBounds(m: map<string, int>)
    requires forall k :: k in m ==> m[k] >= 0
    ensures Sum(m) >= 0
    ensures forall k :: k in m ==> m[k] <= Sum(m)
    decreases |m|
  {
    forall k | k in m
      ensures 0 <= m[k] <= Sum(m)
    {
      SumRemove(m, k);
      SumBounds(m - {k});
    }
    if m != map[] {
      var k :| k in m;
      assert 0 <= m[k] <= Sum(m);
    }
  }

  lemma {:induction false} SumSubmap(part: map<string, int>, m: map<string, int>)
    requires part.Keys <= m.Keys && (forall k :: k in part ==> part[k] == m[k])
    requires forall k :: k in m ==> m[k] >= 0
    ensures Sum(part) <= Sum(m)
    decreases |part|
  {
    if part == map[] {
      SumBounds(m);
    } else {
      var k :| k in part;
      SumRemove(part, k);
      SumRemove(m, k);
      SumSubmap(part - {k}, m - {k});
    }
  }

  lemma {:induction false} SumUnion(m: map<string, int>, n: map<string, int>)
    requires forall k :: k in n ==> k !in m
    ensures Sum(m + n) == Sum(m) + Sum(n)
    decreases |n|
  {
    if n == map[] {
      assert m + n == m;
    } else {
      var k :| k in n;
      var rest := n - {k};
      SumUnion(m, rest);
      SumRemove(n, k);
      UnionStep(m, n, k);
      SumUpdate(m + rest, k, n[k]);
    }
  }

  lemma UnionStep(m: map<string, int>, n: map<string, int>, k: string)
    requires k in n && k !in m
    ensures m + n == (m + (n - {k}))[k := n[k]]
    ensures k !in m + (n - {k})
  {
  }
}

/** Machine integers: an addition that leaves i64 stops the program. */
module Checked {
  import opened Prelude

  const I64_MAX: int := 0x7fff_ffff_ffff_ffff
  const U64_MAX: int := 0xffff_ffff_ffff_ffff

  predicate IsI64(x: int) {
    -I64_MAX - 1 <= x <= I64_MAX
  }

  datatype Outcome<+T, +R> = Done(value: T) | Refused(why: R) | Overflow

  /** `*m.entry(k).or_insert(0) += d`. */
  function Add(m: map<string, int>, k: string, d: int): Option<map<string, int>> {
    var v := (if k in m then m[k] else 0) + d;
    if IsI64(v) then Some(m[k := v]) else None
  }

  /** Two of them, the one after the other. */
  function Move(m: map<string, int>, from: string, to: string, amount: int): Option<map<string, int>> {
    match Add(m, from, -amount)
    case Some(m') => Add(m', to, amount)
    case None => None
  }

  lemma AddKeeps(m: map<string, int>, k: string, d: int)
    requires k in m && Add(m, k, d).Some?
    ensures Add(m, k, d).value.Keys == m.Keys
    ensures Sum(Add(m, k, d).value) == Sum(m) + d
  {
    SumUpdate(m, k, m[k] + d);
  }

  /** Moving money between two accounts never changes the sum. */
  lemma MoveKeeps(m: map<string, int>, from: string, to: string, amount: int)
    requires from in m && to in m && Move(m, from, to, amount).Some?
    ensures Move(m, from, to, amount).value.Keys == m.Keys
    ensures Sum(Move(m, from, to, amount).value) == Sum(m)
  {
    var m' := Add(m, from, -amount).value;
    AddKeeps(m, from, -amount);
    assert to in m';
    AddKeeps(m', to, amount);
  }

  /** Money that is there can be moved: with no negative balance and a sum that fits,
      neither addition overflows. */
  lemma MoveFits(m: map<string, int>, from: string, to: string, amount: int)
    requires from in m && to in m && 0 <= amount <= m[from]
    requires forall k :: k in m ==> m[k] >= 0
    requires Sum(m) <= I64_MAX
    ensures Move(m, from, to, amount).Some?
  {
    SumRemove(m, from);
    SumBounds(m);
    SumBounds(m - {from});
    assert to != from ==> to in m - {from};
  }
}
