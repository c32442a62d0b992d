/**
 * The flat state machine shared by the three `*ArgsIter::next` implementations.  Field index `i`
 * is one arm of the `match self.idx`; `step(i)` is what that arm yields (`Some(pair)` when the
 * field differs from its default, `None` when it is skipped), and indices past the last field
 * yield `None`.  `PairsFrom(step, n, i)` is everything an iterator positioned at `i` still yields.
 */
module Emission {
  import opened Wrappers
  import opened Query

  function PairsFrom(step: nat -> Option<Pair>, n: nat, i: nat): seq<Pair>
    decreases n - i
  {
    if i >= n then []
    else (match step(i) case Some(p) => [p] case None => []) + PairsFrom(step, n, i + 1)
  }

  /** Arm `j` emits only under the `j`-th wire name. */
  predicate Labelled(step: nat -> Option<Pair>, names: seq<string>) {
    forall j :: 0 <= j < |names| ==> step(j).Some? ==> step(j).value.0 == names[j]
  }

  predicate Distinct(xs: seq<string>) {
    forall a, b :: 0 <= a < b < |xs| ==> xs[a] != xs[b]
  }

  /** `xs` is `ys` with some elements left out, the rest in their original order. */
  predicate Subsequence(xs: seq<string>, ys: seq<string>)
    decreases |ys|
  {
    xs == [] || (ys != [] && ((xs[0] == ys[0] && Subsequence(xs[1..], ys[1..])) || Subsequence(xs, ys[1..])))
  }

  /**
   * The names emitted from `i` on appear in declaration order, each at most once, and there is
   * at most one pair per remaining field.
   */
  lemma {:induction false} PairsFromKeys(step: nat -> Option<Pair>, names: seq<string>, i: nat)
    requires Labelled(step, names) && i <= |names|
    ensures Subsequence(Keys(PairsFrom(step, |names|, i)), names[i..])
    ensures forall k :: k in Keys(PairsFrom(step, |names|, i)) ==> k in names[i..]
    ensures Distinct(names) ==> Distinct(Keys(PairsFrom(step, |names|, i)))
    ensures |PairsFrom(step, |names|, i)| <= |names| - i
    decreases |names| - i
  {
    var n := |names|;
    if i < n {
      PairsFromKeys(step, names, i + 1);
      var rest := PairsFrom(step, n, i + 1);
      assert names[i..][1..] == names[i + 1..];
      assert names[i..] == [names[i]] + names[i + 1..];
      match step(i)
      case None =>
        assert PairsFrom(step, n, i) == rest;
      case Some(p) =>
        assert PairsFrom(step, n, i) == [p] + rest;
        assert ([p] + rest)[1..] == rest;
        var ks := Keys(PairsFrom(step, n, i));
        assert ks == [names[i]] + Keys(rest);
        assert ks[1..] == Keys(rest);
        if Distinct(names) {
          assert names[i] !in names[i + 1..];
          forall a, b | 0 <= a < b < |ks| ensures ks[a] != ks[b] {
            if a == 0 {
              assert ks[b] == Keys(rest)[b - 1];
              assert ks[b] in Keys(rest);
            } else {
              assert ks[a] == Keys(rest)[a - 1] && ks[b] == Keys(rest)[b - 1];
            }
          }
        }
    }
  }

  /** What the iterator yields under field `j`'s name is exactly what arm `j` emits. */
  lemma {:induction false} LookupFrom(step: nat -> Option<Pair>, names: seq<string>, i: nat, j: nat)
    requires Labelled(step, names) && Distinct(names) && i <= j < |names|
    ensures Lookup(PairsFrom(step, |names|, i), names[j])
            == (match step(j) case Some(p) => Some(p.1) case None => None)
    decreases |names| - i
  {
    var n := |names|;
    var rest := PairsFrom(step, n, i + 1);
    if i == j {
      if i + 1 < n {
        PairsFromKeys(step, names, i + 1);
        assert names[j] !in names[i + 1..];
        LookupAbsent(rest, names[j]);
      } else {
        LookupAbsent(rest, names[j]);
      }
      match step(i)
      case None =>
        assert PairsFrom(step, n, i) == rest;
      case Some(p) =>
        assert PairsFrom(step, n, i) == [p] + rest;
    } else {
      LookupFrom(step, names, i + 1, j);
      match step(i)
      case None =>
        assert PairsFrom(step, n, i) == rest;
      case Some(p) =>
        assert PairsFrom(step, n, i) == [p] + rest;
        assert ([p] + rest)[1..] == rest;
    }
  }

  /** Applies the pairs one after another to `b`; fails if any pair cannot be applied. */
  function Replay<T>(apply: (T, Pair) -> Option<T>, b: T, pairs: seq<Pair>): Option<T>
    decreases |pairs|
  {
    if pairs == [] then Some(b)
    else
      match apply(b, pairs[0])
      case None => None
      case Some(b') => Replay(apply, b', pairs[1..])
  }

  /**
   * `prefix(j)` is the bundle with fields `j..` reset to their defaults.  Arm `j` is sound when
   * it skips exactly when field `j` is at its default, and otherwise emits a pair that `apply`
   * turns back into field `j`'s value.
   */
  ghost predicate Sound<T>(step: nat -> Option<Pair>, apply: (T, Pair) -> Option<T>, prefix: nat -> T, j: nat) {
    match step(j)
    case None => prefix(j + 1) == prefix(j)
    case Some(p) => prefix(j + 1) != prefix(j) && apply(prefix(j), p) == Some(prefix(j + 1))
  }

  /** Replaying the pairs from field `i` on restores every field from `i` on. */
  lemma {:induction false} ReplayFrom<T>(step: nat -> Option<Pair>, apply: (T, Pair) -> Option<T>, prefix: nat -> T, n: nat, i: nat)
    requires i <= n
    requires forall j :: i <= j < n ==> Sound(step, apply, prefix, j)
    ensures Replay(apply, prefix(i), PairsFrom(step, n, i)) == Some(prefix(n))
    decreases n - i
  {
    if i < n {
      ReplayFrom(step, apply, prefix, n, i + 1);
      assert Sound(step, apply, prefix, i);
      var rest := PairsFrom(step, n, i + 1);
      match step(i)
      case None =>
        assert PairsFrom(step, n, i) == rest;
      case Some(p) =>
        assert PairsFrom(step, n, i) == [p] + rest;
        assert ([p] + rest)[1..] == rest;
    }
  }

  /** The number of fields among `i..n-1` whose value differs from the default. */
  ghost function Changes<T>(prefix: nat -> T, n: nat, i: nat): nat
    decreases n - i
  {
    if i >= n then 0 else (if prefix(i + 1) != prefix(i) then 1 else 0) + Changes(prefix, n, i + 1)
  }

  lemma {:induction false} ChangesBound<T>(prefix: nat -> T, n: nat, i: nat)
    requires i <= n
    ensures Changes(prefix, n, i) <= n - i
    decreases n - i
  {
    if i < n {
      ChangesBound(prefix, n, i + 1);
    }
  }

  /** One pair per field that differs from its default, none for the others. */
  lemma {:induction false} CountFrom<T>(step: nat -> Option<Pair>, apply: (T, Pair) -> Option<T>, prefix: nat -> T, n: nat, i: nat)
    requires i <= n
    requires forall j :: i <= j < n ==> Sound(step, apply, prefix, j)
    ensures |PairsFrom(step, n, i)| == Changes(prefix, n, i)
    decreases n - i
  {
    if i < n {
      CountFrom(step, apply, prefix, n, i + 1);
      assert Sound(step, apply, prefix, i);
    }
  }

  /** Every emitted name and value is free of `&` and `=` when every arm's are. */
  lemma {:induction false} PlainFrom(step: nat -> Option<Pair>, n: nat, i: nat)
    requires forall j :: i <= j < n && step(j).Some? ==> Plain(step(j).value.0) && Plain(step(j).value.1)
    ensures PlainPairs(PairsFrom(step, n, i))
    decreases n - i
  {
    if i < n {
      PlainFrom(step, n, i + 1);
    }
  }
}
